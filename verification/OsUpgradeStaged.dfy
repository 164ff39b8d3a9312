/** When a staged upgrade comes up on its target: what may happen between the installation and the next boot. */
module OsUpgradeStaged {
  import opened Options
  import opened OsUpgrade
  import opened OsUpgradeIntact
  import opened OsUpgradeRuns

  /** The target is written and selected, the reboot is asked for, and nothing is under way. */
  predicate Prepared(w: World, home: Copy) {
    && AtRest(w) && w.active && w.job.state == AwaitingReboot && Names(w.job, home)
    && w.selector == Other(home) && w.running == home && w.images.At(Other(home)) == Written
  }

  /** The old copy is selected: by a verification that rolls back or by a cancellation. */
  predicate Unselects(w: World, a: Action) {
    || (a.Advance? && a.ok && w.holder.Reverting?)
    || (a.AdvanceRequest? && a.ok && w.request.Unstaging?)
  }

  predicate NeverUnselects(w: World, run: seq<Action>)
    requires Allowed(w, run)
    decreases run
  {
    run == [] || (!Unselects(w, run[0]) && NeverUnselects(Apply(w, run[0]), run[1..]))
  }

  /** The device boots the written target after the run. */
  predicate ComesUp(w: World, home: Copy, run: seq<Action>)
    requires Allowed(w, run)
  {
    var up := Apply(After(w, run), PowerCycle);
    up.running == Other(home) && up.images.At(Other(home)) == Written
  }

  // ---------------------------------------------------------------------------------------------
  // What holds until the next boot.

  predicate HolderWaits(h: Holder, home: Copy) {
    && (h.Free? || h.Opening? || h.Judging? || h.Rolling? || h.Reverting? || h.Failing? || h.Closing?)
    && (!h.Free? ==> Names(h.job, home))
    && (h.Opening? || h.Judging? ==> h.job.state == Verifying && h.current == home)
    && (h.Rolling? || h.Reverting? ==> h.job.state == Rollback)
    && (h.Closing? ==> h.job.state == Failed)
  }

  predicate RequestWaits(r: Request, home: Copy) {
    && (r.NoRequest? || r.Unstaging? || r.Deactivating? || r.Dropping? || r.Unlinking?)
    && (!r.NoRequest? && !r.Unlinking? ==> Names(r.job, home))
    && (r.Dropping? ==> r.job.state == Cancelled)
  }

  predicate Waiting(w: World, home: Copy) {
    && w.running == home && w.images.At(Other(home)) == Written
    && w.job.state in {AwaitingReboot, Rebooting, Verifying, Rollback, Failed, Cancelled} && Names(w.job, home)
    && HolderWaits(w.holder, home) && RequestWaits(w.request, home)
    && (w.rebooter.Asked? ==> Names(w.rebooter.job, home))
  }

  lemma HolderStepWaits(w: World, home: Copy, ok: bool, version: string)
    requires Waiting(w, home) && !w.holder.Free?
    ensures var w' := Apply(w, Advance(ok, version));
      Waiting(w', home) && w'.selector == if Unselects(w, Advance(ok, version)) then home else w.selector
  {
    if w.holder.Opening? || w.holder.Judging? || w.holder.Rolling? {
      JudgeStepWaits(w, home, ok, version);
    } else {
      EndStepWaits(w, home, ok, version);
    }
  }

  lemma JudgeStepWaits(w: World, home: Copy, ok: bool, version: string)
    requires Waiting(w, home) && (w.holder.Opening? || w.holder.Judging? || w.holder.Rolling?)
    ensures var w' := VerifyStep(w, ok, version); Waiting(w', home) && w'.selector == w.selector
  {
  }

  lemma EndStepWaits(w: World, home: Copy, ok: bool, version: string)
    requires Waiting(w, home) && (w.holder.Reverting? || w.holder.Failing? || w.holder.Closing?)
    ensures var w' := Apply(w, Advance(ok, version));
      Waiting(w', home) && w'.selector == if Unselects(w, Advance(ok, version)) then home else w.selector
  {
  }

  lemma RequestStepWaits(w: World, home: Copy, ok: bool, version: string)
    requires Waiting(w, home) && !w.request.NoRequest?
    ensures var w' := RequestStep(w, ok, version);
      Waiting(w', home) && w'.selector == if Unselects(w, AdvanceRequest(ok, version)) then home else w.selector
  {
  }

  lemma OtherStepWaits(w: World, home: Copy, a: Action)
    requires Waiting(w, home) && Enabled(w, a) && a != PowerCycle && !a.Advance? && !a.AdvanceRequest?
    ensures Waiting(Apply(w, a), home) && Apply(w, a).selector == w.selector
  {
  }

  lemma StepWaits(w: World, home: Copy, a: Action)
    requires Waiting(w, home) && Enabled(w, a) && a != PowerCycle
    ensures Waiting(Apply(w, a), home) && Apply(w, a).selector == if Unselects(w, a) then home else w.selector
  {
    match a
    case Advance(ok, version) => HolderStepWaits(w, home, ok, version);
    case AdvanceRequest(ok, version) => RequestStepWaits(w, home, ok, version);
    case _ => OtherStepWaits(w, home, a);
  }

  lemma {:induction false} RunWaits(w: World, home: Copy, run: seq<Action>)
    requires Waiting(w, home) && Allowed(w, run) && PowerCycle !in run
    ensures Waiting(After(w, run), home)
    ensures After(w, run).selector == if NeverUnselects(w, run) then w.selector else home
    decreases run
  {
    if run != [] {
      StepWaits(w, home, run[0]);
      RunWaits(Apply(w, run[0]), home, run[1..]);
    }
  }

  /**
   * Whatever happens to a staged upgrade before the device is booted, it comes up on the written target exactly if no
   * verification and no cancellation got as far as to select the old copy: nothing selects the target again.
   */
  lemma StagedComesUpIff(w: World, home: Copy, run: seq<Action>)
    requires Prepared(w, home) && Allowed(w, run) && PowerCycle !in run
    ensures ComesUp(w, home, run) <==> NeverUnselects(w, run)
  {
    RunWaits(w, home, run);
  }

  // ---------------------------------------------------------------------------------------------
  // What may be started.

  predicate IsStart(a: Action) {
    a.StartInstall? || a.StartVerify? || a.StartReboot? || a.StartRequest?
  }

  predicate StartsOnly(run: seq<Action>, starts: set<Action>) {
    forall i :: 0 <= i < |run| && IsStart(run[i]) ==> run[i] in starts
  }

  /** Nothing that could select the old copy is under way. */
  predicate Undisturbed(w: World) {
    w.holder.Free? && w.request.NoRequest? && w.job.state in {AwaitingReboot, Rebooting}
  }

  lemma {:induction false} UndisturbedRun(w: World, run: seq<Action>)
    requires Undisturbed(w) && Allowed(w, run)
    requires PowerCycle !in run && StartVerify !in run && StartRequest(Cancel) !in run
    ensures NeverUnselects(w, run)
    decreases run
  {
    if run != [] {
      UndisturbedStep(w, run[0]);
      UndisturbedRun(Apply(w, run[0]), run[1..]);
    }
  }

  lemma UndisturbedStep(w: World, a: Action)
    requires Undisturbed(w) && Enabled(w, a) && a != PowerCycle && a != StartVerify && a != StartRequest(Cancel)
    ensures Undisturbed(Apply(w, a)) && !Unselects(w, a)
  {
  }

  /** A verification of a staged upgrade finds the old copy running. */
  lemma JudgedTooEarly(w: World, home: Copy) returns (run: seq<Action>)
    requires Prepared(w, home)
    ensures Allowed(w, run) && PowerCycle !in run && StartsOnly(run, {StartVerify})
    ensures After(w, run)
      == w.(job := w.job.(state := Verifying), holder := Rolling(w.job.(state := Rollback)))
  {
    var go := Advance(true, "");
    InTwo(Apply(w, StartVerify), go, go);
    RunCons(w, StartVerify, [go, go]);
    run := [StartVerify] + [go, go];
  }

  /** So it rolls back. */
  lemma VerifiedTooEarly(w: World, home: Copy) returns (run: seq<Action>)
    requires Prepared(w, home)
    ensures Allowed(w, run) && PowerCycle !in run && StartsOnly(run, {StartVerify})
    ensures After(w, run) == w.(job := w.job.(state := Rollback), selector := home)
  {
    var go := Advance(true, "");
    var judged := JudgedTooEarly(w, home);
    InTwo(After(w, judged), go, go);
    RunConcat(w, judged, [go, go]);
    run := judged + [go, go];
  }

  lemma CancelledBefore(w: World, home: Copy) returns (run: seq<Action>)
    requires Prepared(w, home)
    ensures Allowed(w, run) && PowerCycle !in run && StartsOnly(run, {StartRequest(Cancel)})
    ensures After(w, run).selector == home
  {
    run := [StartRequest(Cancel), AdvanceRequest(true, "")];
    InTwo(w, StartRequest(Cancel), AdvanceRequest(true, ""));
  }

  lemma StartsAmong(run: seq<Action>, some: set<Action>, starts: set<Action>)
    requires StartsOnly(run, some) && some <= starts
    ensures StartsOnly(run, starts)
  {
  }

  lemma NotStarted(run: seq<Action>, starts: set<Action>, a: Action)
    requires StartsOnly(run, starts) && IsStart(a) && a !in starts
    ensures a !in run
  {
  }

  /**
   * A staged upgrade comes up on its target in every case, whatever fails and whoever dies before the device is booted,
   * exactly if neither a verification nor a cancellation is among what may be started until then.
   */
  lemma SurvivesIff(w: World, home: Copy, starts: set<Action>)
    requires Prepared(w, home)
    ensures (forall run :: Allowed(w, run) && PowerCycle !in run && StartsOnly(run, starts) ==> ComesUp(w, home, run))
      <==> StartVerify !in starts && StartRequest(Cancel) !in starts
  {
    if StartVerify in starts {
      var run := VerifiedTooEarly(w, home);
      StartsAmong(run, {StartVerify}, starts);
      assert !ComesUp(w, home, run);
    } else if StartRequest(Cancel) in starts {
      var run := CancelledBefore(w, home);
      StartsAmong(run, {StartRequest(Cancel)}, starts);
      assert !ComesUp(w, home, run);
    } else {
      forall run | Allowed(w, run) && PowerCycle !in run && StartsOnly(run, starts)
        ensures ComesUp(w, home, run)
      {
        NotStarted(run, starts, StartVerify);
        NotStarted(run, starts, StartRequest(Cancel));
        UndisturbedRun(w, run);
        StagedComesUpIff(w, home, run);
      }
    }
  }
}
