/** What holds over whole runs of an upgrade job: the written copy is selected, and terminal states stay. */
module OsUpgradeRuns {
  import opened Options
  import opened OsUpgrade
  import opened OsUpgradeIntact

  // ---------------------------------------------------------------------------------------------
  // Safety.

  /** No request saves a stale copy of an open job over a staged one. */
  predicate NeverReopens(w: World, home: Copy, run: seq<Action>)
    requires Allowed(w, run)
    decreases run
  {
    run == [] || (!Reopens(w, home, run[0]) && NeverReopens(Apply(w, run[0]), home, run[1..]))
  }

  lemma {:induction false} RunKeepsInv(w: World, home: Copy, run: seq<Action>)
    requires Inv(w, home) && Allowed(w, run) && NeverReopens(w, home, run)
    ensures Inv(After(w, run), home)
    decreases run
  {
    if run != [] {
      StepKeepsInv(w, home, run[0]);
      RunKeepsInv(Apply(w, run[0]), home, run[1..]);
    }
  }

  /**
   * The copies the device may boot are whole, the job names the two right copies, and while it is open nothing but the
   * old copy is selected and running.
   */
  predicate Safe(w: World, home: Copy) {
    && Intact(w, home)
    && (w.job.target.Some? ==> Names(w.job, home))
    && (Open(w.job.state) ==> w.selector == home && w.running == home)
  }

  /** The tool is not started over a copy that may be booted if no request reopens the job. */
  lemma {:induction false} UnopenedIsNotOverwritten(w: World, home: Copy, run: seq<Action>)
    requires Inv(w, home) && Allowed(w, run) && NeverReopens(w, home, run)
    ensures NeverOverwrites(w, home, run)
    decreases run
  {
    if run != [] {
      StepKeepsInv(w, home, run[0]);
      UnopenedIsNotOverwritten(Apply(w, run[0]), home, run[1..]);
    }
  }

  /**
   * Over every run, whoever comes in between and wherever power is lost: the copies the device may boot are whole, and
   * a staged job names the right ones, if the tool was never started over one of them; that was never done, and an open
   * job is not bound to the target, if no request reopened the job.
   */
  lemma UpgradeIsSafe(w: World, home: Copy, run: seq<Action>)
    requires Init(w, home) && Allowed(w, run)
    ensures var end := After(w, run);
      && (NeverOverwrites(w, home, run) ==> Intact(end, home) && (Staged(end.job.state) ==> Names(end.job, home)))
      && (NeverReopens(w, home, run) ==> NeverOverwrites(w, home, run) && Safe(end, home))
  {
    InitInv(w, home);
    InitKept(w, home);
    if NeverReopens(w, home, run) {
      UnopenedIsNotOverwritten(w, home, run);
      RunKeepsInv(w, home, run);
    }
    if NeverOverwrites(w, home, run) {
      RunKeeps(w, home, run);
    }
  }

  /** Throughout the run, the target is neither selected nor running nor acted on while the job is open. */
  predicate OpenIsUnbound(w: World, home: Copy, run: seq<Action>)
    requires Allowed(w, run)
    decreases run
  {
    && (Open(w.job.state) ==> !Bound(w, home))
    && (run != [] ==> OpenIsUnbound(Apply(w, run[0]), home, run[1..]))
  }

  lemma ReopenedIsBound(w: World, home: Copy, a: Action)
    requires RequestOk(w.request, w.running, home) && Enabled(w, a) && Reopens(w, home, a)
    ensures Open(Apply(w, a).job.state) && Bound(Apply(w, a), home)
  {
  }

  /** An open job is never bound to the target throughout a run exactly when no request reopens it. */
  lemma {:induction false} UnboundIffNeverReopened(w: World, home: Copy, run: seq<Action>)
    requires Inv(w, home) && Allowed(w, run)
    ensures OpenIsUnbound(w, home, run) <==> NeverReopens(w, home, run)
    decreases run
  {
    if run != [] {
      if Reopens(w, home, run[0]) {
        ReopenedIsBound(w, home, run[0]);
      } else {
        StepKeepsInv(w, home, run[0]);
        UnboundIffNeverReopened(Apply(w, run[0]), home, run[1..]);
      }
    }
  }

  /**
   * The install process started by hand keeps out of the way of requests: it is used to resume a job that was taken
   * up for installation, and not while a request is under way.
   */
  predicate Orderly(w: World, a: Action) {
    a == StartInstall(true) ==> w.request.NoRequest? && w.job.state != Ready
  }

  predicate OrderlyRun(w: World, run: seq<Action>)
    requires Allowed(w, run)
    decreases run
  {
    run == [] || (Orderly(w, run[0]) && OrderlyRun(Apply(w, run[0]), run[1..]))
  }

  /** A request of an open job has it to itself, and the install process has it only once it is marked as installing. */
  predicate OrderlyInv(w: World) {
    && (ForOpen(w.request) ==> w.holder.Free? && !w.queued && w.rebooter.NotAsked? && Open(w.job.state))
    && (!w.holder.Free? || w.queued ==> w.job.state !in {Uploading, Validating, Ready})
    && (w.holder.Checking? || w.holder.Noting? || w.holder.Backing? ==> w.holder.job.state == Installing)
    && (w.request.Launching? || w.request.Withdrawing? ==> w.job.state == Installing)
  }

  lemma HolderIsOrderly(w: World, home: Copy, ok: bool, version: string)
    requires HolderOk(w.holder, w.running, home) && OrderlyInv(w) && !w.holder.Free?
    ensures OrderlyInv(Apply(w, Advance(ok, version)))
  {
  }

  lemma RequestIsOrderly(w: World, home: Copy, ok: bool, version: string)
    requires RequestOk(w.request, w.running, home) && OrderlyInv(w) && !w.request.NoRequest?
    ensures OrderlyInv(RequestStep(w, ok, version))
  {
  }

  lemma OrderlyKeepsOpen(w: World, home: Copy, a: Action)
    requires Inv(w, home) && OrderlyInv(w)
    ensures !Reopens(w, home, a)
  {
    assert SavesOpen(w.request) ==> ForOpen(w.request);
  }

  lemma StepIsOrderly(w: World, home: Copy, a: Action)
    requires Inv(w, home) && OrderlyInv(w) && Enabled(w, a) && Orderly(w, a)
    ensures !Reopens(w, home, a) && OrderlyInv(Apply(w, a))
  {
    OrderlyKeepsOpen(w, home, a);
    match a
    case Advance(ok, version) => HolderIsOrderly(w, home, ok, version);
    case AdvanceRequest(ok, version) => RequestIsOrderly(w, home, ok, version);
    case _ => StartIsOrderly(w, home, a);
  }

  lemma StartIsOrderly(w: World, home: Copy, a: Action)
    requires HolderOk(w.holder, w.running, home) && (Open(w.job.state) ==> w.rebooter.NotAsked?)
    requires OrderlyInv(w) && Enabled(w, a) && Orderly(w, a) && !a.Advance? && !a.AdvanceRequest?
    ensures OrderlyInv(Apply(w, a))
  {
  }

  lemma {:induction false} OrderlyNeverReopens(w: World, home: Copy, run: seq<Action>)
    requires Inv(w, home) && OrderlyInv(w) && Allowed(w, run) && OrderlyRun(w, run)
    ensures NeverReopens(w, home, run)
    decreases run
  {
    if run != [] {
      StepIsOrderly(w, home, run[0]);
      StepKeepsInv(w, home, run[0]);
      OrderlyNeverReopens(Apply(w, run[0]), home, run[1..]);
    }
  }

  /**
   * Over every run with the services and requests of the device, and the install process started by hand at most to
   * resume, whoever comes in between, whoever dies and wherever power is lost, the upgrade is safe.
   */
  lemma ServicesAreSafe(w: World, home: Copy, run: seq<Action>)
    requires Init(w, home) && Allowed(w, run) && OrderlyRun(w, run)
    ensures Safe(After(w, run), home)
  {
    InitInv(w, home);
    OrderlyNeverReopens(w, home, run);
    UpgradeIsSafe(w, home, run);
  }

  /** A job becomes successful only by a verification that runs on the written target and saw the right version. */
  lemma SuccessMeansTargetRuns(w: World, home: Copy, run: seq<Action>, a: Action)
    requires Init(w, home) && Allowed(w, run) && NeverOverwrites(w, home, run) && Enabled(After(w, run), a)
    requires After(w, run).job.state != Success && Apply(After(w, run), a).job.state == Success
    ensures var end := After(w, run);
      && end.holder.Passing? && end.running == Other(home) && end.images.At(end.running) == Written
      && end.holder.job.target == Some(end.running)
      && VersionMatches(end.holder.job.targetVersion, end.holder.version)
  {
    InitKept(w, home);
    RunKeeps(w, home, run);
    OnlyPassingSucceeds(After(w, run), home, a);
  }

  lemma OnlyPassingSucceeds(w: World, home: Copy, a: Action)
    requires HolderSound(w.holder, w.running, home) && RequestSound(w.request, home)
    requires Enabled(w, a) && w.job.state != Success && Apply(w, a).job.state == Success
    ensures w.holder.Passing?
  {
    match a
    case Advance(ok, version) => HolderSaves(w, home, ok, version);
    case AdvanceRequest(ok, version) => RequestSaves(w, home, ok, version);
    case _ =>
  }

  /** What the lock holder may leave on disk. */
  lemma HolderSaves(w: World, home: Copy, ok: bool, version: string)
    requires HolderSound(w.holder, w.running, home) && !w.holder.Free?
    ensures var s := Apply(w, Advance(ok, version)).job.state;
      s == w.job.state || !Terminal(s) || (s == Failed && (w.holder.Failing? || w.holder.Closing?))
      || (s == Success && w.holder.Passing?)
  {
  }

  /** What a request may leave on disk. */
  lemma RequestSaves(w: World, home: Copy, ok: bool, version: string)
    requires RequestSound(w.request, home) && !w.request.NoRequest?
    ensures var s := RequestStep(w, ok, version).job.state;
      s == w.job.state || (ok && SavesOpen(w.request) && Open(s)) || (s == Failed && w.request.Rejecting?)
      || (s == Cancelled && w.request.Dropping?)
  {
  }

  // ---------------------------------------------------------------------------------------------
  // Runs put together.

  /** A step and then a run is a run. */
  lemma RunCons(w: World, a: Action, run: seq<Action>)
    requires Enabled(w, a) && Allowed(Apply(w, a), run)
    ensures Allowed(w, [a] + run) && After(w, [a] + run) == After(Apply(w, a), run)
  {
    assert ([a] + run)[1..] == run;
  }

  /** A run and then a run is a run. */
  lemma {:induction false} RunConcat(w: World, run: seq<Action>, more: seq<Action>)
    requires Allowed(w, run) && Allowed(After(w, run), more)
    ensures Allowed(w, run + more) && After(w, run + more) == After(After(w, run), more)
    decreases run
  {
    if run == [] {
      assert run + more == more;
    } else {
      assert (run + more)[1..] == run[1..] + more;
      RunConcat(Apply(w, run[0]), run[1..], more);
    }
  }

  lemma InOne(w: World, a: Action)
    requires Enabled(w, a)
    ensures Allowed(w, [a]) && After(w, [a]) == Apply(w, a)
  {
    RunCons(w, a, []);
    assert [a] + [] == [a];
  }

  lemma InTwo(w: World, a: Action, b: Action)
    requires Enabled(w, a) && Enabled(Apply(w, a), b)
    ensures Allowed(w, [a, b]) && After(w, [a, b]) == Apply(Apply(w, a), b)
  {
    InOne(Apply(w, a), b);
    RunCons(w, a, [b]);
    assert [a] + [b] == [a, b];
  }

  // ---------------------------------------------------------------------------------------------
  // Terminal states.

  /** No process or request under way has a state other than a terminal one still to save. */
  predicate Dormant(w: World) {
    && w.rebooter.NotAsked?
    && (w.holder.Free? || w.holder.SaveLost? || w.holder.Undoing? || w.holder.Failing? || w.holder.Passing?
        || w.holder.Reverting? || (w.holder.Closing? && w.holder.job.state == Failed))
    && (!ForOpen(w.request) || w.request.Rejecting?)
  }

  lemma DormantHolder(w: World, home: Copy, ok: bool, version: string)
    requires HolderOk(w.holder, w.running, home) && Terminal(w.job.state) && Dormant(w) && !w.holder.Free?
    ensures var w' := Apply(w, Advance(ok, version)); Terminal(w'.job.state) && Dormant(w')
  {
  }

  lemma DormantRequest(w: World, home: Copy, ok: bool, version: string)
    requires RequestOk(w.request, w.running, home) && Terminal(w.job.state) && Dormant(w) && !w.request.NoRequest?
    ensures var w' := RequestStep(w, ok, version); Terminal(w'.job.state) && Dormant(w')
  {
  }

  lemma DormantStep(w: World, home: Copy, a: Action)
    requires HolderOk(w.holder, w.running, home) && RequestOk(w.request, w.running, home)
    requires Terminal(w.job.state) && Dormant(w) && Enabled(w, a)
    ensures !Reopens(w, home, a) && Terminal(Apply(w, a).job.state) && Dormant(Apply(w, a))
  {
    match a
    case Advance(ok, version) => DormantHolder(w, home, ok, version);
    case AdvanceRequest(ok, version) => DormantRequest(w, home, ok, version);
    case StartInstall(_) => DormantStart(w, home, a);
    case StartVerify => DormantStart(w, home, a);
    case StartReboot => DormantStart(w, home, a);
    case StartRequest(_) => DormantStart(w, home, a);
    case _ => DormantLoss(w, home, a);
  }

  /** Nothing is started for a job that has ended. */
  lemma DormantStart(w: World, home: Copy, a: Action)
    requires Terminal(w.job.state) && Dormant(w) && Enabled(w, a)
    requires a.StartInstall? || a.StartVerify? || a.StartReboot? || a.StartRequest?
    ensures !Reopens(w, home, a) && Terminal(Apply(w, a).job.state) && Dormant(Apply(w, a))
  {
  }

  /** Deaths, a power cycle and progress of the tool leave nothing more to save. */
  lemma DormantLoss(w: World, home: Copy, a: Action)
    requires Terminal(w.job.state) && Dormant(w) && Enabled(w, a)
    requires a.Progress? || a.AdvanceReboot? || a.Kill? || a.PowerCycle?
    ensures !Reopens(w, home, a) && Terminal(Apply(w, a).job.state) && Dormant(Apply(w, a))
  {
  }

  lemma {:induction false} DormantStaysTerminal(w: World, home: Copy, run: seq<Action>)
    requires Inv(w, home) && Terminal(w.job.state) && Dormant(w) && Allowed(w, run)
    ensures Terminal(After(w, run).job.state)
    decreases run
  {
    if run != [] {
      DormantStep(w, home, run[0]);
      StepKeepsInv(w, home, run[0]);
      DormantStaysTerminal(Apply(w, run[0]), home, run[1..]);
    }
  }

  /** How an install process that may still write the target overwrites a terminal state. */
  lemma EarlyOverwrites(w: World, home: Copy) returns (run: seq<Action>)
    requires HolderOk(w.holder, w.running, home) && Early(w.holder)
    ensures Allowed(w, run) && !Terminal(After(w, run).job.state)
  {
    var go := Advance(true, "");
    if w.holder.Writing? {
      InOne(w, Progress);
      run := [Progress];
    } else if w.holder.Rechecking? {
      InTwo(w, go, Progress);
      run := [go, Progress];
    } else if w.holder.Checking? || w.holder.Backing? {
      InTwo(w, go, go);
      run := [go, go];
    } else {
      InOne(w, go);
      run := [go];
    }
  }

  /** How an install process that has written the target overwrites a terminal state. */
  lemma StagedOverwrites(w: World, home: Copy) returns (run: seq<Action>)
    requires HolderOk(w.holder, w.running, home)
    requires w.holder.Flashed? || w.holder.Syncing? || w.holder.Selecting? || w.holder.Selected?
    ensures Allowed(w, run) && !Terminal(After(w, run).job.state)
  {
    var go := Advance(true, "");
    if w.holder.Selecting? {
      InTwo(w, go, go);
      run := [go, go];
    } else if w.holder.Syncing? {
      InTwo(Apply(w, go), go, go);
      RunCons(w, go, [go, go]);
      run := [go] + [go, go];
    } else {
      InOne(w, go);
      run := [go];
    }
  }

  /** How a verify process under way overwrites a terminal state. */
  lemma VerifierOverwrites(w: World, home: Copy) returns (run: seq<Action>)
    requires HolderOk(w.holder, w.running, home) && Verifier(w.holder)
    requires !Dormant(w.(rebooter := NotAsked, request := NoRequest))
    ensures Allowed(w, run) && !Terminal(After(w, run).job.state)
  {
    var go := Advance(true, "");
    if w.holder.Judging? {
      InTwo(w, Advance(false, ""), go);
      run := [Advance(false, ""), go];
    } else {
      InOne(w, go);
      run := [go];
    }
  }

  /** How a request under way overwrites a terminal state. */
  lemma RequestOverwrites(w: World, home: Copy) returns (run: seq<Action>)
    requires RequestOk(w.request, w.running, home) && ForOpen(w.request) && !w.request.Rejecting?
    ensures Allowed(w, run) && !Terminal(After(w, run).job.state)
  {
    var go := AdvanceRequest(true, "");
    if w.request.Launching? {
      InTwo(w, AdvanceRequest(false, ""), go);
      run := [AdvanceRequest(false, ""), go];
    } else if SavesOpen(w.request) {
      InOne(w, go);
      run := [go];
    } else {
      InTwo(w, go, go);
      run := [go, go];
    }
  }

  /**
   * A terminal state on disk is final, whatever happens next, exactly when no process or request under way still has
   * another state to save. Whatever starts later finds it and leaves it.
   */
  lemma TerminalIsFinalIff(w: World, home: Copy)
    requires Inv(w, home) && Terminal(w.job.state)
    ensures Dormant(w) <==> forall run :: Allowed(w, run) ==> Terminal(After(w, run).job.state)
  {
    if Dormant(w) {
      forall run | Allowed(w, run)
        ensures Terminal(After(w, run).job.state)
      {
        DormantStaysTerminal(w, home, run);
      }
    } else {
      var run: seq<Action>;
      if w.rebooter.Asked? {
        InOne(w, AdvanceReboot(true));
        run := [AdvanceReboot(true)];
      } else if ForOpen(w.request) && !w.request.Rejecting? {
        run := RequestOverwrites(w, home);
      } else if Early(w.holder) {
        run := EarlyOverwrites(w, home);
      } else if Installer(w.holder) {
        run := StagedOverwrites(w, home);
      } else {
        run := VerifierOverwrites(w, home);
      }
      assert Allowed(w, run);
    }
  }

  /** Nothing is under way. */
  predicate AtRest(w: World) {
    w.holder.Free? && w.rebooter.NotAsked? && w.request.NoRequest?
  }

  /** A finished job stays as it is through any requests and reboots; only a failed one can still be cancelled. */
  lemma {:induction false} FinishedJobStays(w: World, run: seq<Action>)
    requires AtRest(w) && Terminal(w.job.state) && Allowed(w, run)
    requires w.job.state == Failed ==> StartRequest(Cancel) !in run
    ensures After(w, run).job == w.job && After(w, run).selector == w.selector && AtRest(After(w, run))
    decreases run
  {
    if run != [] {
      var w' := Apply(w, run[0]);
      FinishedStep(w, run[0]);
      FinishedJobStays(w', run[1..]);
    }
  }

  lemma FinishedStep(w: World, a: Action)
    requires AtRest(w) && Terminal(w.job.state) && Enabled(w, a)
    requires w.job.state == Failed ==> a != StartRequest(Cancel)
    ensures AtRest(Apply(w, a)) && Apply(w, a).job == w.job && Apply(w, a).selector == w.selector
  {
  }
}
