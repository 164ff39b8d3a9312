/** When a job that asks for a reboot, or has had one, has its target selected. */
module OsUpgradeSelection {
  import opened OsUpgrade
  import opened OsUpgradeIntact
  import opened OsUpgradeRuns

  /** A reboot is asked for or recorded. */
  predicate Awaits(s: State) {
    s == AwaitingReboot || s == Rebooting
  }

  /** A reboot that is asked for or recorded comes up on the target. */
  predicate WouldBootTarget(w: World, home: Copy) {
    Awaits(w.job.state) ==> w.selector == Other(home)
  }

  predicate AlwaysWouldBootTarget(w: World, home: Copy, run: seq<Action>)
    requires Allowed(w, run)
    decreases run
  {
    WouldBootTarget(w, home) && (run != [] ==> AlwaysWouldBootTarget(Apply(w, run[0]), home, run[1..]))
  }

  /** The verify process asks for the reboot of an installed job although the old copy is selected. */
  predicate AsksUnselected(w: World, home: Copy, a: Action) {
    a.Advance? && a.ok && w.holder.Closing? && w.holder.job.state == AwaitingReboot && w.selector == home
  }

  /** A reboot is asked for by the install process, or recorded, although the old copy is selected. */
  predicate RecordsUnselected(w: World, home: Copy, a: Action) {
    w.selector == home && ((a.Advance? && a.ok && w.holder.Selected?) || a == AdvanceReboot(true))
  }

  /** A process or a cancellation selects the old copy although a reboot is asked for or recorded. */
  predicate UnselectsAwaited(w: World, a: Action) {
    && Awaits(w.job.state)
    && (|| (a.Advance? && a.ok && (w.holder.Reverting? || w.holder.Undoing? || w.holder.SaveLost?))
        || (a.AdvanceRequest? && a.ok && w.request.Unstaging?))
  }

  predicate Blind(w: World, home: Copy, a: Action) {
    AsksUnselected(w, home, a) || RecordsUnselected(w, home, a) || UnselectsAwaited(w, a)
  }

  predicate NeverBlind(w: World, home: Copy, run: seq<Action>)
    requires Allowed(w, run)
    decreases run
  {
    run == [] || (!Blind(w, home, run[0]) && NeverBlind(Apply(w, run[0]), home, run[1..]))
  }

  lemma InstallStepBoots(w: World, home: Copy, ok: bool, version: string)
    requires HolderSound(w.holder, w.running, home) && WouldBootTarget(w, home) && Installer(w.holder)
    ensures WouldBootTarget(InstallStep(w, ok), home) <==> !Blind(w, home, Advance(ok, version))
  {
  }

  lemma VerifyStepBoots(w: World, home: Copy, ok: bool, version: string)
    requires HolderSound(w.holder, w.running, home) && WouldBootTarget(w, home) && Verifier(w.holder)
    ensures WouldBootTarget(VerifyStep(w, ok, version), home) <==> !Blind(w, home, Advance(ok, version))
  {
  }

  lemma RequestStepBoots(w: World, home: Copy, ok: bool, version: string)
    requires RequestSound(w.request, home) && WouldBootTarget(w, home) && !w.request.NoRequest?
    ensures WouldBootTarget(RequestStep(w, ok, version), home) <==> !Blind(w, home, AdvanceRequest(ok, version))
  {
  }

  lemma OtherStepBoots(w: World, home: Copy, a: Action)
    requires HolderSound(w.holder, w.running, home) && WouldBootTarget(w, home)
    requires Enabled(w, a) && !a.Advance? && !a.AdvanceRequest?
    ensures WouldBootTarget(Apply(w, a), home) <==> !Blind(w, home, a)
  {
  }

  /** A step that finds things right leaves them right exactly if it is not blind. */
  lemma StepBoots(w: World, home: Copy, a: Action)
    requires Kept(w, home) && WouldBootTarget(w, home) && Enabled(w, a)
    ensures WouldBootTarget(Apply(w, a), home) <==> !Blind(w, home, a)
  {
    match a
    case Advance(ok, version) =>
      if Installer(w.holder) {
        InstallStepBoots(w, home, ok, version);
      } else {
        VerifyStepBoots(w, home, ok, version);
      }
    case AdvanceRequest(ok, version) => RequestStepBoots(w, home, ok, version);
    case _ => OtherStepBoots(w, home, a);
  }

  lemma {:induction false} SelectedIffNeverBlind(w: World, home: Copy, run: seq<Action>)
    requires Kept(w, home) && WouldBootTarget(w, home) && Allowed(w, run) && NeverOverwrites(w, home, run)
    ensures AlwaysWouldBootTarget(w, home, run) <==> NeverBlind(w, home, run)
    decreases run
  {
    if run != [] {
      StepBoots(w, home, run[0]);
      if !Blind(w, home, run[0]) {
        StepKeeps(w, home, run[0]);
        SelectedIffNeverBlind(Apply(w, run[0]), home, run[1..]);
      }
    }
  }

  /**
   * Over every run in which the tool is not started over a copy that may be booted, a reboot that is asked for or
   * recorded would come up on the target throughout exactly when no step is blind to the selector or to the job.
   */
  lemma RebootsToTargetIffNeverBlind(w: World, home: Copy, run: seq<Action>)
    requires Init(w, home) && Allowed(w, run) && NeverOverwrites(w, home, run)
    ensures AlwaysWouldBootTarget(w, home, run) <==> NeverBlind(w, home, run)
  {
    InitKept(w, home);
    SelectedIffNeverBlind(w, home, run);
  }

  // ---------------------------------------------------------------------------------------------
  // Runs without cancellations, with reboots recorded in time.

  predicate SelectionInv(w: World, home: Copy) {
    && WouldBootTarget(w, home)
    && (w.holder.Selected? ==> w.selector == Other(home))
    && (Installer(w.holder) && !w.holder.Failing? ==> !Awaits(w.job.state) && w.rebooter.NotAsked?)
    && (w.job.state == Installed ==> w.rebooter.NotAsked?)
    && (w.request.NoRequest? || ForOpen(w.request))
  }

  lemma EarlyStepsSelect(w: World, home: Copy, ok: bool)
    requires HolderOk(w.holder, w.running, home) && SelectionInv(w, home) && Early(w.holder)
    ensures SelectionInv(InstallStep(w, ok), home)
  {
  }

  lemma StagedStepsSelect(w: World, home: Copy, ok: bool)
    requires HolderOk(w.holder, w.running, home) && SelectionInv(w, home) && Installer(w.holder) && !Early(w.holder)
    ensures SelectionInv(InstallStep(w, ok), home)
  {
  }

  lemma VerifyStepsSelect(w: World, home: Copy, ok: bool, version: string)
    requires HolderOk(w.holder, w.running, home) && SelectionInv(w, home) && Verifier(w.holder)
    requires !Blind(w, home, Advance(ok, version))
    ensures SelectionInv(VerifyStep(w, ok, version), home)
  {
  }

  lemma RequestStepsSelect(w: World, home: Copy, ok: bool, version: string)
    requires RequestOk(w.request, w.running, home) && SelectionInv(w, home) && !w.request.NoRequest?
    ensures SelectionInv(RequestStep(w, ok, version), home)
  {
  }

  lemma StartsSelect(w: World, home: Copy, a: Action)
    requires HolderOk(w.holder, w.running, home) && (Open(w.job.state) ==> w.rebooter.NotAsked?)
    requires SelectionInv(w, home) && Enabled(w, a)
    requires !a.Advance? && !a.AdvanceRequest? && a != StartRequest(Cancel) && !Blind(w, home, a)
    ensures SelectionInv(Apply(w, a), home)
  {
  }

  lemma StepSelects(w: World, home: Copy, a: Action)
    requires Inv(w, home) && SelectionInv(w, home) && Enabled(w, a) && a != StartRequest(Cancel) && !Blind(w, home, a)
    ensures SelectionInv(Apply(w, a), home)
  {
    match a
    case Advance(ok, version) =>
      if Early(w.holder) {
        EarlyStepsSelect(w, home, ok);
      } else if Installer(w.holder) {
        StagedStepsSelect(w, home, ok);
      } else {
        VerifyStepsSelect(w, home, ok, version);
      }
    case AdvanceRequest(ok, version) => RequestStepsSelect(w, home, ok, version);
    case _ => StartsSelect(w, home, a);
  }

  /** The reboot is recorded while the job on disk still asks for it. */
  predicate Punctual(w: World, run: seq<Action>)
    requires Allowed(w, run)
    decreases run
  {
    run == []
    || ((run[0] == AdvanceReboot(true) ==> w.job.state == AwaitingReboot) && Punctual(Apply(w, run[0]), run[1..]))
  }

  predicate NeverAsksUnselected(w: World, home: Copy, run: seq<Action>)
    requires Allowed(w, run)
    decreases run
  {
    run == [] || (!AsksUnselected(w, home, run[0]) && NeverAsksUnselected(Apply(w, run[0]), home, run[1..]))
  }

  /** A verify process at work has replaced the recorded reboot. */
  predicate Replaced(w: World) {
    w.holder.Judging? || w.holder.Passing? || w.holder.Rolling? || w.holder.Reverting? ==> !Awaits(w.job.state)
  }

  lemma HolderKeepsReplaced(w: World, home: Copy, ok: bool, version: string)
    requires HolderOk(w.holder, w.running, home) && Replaced(w) && !w.holder.Free?
    ensures Replaced(Apply(w, Advance(ok, version)))
  {
  }

  lemma RequestKeepsReplaced(w: World, home: Copy, ok: bool, version: string)
    requires RequestOk(w.request, w.running, home) && Replaced(w) && !w.request.NoRequest?
    ensures Replaced(RequestStep(w, ok, version))
  {
  }

  lemma StepKeepsReplaced(w: World, home: Copy, a: Action)
    requires HolderOk(w.holder, w.running, home) && RequestOk(w.request, w.running, home)
    requires Replaced(w) && Enabled(w, a)
    requires a == AdvanceReboot(true) ==> w.job.state == AwaitingReboot
    ensures Replaced(Apply(w, a))
  {
    match a
    case Advance(ok, version) => HolderKeepsReplaced(w, home, ok, version);
    case AdvanceRequest(ok, version) => RequestKeepsReplaced(w, home, ok, version);
    case _ =>
  }

  lemma {:induction false} BlindIffAsksUnselected(w: World, home: Copy, run: seq<Action>)
    requires Inv(w, home) && SelectionInv(w, home) && Replaced(w)
    requires Allowed(w, run) && StartRequest(Cancel) !in run && NeverReopens(w, home, run) && Punctual(w, run)
    ensures NeverBlind(w, home, run) <==> NeverAsksUnselected(w, home, run)
    decreases run
  {
    if run != [] {
      assert Blind(w, home, run[0]) <==> AsksUnselected(w, home, run[0]);
      if !Blind(w, home, run[0]) {
        StepKeepsInv(w, home, run[0]);
        StepSelects(w, home, run[0]);
        StepKeepsReplaced(w, home, run[0]);
        BlindIffAsksUnselected(Apply(w, run[0]), home, run[1..]);
      }
    }
  }

  /**
   * With reboots recorded in time, it is one step alone that decides: a reboot always comes up on the target exactly
   * when no verify process saves an installed job as awaiting a reboot while the old copy is selected.
   */
  lemma RebootsToTargetIff(w: World, home: Copy, run: seq<Action>)
    requires Init(w, home)
    requires Allowed(w, run) && StartRequest(Cancel) !in run && NeverReopens(w, home, run) && Punctual(w, run)
    ensures AlwaysWouldBootTarget(w, home, run) <==> NeverAsksUnselected(w, home, run)
  {
    UpgradeIsSafe(w, home, run);
    RebootsToTargetIffNeverBlind(w, home, run);
    InitInv(w, home);
    BlindIffAsksUnselected(w, home, run);
  }
}
