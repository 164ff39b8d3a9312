/** When the copies a device may boot stay whole: over every run, whatever requests save and whoever is started. */
module OsUpgradeIntact {
  import opened Options
  import opened OsUpgrade

  /** The selected and the running copy are completely written, and the copy that ran at the start is the old one. */
  predicate Intact(w: World, home: Copy) {
    && (w.selector == Other(home) || w.running == Other(home) ==> w.images.At(Other(home)) == Written)
    && w.images.At(home) == Old
  }

  predicate AlwaysIntact(w: World, home: Copy, run: seq<Action>)
    requires Allowed(w, run)
    decreases run
  {
    Intact(w, home) && (run != [] ==> AlwaysIntact(Apply(w, run[0]), home, run[1..]))
  }

  /** The install process starts the update tool although the new copy is selected or running. */
  predicate Overwrites(w: World, home: Copy, a: Action) {
    && a.Advance? && a.ok && w.holder.Rechecking? && w.holder.job.target.Some?
    && (w.selector == Other(home) || w.running == Other(home))
  }

  predicate NeverOverwrites(w: World, home: Copy, run: seq<Action>)
    requires Allowed(w, run)
    decreases run
  {
    run == [] || (!Overwrites(w, home, run[0]) && NeverOverwrites(Apply(w, run[0]), home, run[1..]))
  }

  // ---------------------------------------------------------------------------------------------
  // What every other step keeps.

  predicate Names(j: Job, home: Copy) {
    j.previous == Some(home) && j.target == Some(Other(home))
  }

  predicate HolderSound(h: Holder, running: Copy, home: Copy) {
    && (h.Checking? || h.Noting? || h.Backing? ==> Open(h.job.state))
    && (h.Noting? || h.Backing? || h.Opening? || h.Judging? || h.Passing? ==> h.current == running)
    && (h.Marking? || h.Rechecking? ==> h.job.state == Installing && Names(h.job, running))
    && (h.Writing? || h.Flashed? || h.SaveLost? ==> h.job.state == Installing && Names(h.job, home))
    && (h.Syncing? || h.Selecting? || h.Selected? ==> h.job.state == Installed && Names(h.job, home))
    && (h.Undoing? || Verifier(h) ==> Names(h.job, home))
    && (h.Closing? ==> h.job.state == Failed || h.job.state == AwaitingReboot)
    && (h.Opening? || h.Judging? ==> h.job.state == Verifying)
    && (h.Rolling? || h.Reverting? ==> h.job.state == Rollback)
    && (h.Passing? ==> h.job.target == Some(h.current) && VersionMatches(h.job.targetVersion, h.version))
  }

  predicate RequestSound(r: Request, home: Copy) {
    && (r.Receiving? || r.Stored? || r.Reviewing? || r.Vetting? || r.Approving? ==> Open(r.job.state))
    && (r.Claiming? || r.Requesting? || r.Launching? || r.Withdrawing? ==> Open(r.job.state))
    && (r.Unstaging? || r.Deactivating? ==> Names(r.job, home))
    && (r.Dropping? ==> r.job.state == Cancelled)
  }

  /** The image is written, or its record on disk says so. */
  predicate Done(w: World) {
    w.job.state == Installed || w.holder.Flashed? || w.holder.Syncing? || w.holder.Selecting? || w.holder.Selected?
  }

  predicate Kept(w: World, home: Copy) {
    && Intact(w, home)
    && HolderSound(w.holder, w.running, home) && RequestSound(w.request, home)
    && (w.rebooter.Asked? ==> Names(w.rebooter.job, home))
    && (Staged(w.job.state) ==> Names(w.job, home))
    && (Done(w) ==> w.images.At(Other(home)) == Written)
    && (w.holder.Writing? ==> w.selector == home && w.running == home)
    && (Early(w.holder) ==> w.job.state != Installed)
  }

  lemma InitKept(w: World, home: Copy)
    requires Init(w, home)
    ensures Kept(w, home)
  {
  }

  lemma CheckKeeps(w: World, home: Copy, ok: bool)
    requires Kept(w, home) && (w.holder.Checking? || w.holder.Noting? || w.holder.Backing?)
    ensures Kept(InstallStep(w, ok), home)
  {
  }

  lemma WriteKeeps(w: World, home: Copy, ok: bool)
    requires Kept(w, home) && (w.holder.Marking? || w.holder.Writing?)
    ensures Kept(InstallStep(w, ok), home)
  {
  }

  lemma RecheckKeeps(w: World, home: Copy, ok: bool)
    requires Kept(w, home) && w.holder.Rechecking? && !Overwrites(w, home, Advance(ok, ""))
    ensures Kept(InstallStep(w, ok), home)
  {
  }

  lemma StagedKeeps(w: World, home: Copy, ok: bool)
    requires Kept(w, home) && (w.holder.Syncing? || w.holder.Selecting? || w.holder.Selected?)
    ensures Kept(InstallStep(w, ok), home)
  {
  }

  lemma LateKeeps(w: World, home: Copy, ok: bool)
    requires Kept(w, home) && (w.holder.Flashed? || w.holder.SaveLost? || w.holder.Undoing? || w.holder.Failing?)
    ensures Kept(InstallStep(w, ok), home)
  {
  }

  lemma JudgeKeeps(w: World, home: Copy, ok: bool, version: string)
    requires Kept(w, home) && (w.holder.Opening? || w.holder.Judging? || w.holder.Passing?)
    ensures Kept(VerifyStep(w, ok, version), home)
  {
  }

  lemma CloseKeeps(w: World, home: Copy, ok: bool, version: string)
    requires Kept(w, home) && (w.holder.Rolling? || w.holder.Reverting? || w.holder.Closing?)
    ensures Kept(VerifyStep(w, ok, version), home)
  {
  }

  lemma HolderKeeps(w: World, home: Copy, ok: bool, version: string)
    requires Kept(w, home) && !w.holder.Free? && !Overwrites(w, home, Advance(ok, version))
    ensures Kept(Apply(w, Advance(ok, version)), home)
  {
    if w.holder.Checking? || w.holder.Noting? || w.holder.Backing? {
      CheckKeeps(w, home, ok);
    } else if w.holder.Rechecking? {
      RecheckKeeps(w, home, ok);
    } else if Early(w.holder) {
      WriteKeeps(w, home, ok);
    } else if w.holder.Syncing? || w.holder.Selecting? || w.holder.Selected? {
      StagedKeeps(w, home, ok);
    } else if Installer(w.holder) {
      LateKeeps(w, home, ok);
    } else if w.holder.Opening? || w.holder.Judging? || w.holder.Passing? {
      JudgeKeeps(w, home, ok, version);
    } else {
      CloseKeeps(w, home, ok, version);
    }
  }

  lemma ValidationKeeps(w: World, home: Copy, ok: bool, version: string)
    requires Kept(w, home)
    requires w.request.Receiving? || w.request.Stored? || w.request.Reviewing?
      || w.request.Vetting? || w.request.Approving?
    ensures Kept(RequestStep(w, ok, version), home)
  {
  }

  lemma InstallRequestKeeps(w: World, home: Copy, ok: bool, version: string)
    requires Kept(w, home)
    requires w.request.Claiming? || w.request.Requesting? || w.request.Launching? || w.request.Withdrawing?
    ensures Kept(RequestStep(w, ok, version), home)
  {
  }

  lemma UnstagingKeeps(w: World, home: Copy, ok: bool, version: string)
    requires Kept(w, home) && (w.request.Unstaging? || w.request.Deactivating?)
    ensures Kept(RequestStep(w, ok, version), home)
  {
  }

  lemma ClosingRequestKeeps(w: World, home: Copy, ok: bool, version: string)
    requires Kept(w, home) && (w.request.Rejecting? || w.request.Dropping? || w.request.Unlinking?)
    ensures Kept(RequestStep(w, ok, version), home)
  {
  }

  lemma RequestKeeps(w: World, home: Copy, ok: bool, version: string)
    requires Kept(w, home) && !w.request.NoRequest?
    ensures Kept(RequestStep(w, ok, version), home)
  {
    if w.request.Unstaging? || w.request.Deactivating? {
      UnstagingKeeps(w, home, ok, version);
    } else if w.request.Rejecting? || w.request.Dropping? || w.request.Unlinking? {
      ClosingRequestKeeps(w, home, ok, version);
    } else if w.request.Claiming? || w.request.Requesting? || w.request.Launching? || w.request.Withdrawing? {
      InstallRequestKeeps(w, home, ok, version);
    } else {
      ValidationKeeps(w, home, ok, version);
    }
  }

  lemma StartKeeps(w: World, home: Copy, a: Action)
    requires Kept(w, home) && Enabled(w, a) && (a.StartInstall? || a.StartVerify?)
    ensures Kept(Apply(w, a), home)
  {
  }

  lemma StartRequestKeeps(w: World, home: Copy, a: Action)
    requires Kept(w, home) && Enabled(w, a) && a.StartRequest?
    ensures Kept(Apply(w, a), home)
  {
  }

  lemma RebootKeeps(w: World, home: Copy, a: Action)
    requires Kept(w, home) && Enabled(w, a) && (a.StartReboot? || a.AdvanceReboot? || a.Progress?)
    ensures Kept(Apply(w, a), home)
  {
  }

  lemma KillKeeps(w: World, home: Copy, v: Victim)
    requires Kept(w, home)
    ensures Kept(Apply(w, Kill(v)), home)
  {
  }

  lemma PowerCycleKeeps(w: World, home: Copy)
    requires Kept(w, home)
    ensures Kept(Apply(w, PowerCycle), home)
  {
  }

  lemma StepKeeps(w: World, home: Copy, a: Action)
    requires Kept(w, home) && Enabled(w, a) && !Overwrites(w, home, a)
    ensures Kept(Apply(w, a), home)
  {
    match a
    case StartInstall(_) => StartKeeps(w, home, a);
    case StartVerify => StartKeeps(w, home, a);
    case Advance(ok, version) => HolderKeeps(w, home, ok, version);
    case StartRequest(_) => StartRequestKeeps(w, home, a);
    case AdvanceRequest(ok, version) => RequestKeeps(w, home, ok, version);
    case Kill(v) => KillKeeps(w, home, v);
    case PowerCycle => PowerCycleKeeps(w, home);
    case _ => RebootKeeps(w, home, a);
  }

  lemma OverwritesBreaks(w: World, home: Copy, a: Action)
    requires Enabled(w, a) && Overwrites(w, home, a)
    ensures !Intact(Apply(w, a), home)
  {
  }

  lemma {:induction false} KeptIffNeverOverwritten(w: World, home: Copy, run: seq<Action>)
    requires Kept(w, home) && Allowed(w, run)
    ensures AlwaysIntact(w, home, run) <==> NeverOverwrites(w, home, run)
    decreases run
  {
    if run != [] {
      if Overwrites(w, home, run[0]) {
        OverwritesBreaks(w, home, run[0]);
      } else {
        StepKeeps(w, home, run[0]);
        KeptIffNeverOverwritten(Apply(w, run[0]), home, run[1..]);
      }
    }
  }

  /**
   * Over every run from an open job, whatever is started, requested or saved: the copies a device may boot stay whole
   * throughout exactly when the install process never starts the update tool while the new copy is selected or running.
   */
  lemma IntactIffNeverOverwritten(w: World, home: Copy, run: seq<Action>)
    requires Init(w, home) && Allowed(w, run)
    ensures AlwaysIntact(w, home, run) <==> NeverOverwrites(w, home, run)
  {
    InitKept(w, home);
    KeptIffNeverOverwritten(w, home, run);
  }

  lemma {:induction false} RunKeeps(w: World, home: Copy, run: seq<Action>)
    requires Kept(w, home) && Allowed(w, run) && NeverOverwrites(w, home, run)
    ensures Kept(After(w, run), home)
    decreases run
  {
    if run != [] {
      StepKeeps(w, home, run[0]);
      RunKeeps(Apply(w, run[0]), home, run[1..]);
    }
  }
}
