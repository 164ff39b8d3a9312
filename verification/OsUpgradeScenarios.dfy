/** Runs of the upgrade that the design does not want, as the services and requests of the device produce them. */
module OsUpgradeScenarios {
  import opened Options
  import opened OsUpgrade
  import opened OsUpgradeIntact
  import opened OsUpgradeRuns
  import opened OsUpgradeRunner
  import opened OsUpgradeSelection
  import opened OsUpgradeStaged

  /** Only services and requests act. */
  predicate ByServices(run: seq<Action>) {
    StartInstall(true) !in run
  }

  /** An install request goes through: the job is marked and the install service has taken it up. */
  lemma Requested(w: World) returns (run: seq<Action>)
    requires AtRest(w) && !w.queued && w.job.state == Ready
    ensures Allowed(w, run) && ByServices(run) && StartRequest(Cancel) !in run
    ensures var j := w.job.(state := Installing);
      After(w, run) == w.(active := true, job := j, holder := Checking(j))
  {
    var go := AdvanceRequest(true, "");
    var w1 := Apply(w, StartRequest(Install));
    var w2 := Apply(w1, go);
    var w3 := Apply(w2, go);
    InTwo(w3, go, StartInstall(false));
    RunCons(w2, go, [go, StartInstall(false)]);
    RunCons(w1, go, [go] + [go, StartInstall(false)]);
    RunCons(w, StartRequest(Install), [go] + ([go] + [go, StartInstall(false)]));
    run := [StartRequest(Install)] + ([go] + ([go] + [go, StartInstall(false)]));
  }

  /** The install process at the start of its work, cut off when it has just begun to write the target. */
  lemma WritingBegun(w: World, j: Job, ok: nat -> bool, k: nat)
    requires w.holder == Checking(j) && k == 5 && forall n: nat :: ok(n)
    ensures var m := j.(state := Installing, previous := Some(w.running), target := Some(Other(w.running)));
      Turns(w, ok, 0, k, "", false)
      == w.(job := m, images := w.images.With(Other(w.running), Partial), holder := Writing(m))
  {
    var m := j.(state := Installing, previous := Some(w.running), target := Some(Other(w.running)));
    CheckTurns(w, j, ok, 0, k);
    MarkTurns(w.(job := j, holder := Marking(m)), m, ok, 3, k - 3);
  }

  // ---------------------------------------------------------------------------------------------
  // A target that is written and not selected.

  /** The state an installation is in when power is lost between recording the written image and selecting it. */
  function Unselected(w: World, home: Copy): World {
    w.(active := true, job := w.job.(state := Installed, previous := Some(home), target := Some(Other(home))),
       images := w.images.With(Other(home), Written))
  }

  lemma UnselectedIsReached(w: World, home: Copy) returns (run: seq<Action>)
    requires Init(w, home) && w.job.state == Ready
    ensures Allowed(w, run) && ByServices(run) && StartRequest(Cancel) !in run
    ensures After(w, run) == Unselected(w, home)
  {
    var j := w.job.(state := Installing);
    var started := w.(active := true, job := j, holder := Checking(j));
    var ok := (n: nat) => true;
    var before := Requested(w);
    var k := 7;
    var turns := TurnsIsRun(started, ok, 0, k, "", false);
    InstallTurns(started, j, ok, 0, k);
    InOne(After(started, turns), PowerCycle);
    RunConcat(started, turns, [PowerCycle]);
    RunConcat(w, before, turns + [PowerCycle]);
    run := before + (turns + [PowerCycle]);
  }

  /**
   * From there the verification of the next boot takes the step that `RebootsToTargetIff` names: it asks for a reboot
   * without selecting the target. The reboot comes up on the old copy, and the next verification rolls back.
   */
  lemma UnselectedTarget(w: World, home: Copy, ok: nat -> bool, version: string, verdict: bool)
    requires Init(w, home) && w.job.state == Ready && forall n: nat :: ok(n)
    ensures AsksUnselected(Apply(Unselected(w, home), StartVerify), home, Advance(true, version))
    ensures var asked := AfterVerify(Unselected(w, home), ok, version, verdict);
      && asked.job.state == AwaitingReboot && asked.selector == home
      && AfterVerify(AfterReboot(asked), ok, version, verdict).job.state == Rollback
  {
    var cut := Unselected(w, home);
    NextTurn(cut.(holder := Closing(cut.job.(state := AwaitingReboot))), ok, 0, version, verdict);
    var asked := AfterVerify(cut, ok, version, verdict);
    VerifyDecides(AfterReboot(asked), ok, version, verdict);
  }

  /** An install process that resumes the job before the verification selects the target, and the reboot runs it. */
  lemma ResumedInstallSelects(w: World, home: Copy, ok: nat -> bool)
    requires Init(w, home) && w.job.state == Ready && forall n: nat :: ok(n)
    ensures var resumed := AfterInstall(Unselected(w, home), ok);
      && resumed.job.state == AwaitingReboot && resumed.selector == Other(home)
      && AfterReboot(resumed).running == Other(home) && AfterReboot(resumed).images.At(Other(home)) == Written
  {
    var cut := Unselected(w, home);
    SelectWorks(cut, cut.job, true, 0, ok);
  }

  // ---------------------------------------------------------------------------------------------
  // A cancellation that is lost.

  /** An installation requested and run to its end. */
  lemma Staging(w: World, home: Copy) returns (run: seq<Action>)
    requires Init(w, home) && w.job.state == Ready
    ensures Allowed(w, run) && ByServices(run) && StartRequest(Cancel) !in run
    ensures After(w, run) == w.(active := true,
      job := w.job.(state := AwaitingReboot, previous := Some(home), target := Some(Other(home))),
      selector := Other(home), images := w.images.With(Other(home), Written))
  {
    var j := w.job.(state := Installing);
    var marked := w.(active := true, job := j);
    var started := marked.(holder := Checking(j));
    var ok := (n: nat) => true;
    var before := Requested(w);
    InstallWorks(marked, ok);
    FinishIsTurns(started, ok, 0, 13, "", false);
    var turns := TurnsIsRun(started, ok, 0, 13, "", false);
    RunConcat(w, before, turns);
    run := before + turns;
  }

  /** A staged job is cancelled while the reboot service has read it and not yet saved it. */
  lemma CancelledMeanwhile(w: World, home: Copy) returns (run: seq<Action>)
    requires AtRest(w) && w.active && w.job.state == AwaitingReboot && w.job.previous == Some(home)
    ensures Allowed(w, run) && ByServices(run)
    ensures After(w, run) == w.(
      job := w.job.(state := Cancelled), selector := home, rebooter := Asked(w.job), request := Unlinking)
  {
    var go := AdvanceRequest(true, "");
    var w1 := Apply(w, StartReboot);
    var w2 := Apply(w1, StartRequest(Cancel));
    InTwo(Apply(w2, go), go, go);
    RunCons(w2, go, [go, go]);
    RunCons(w1, StartRequest(Cancel), [go] + [go, go]);
    RunCons(w, StartReboot, [StartRequest(Cancel)] + ([go] + [go, go]));
    run := [StartReboot] + ([StartRequest(Cancel)] + ([go] + [go, go]));
  }

  /**
   * A cancellation between the two steps of the reboot service is lost: the job is cancelled and the old copy
   * selected, and then the reboot is recorded over it.
   */
  lemma LostCancel(w: World, home: Copy) returns (run: seq<Action>, more: seq<Action>)
    requires Init(w, home) && w.job.state == Ready
    ensures Allowed(w, run) && ByServices(run)
    ensures After(w, run).job.state == Cancelled && After(w, run).selector == home
    ensures Allowed(After(w, run), more) && ByServices(more)
    ensures After(After(w, run), more).job.state == Rebooting && After(After(w, run), more).selector == home
  {
    var staging := Staging(w, home);
    var cancelling := CancelledMeanwhile(After(w, staging), home);
    RunConcat(w, staging, cancelling);
    run := staging + cancelling;
    more := [AdvanceReboot(true)];
    InOne(After(w, run), AdvanceReboot(true));
  }

  // ---------------------------------------------------------------------------------------------
  // A verification before the reboot.

  /**
   * The API process is restarted while the upgrade waits for its reboot, and verifies it. The reboot comes up on the
   * old copy, and the job fails although the target is whole and was never tried.
   */
  lemma RestartUndoesUpgrade(w: World, home: Copy) returns (run: seq<Action>)
    requires Init(w, home) && w.job.state == Ready
    ensures Allowed(w, run) && ByServices(run) && StartRequest(Cancel) !in run
    ensures var end := After(w, run);
      end.job.state == Failed && end.selector == home && end.running == home && end.images.At(Other(home)) == Written
  {
    var staging := Staging(w, home);
    var rest := UndoneBeforeReboot(After(w, staging), home);
    RunConcat(w, staging, rest);
    run := staging + rest;
  }

  lemma UndoneBeforeReboot(w: World, home: Copy) returns (run: seq<Action>)
    requires Prepared(w, home)
    ensures Allowed(w, run) && ByServices(run) && StartRequest(Cancel) !in run
    ensures var end := After(w, run);
      end.job.state == Failed && end.selector == home && end.running == home && end.images == w.images
  {
    var early := VerifiedTooEarly(w, home);
    NotStarted(early, {StartVerify}, StartRequest(Cancel));
    NotStarted(early, {StartVerify}, StartInstall(true));
    var back := After(w, early);
    InTwo(Apply(back, PowerCycle), StartVerify, Advance(true, ""));
    RunCons(back, PowerCycle, [StartVerify, Advance(true, "")]);
    RunConcat(w, early, [PowerCycle] + [StartVerify, Advance(true, "")]);
    run := early + ([PowerCycle] + [StartVerify, Advance(true, "")]);
  }

  // ---------------------------------------------------------------------------------------------
  // A job that is opened again.

  /** The install process, started by hand, overtakes the request that has marked the job. */
  lemma Overtaken(w: World, home: Copy) returns (run: seq<Action>)
    requires Init(w, home) && w.job.state == Ready
    ensures Allowed(w, run)
    ensures After(w, run) == w.(active := true,
      job := w.job.(state := AwaitingReboot, previous := Some(home), target := Some(Other(home))),
      selector := Other(home), images := w.images.With(Other(home), Written),
      request := Launching(w.job.(state := Installing)))
  {
    var go := AdvanceRequest(true, "");
    var j := w.job.(state := Installing);
    var marked := w.(active := true, job := j, request := Launching(j));
    var started := marked.(holder := Checking(j));
    var w1 := Apply(w, StartRequest(Install));
    InTwo(Apply(w1, go), go, StartInstall(true));
    RunCons(w1, go, [go, StartInstall(true)]);
    RunCons(w, StartRequest(Install), [go] + [go, StartInstall(true)]);
    var before := [StartRequest(Install)] + ([go] + [go, StartInstall(true)]);
    assert After(w, before) == started;
    var ok := (n: nat) => true;
    InstallWorks(marked, ok);
    FinishIsTurns(started, ok, 0, 13, "", false);
    var turns := TurnsIsRun(started, ok, 0, 13, "", false);
    RunConcat(w, before, turns);
    run := before + turns;
  }

  /**
   * The overtaken request finds that it cannot start the service and marks the staged job as ready again. The next
   * installation begins to overwrite the selected copy, and a loss of power boots it.
   */
  lemma ReopenedJob(w: World, home: Copy) returns (run: seq<Action>)
    requires Init(w, home) && w.job.state == Ready
    ensures Allowed(w, run) && !NeverReopens(w, home, run) && !NeverOverwrites(w, home, run)
    ensures After(w, run).running == Other(home) && After(w, run).images.At(Other(home)) == Partial
  {
    var before := Overtaken(w, home);
    var w1 := After(w, before);
    var withdrawn := [AdvanceRequest(false, "")] + [AdvanceRequest(true, ""), StartInstall(true)];
    var w2 := Apply(w1, AdvanceRequest(false, ""));
    InTwo(w2, AdvanceRequest(true, ""), StartInstall(true));
    RunCons(w1, AdvanceRequest(false, ""), [AdvanceRequest(true, ""), StartInstall(true)]);
    var started := After(w1, withdrawn);
    var ok := (n: nat) => true;
    var k := 5;
    WritingBegun(started, started.job, ok, k);
    var turns := TurnsIsRun(started, ok, 0, k, "", false);
    InOne(After(started, turns), PowerCycle);
    RunConcat(started, turns, [PowerCycle]);
    RunConcat(w1, withdrawn, turns + [PowerCycle]);
    RunConcat(w, before, withdrawn + (turns + [PowerCycle]));
    run := before + (withdrawn + (turns + [PowerCycle]));
    UpgradeIsSafe(w, home, run);
  }
}
