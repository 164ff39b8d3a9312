/** A job that spoils what the one before it has left, as the services and requests of the device produce it. */
module OsUpgradeNextJob {
  import opened Options
  import opened OsUpgrade
  import opened OsUpgradeRuns
  import opened OsUpgradeRunner
  import opened OsUpgradeStaged
  import opened OsUpgradeScenarios
  import opened OsUpgradeJobs

  // ---------------------------------------------------------------------------------------------
  // Runs of one job as runs of the device.

  /** All that is under way works on job `i`, which is the active one, and nothing is about to change that. */
  predicate Owned(m: Machine, i: nat) {
    && i < |m.jobs| && m.active == Some(i)
    && (!m.holder.Free? ==> m.holds == i) && (m.rebooter.Asked? ==> m.reboots == i)
    && (!m.request.NoRequest? ==> m.asks == i && ForOpen(m.request))
  }

  function Lifted(run: seq<Action>): seq<Event> {
    if run == [] then [] else [Step(run[0])] + Lifted(run[1..])
  }

  lemma LiftRequest(m: Machine, i: nat, a: Action)
    requires Owned(m, i) && Enabled(View(m, i), a)
    requires a != StartRequest(Cancel) && (a.StartRequest? || a.AdvanceRequest?)
    ensures Possible(m, Step(a))
    ensures var m' := Next(m, Step(a)); Owned(m', i) && View(m', i) == Apply(View(m, i), a)
  {
  }

  lemma LiftLoss(m: Machine, i: nat, a: Action)
    requires Owned(m, i) && (a.Kill? || a.PowerCycle?)
    ensures var m' := Next(m, Step(a)); Owned(m', i) && View(m', i) == Apply(View(m, i), a)
  {
  }

  lemma LiftOther(m: Machine, i: nat, a: Action)
    requires Owned(m, i) && Enabled(View(m, i), a)
    requires !a.StartRequest? && !a.AdvanceRequest? && !a.Kill? && !a.PowerCycle? && !a.Advance?
    ensures Possible(m, Step(a))
    ensures var m' := Next(m, Step(a)); Owned(m', i) && View(m', i) == Apply(View(m, i), a)
  {
  }

  /** A step of the lock holder leaves to the others what is theirs. */
  lemma HolderLeaves(w: World, ok: bool, version: string)
    requires !w.holder.Free?
    ensures var w' := Apply(w, Advance(ok, version));
      w'.active == w.active && w'.rebooter == w.rebooter && w'.request == w.request
  {
  }

  lemma LiftAdvance(m: Machine, i: nat, a: Action)
    requires Owned(m, i) && Enabled(View(m, i), a) && a.Advance?
    ensures Possible(m, Step(a))
    ensures var m' := Next(m, Step(a)); Owned(m', i) && View(m', i) == Apply(View(m, i), a)
  {
    HolderLeaves(View(m, i), a.ok, a.version);
  }

  /** A run of the active job is one of the device. */
  lemma {:induction false} LiftRun(m: Machine, i: nat, run: seq<Action>)
    requires Owned(m, i) && Allowed(View(m, i), run) && StartRequest(Cancel) !in run
    ensures Happens(m, Lifted(run)) && AlwaysNamesActive(m, Lifted(run))
    ensures var m' := Later(m, Lifted(run)); Owned(m', i) && View(m', i) == After(View(m, i), run)
    decreases run
  {
    if run != [] {
      var a := run[0];
      if a.StartRequest? || a.AdvanceRequest? {
        LiftRequest(m, i, a);
      } else if a.Kill? || a.PowerCycle? {
        LiftLoss(m, i, a);
      } else if a.Advance? {
        LiftAdvance(m, i, a);
      } else {
        LiftOther(m, i, a);
      }
      LiftRun(Next(m, Step(a)), i, run[1..]);
      ConsHappens(m, Step(a), Lifted(run[1..]));
    }
  }

  lemma ConsHappens(m: Machine, e: Event, run: seq<Event>)
    requires Possible(m, e) && Happens(Next(m, e), run)
    ensures Happens(m, [e] + run) && Later(m, [e] + run) == Later(Next(m, e), run)
    ensures NamesActive(m, e) && AlwaysNamesActive(Next(m, e), run) ==> AlwaysNamesActive(m, [e] + run)
  {
    assert ([e] + run)[1..] == run;
  }

  lemma {:induction false} ConcatHappens(m: Machine, run: seq<Event>, more: seq<Event>)
    requires Happens(m, run) && Happens(Later(m, run), more)
    ensures Happens(m, run + more) && Later(m, run + more) == Later(Later(m, run), more)
    ensures AlwaysNamesActive(m, run) && AlwaysNamesActive(Later(m, run), more) ==> AlwaysNamesActive(m, run + more)
    decreases run
  {
    if run == [] {
      assert run + more == more;
    } else {
      assert (run + more)[1..] == run[1..] + more;
      ConcatHappens(Next(m, run[0]), run[1..], more);
    }
  }

  lemma {:induction false} WholeAtEnd(m: Machine, run: seq<Event>)
    requires Happens(m, run) && AlwaysWhole(m, run)
    ensures Whole(Later(m, run))
    decreases run
  {
    if run != [] {
      WholeAtEnd(Next(m, run[0]), run[1..]);
    }
  }

  /** Only services and requests act. */
  predicate ServicesOnly(run: seq<Event>) {
    Step(StartInstall(true)) !in run
  }

  lemma {:induction false} LiftServices(run: seq<Action>)
    requires ByServices(run)
    ensures ServicesOnly(Lifted(run))
  {
    if run != [] {
      LiftServices(run[1..]);
    }
  }

  // ---------------------------------------------------------------------------------------------
  // A rollback that is refused, and the next job.

  /** A staged upgrade is verified too early, and the old copy cannot be selected again: the job fails as it stands. */
  lemma RefusedVerification(w: World, home: Copy) returns (run: seq<Action>)
    requires Prepared(w, home)
    ensures Allowed(w, run) && ByServices(run) && StartRequest(Cancel) !in run
    ensures After(w, run) == w.(job := w.job.(state := Failed))
  {
    var go, refused := Advance(true, ""), Advance(false, "");
    var judged := JudgedTooEarly(w, home);
    NotStarted(judged, {StartVerify}, StartInstall(true));
    NotStarted(judged, {StartVerify}, StartRequest(Cancel));
    var rolling := After(w, judged);
    InTwo(Apply(rolling, go), refused, go);
    RunCons(rolling, go, [refused, go]);
    RunConcat(w, judged, [go] + [refused, go]);
    run := judged + ([go] + [refused, go]);
  }

  lemma RefusedRollback(w: World, home: Copy) returns (run: seq<Action>)
    requires Init(w, home) && w.job.state == Ready
    ensures Allowed(w, run) && ByServices(run) && StartRequest(Cancel) !in run
    ensures var end := After(w, run);
      && AtRest(end) && end.queued == w.queued && end.job.state == Failed
      && end.running == home && end.selector == Other(home)
  {
    var staging := Staging(w, home);
    var rest := RefusedVerification(After(w, staging), home);
    RunConcat(w, staging, rest);
    run := staging + rest;
  }

  /** A job is uploaded and validated. */
  lemma MadeReady(w: World) returns (run: seq<Action>)
    requires w.request == Receiving(NEW_JOB) && w.holder.Free? && w.rebooter.NotAsked?
    ensures Allowed(w, run) && ByServices(run) && StartRequest(Cancel) !in run
    ensures After(w, run) == w.(request := NoRequest, job := Job(Ready, Some(w.running), Some(Other(w.running)), ""))
  {
    var go := AdvanceRequest(true, "");
    var w1 := Apply(w, go);
    var w2 := Apply(w1, go);
    var w3 := Apply(w2, StartRequest(Validate));
    InTwo(Apply(w3, go), go, go);
    RunCons(w3, go, [go, go]);
    RunCons(w2, StartRequest(Validate), [go] + [go, go]);
    RunCons(w1, go, [StartRequest(Validate)] + ([go] + [go, go]));
    RunCons(w, go, [go] + ([StartRequest(Validate)] + ([go] + [go, go])));
    run := [go] + ([go] + ([StartRequest(Validate)] + ([go] + [go, go])));
  }

  /** The next job is installed while the target of the one before is selected, and a loss of power boots it. */
  lemma InstalledOver(w: World) returns (run: seq<Action>)
    requires w.request == Receiving(NEW_JOB) && w.holder.Free? && w.rebooter.NotAsked? && !w.queued
    requires w.selector == Other(w.running)
    ensures Allowed(w, run) && ByServices(run) && StartRequest(Cancel) !in run
    ensures After(w, run).running == w.selector && After(w, run).images.At(w.selector) == Partial
  {
    var uploading := MadeReady(w);
    var w1 := After(w, uploading);
    var asking := Requested(w1);
    var w2 := After(w1, asking);
    var ok := (n: nat) => true;
    var k := 5;
    WritingBegun(w2, w2.job, ok, k);
    var turns := TurnsIsRun(w2, ok, 0, k, "", false);
    InOne(After(w2, turns), PowerCycle);
    RunConcat(w2, turns, [PowerCycle]);
    RunConcat(w1, asking, turns + [PowerCycle]);
    RunConcat(w, uploading, asking + (turns + [PowerCycle]));
    run := uploading + (asking + (turns + [PowerCycle]));
  }

  /**
   * By services and requests alone: a job fails with its target selected, because the old copy could not be selected
   * again; the next job begins to overwrite that target, and a loss of power boots it.
   */
  lemma NextJobOverwrites(m: Machine, i: nat, home: Copy) returns (run: seq<Event>)
    requires Start(m) && Owned(m, i) && Init(View(m, i), home) && m.jobs[i].state == Ready
    ensures Happens(m, run) && ServicesOnly(run) && AlwaysNamesActive(m, run)
    ensures !NeverWritesOver(m, run) && Later(m, run).images.At(Later(m, run).running) == Partial
  {
    var first := RefusedRollback(View(m, i), home);
    LiftRun(m, i, first);
    LiftServices(first);
    var m1 := Later(m, Lifted(first));
    var n := |m1.jobs|;
    var m2 := Next(m1, Upload(true));
    var second := InstalledOver(View(m2, n));
    LiftRun(m2, n, second);
    LiftServices(second);
    ConsHappens(m1, Upload(true), Lifted(second));
    ConcatHappens(m, Lifted(first), [Upload(true)] + Lifted(second));
    run := Lifted(first) + ([Upload(true)] + Lifted(second));
    JobsIntactIff(m, run);
    if AlwaysWhole(m, run) {
      WholeAtEnd(m, run);
    }
  }
}
