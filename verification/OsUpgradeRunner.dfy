/**
 * The upgrade runner's operations as they are written, effect by effect, on the state they change. Each one, left
 * alone, takes the device exactly where the machine of `OsUpgrade` takes it, so what that machine keeps holds
 * after every single effect, also when power is lost there.
 */
module OsUpgradeRunner {
  import opened Options
  import opened OsUpgrade
  import opened OsUpgradeRuns
  import HealthWait

  function Rank(h: Holder): nat {
    match h
    case Free => 0
    case Checking(_) => 13
    case Noting(_, _) => 12
    case Backing(_, _) => 11
    case Marking(_) => 10
    case Rechecking(_) => 9
    case Writing(_) => 8
    case Flashed(_) => 7
    case Syncing(_, _) => 6
    case Selecting(_) => 5
    case Selected(_) => 4
    case SaveLost(_) => 3
    case Undoing(_) => 3
    case Failing(_) => 1
    case Opening(_, _) => 6
    case Judging(_, _) => 5
    case Passing(_, _, _) => 4
    case Rolling(_) => 4
    case Reverting(_) => 3
    case Closing(_) => 1
  }

  /**
   * The lock holder runs to its end with nobody in between: effect number `n` and later ones succeed as `ok`
   * says, `version` is what the booted system reports, and `verdict` what restore and health checks say.
   */
  function Finish(w: World, ok: nat -> bool, n: nat, version: string, verdict: bool): World
    decreases Rank(w.holder)
  {
    if w.holder.Free? then w
    else Finish(Apply(w, Advance(if w.holder.Judging? then verdict else ok(n), version)), ok, n + 1, version, verdict)
  }

  function Turn(w: World, ok: nat -> bool, n: nat, version: string, verdict: bool): World
    requires !w.holder.Free?
  {
    Apply(w, Advance(if w.holder.Judging? then verdict else ok(n), version))
  }

  /** The lock holder runs for at most `k` effects and stops there. */
  function Turns(w: World, ok: nat -> bool, n: nat, k: nat, version: string, verdict: bool): World
    decreases k
  {
    if k == 0 || w.holder.Free? then w
    else Turns(Turn(w, ok, n, version, verdict), ok, n + 1, k - 1, version, verdict)
  }

  /** The next effect may be the last one. */
  lemma NextTurn(w: World, ok: nat -> bool, n: nat, version: string, verdict: bool)
    requires !w.holder.Free?
    ensures var w' := Turn(w, ok, n, version, verdict);
      Finish(w, ok, n, version, verdict) == if w'.holder.Free? then w' else Finish(w', ok, n + 1, version, verdict)
  {
  }

  /** Running alone, up to any point, is a run of the machine. */
  lemma {:induction false} TurnsIsRun(w: World, ok: nat -> bool, n: nat, k: nat, version: string, verdict: bool)
      returns (run: seq<Action>)
    ensures Allowed(w, run) && After(w, run) == Turns(w, ok, n, k, version, verdict)
    ensures forall a :: a in run ==> a.Advance?
    decreases k
  {
    if k == 0 || w.holder.Free? {
      run := [];
    } else {
      var a := Advance(if w.holder.Judging? then verdict else ok(n), version);
      var rest := TurnsIsRun(Apply(w, a), ok, n + 1, k - 1, version, verdict);
      RunCons(w, a, rest);
      run := [a] + rest;
    }
  }

  /** Every operation ends after a bounded number of effects. */
  lemma {:induction false} FinishIsTurns(w: World, ok: nat -> bool, n: nat, k: nat, version: string, verdict: bool)
    requires Rank(w.holder) <= k
    ensures Finish(w, ok, n, version, verdict) == Turns(w, ok, n, k, version, verdict)
    decreases k
  {
    if !w.holder.Free? {
      var w' := Turn(w, ok, n, version, verdict);
      TurnDrops(w, ok, n, version, verdict);
      FinishIsTurns(w', ok, n + 1, k - 1, version, verdict);
      assert Finish(w, ok, n, version, verdict) == Finish(w', ok, n + 1, version, verdict);
      assert Turns(w, ok, n, k, version, verdict) == Turns(w', ok, n + 1, k - 1, version, verdict);
    }
  }

  lemma TurnDrops(w: World, ok: nat -> bool, n: nat, version: string, verdict: bool)
    requires !w.holder.Free?
    ensures Rank(Turn(w, ok, n, version, verdict).holder) < Rank(w.holder)
  {
  }

  /** An operation cut off after any number of effects, by the death of its process or of the device, keeps `Inv`. */
  lemma {:induction false} CutKeepsInv(
      w: World, home: Copy, ok: nat -> bool, n: nat, k: nat, version: string, verdict: bool)
    requires Inv(w, home)
    ensures var cut := Turns(w, ok, n, k, version, verdict);
      Inv(cut, home) && Inv(Apply(cut, Kill(TheHolder)), home) && Inv(Apply(cut, PowerCycle), home)
    decreases k
  {
    if k == 0 || w.holder.Free? {
      DeathKeepsInv(w, home, TheHolder);
      BootKeepsInv(w, home);
    } else {
      HolderStepKeepsInv(w, home, if w.holder.Judging? then verdict else ok(n), version);
      CutKeepsInv(Turn(w, ok, n, version, verdict), home, ok, n + 1, k - 1, version, verdict);
    }
  }

  /** An operation that runs to its end keeps `Inv`. */
  lemma FinishKeepsInv(w: World, home: Copy, ok: nat -> bool, version: string, verdict: bool)
    requires Inv(w, home)
    ensures Inv(Finish(w, ok, 0, version, verdict), home)
  {
    FinishIsTurns(w, ok, 0, Rank(w.holder), version, verdict);
    CutKeepsInv(w, home, ok, 0, Rank(w.holder), version, verdict);
  }

  function AfterInstall(w: World, ok: nat -> bool): World {
    Finish(w.(holder := InstallStart(w.job)), ok, 0, "", false)
  }

  function AfterVerify(w: World, ok: nat -> bool, version: string, verdict: bool): World {
    Finish(w.(holder := VerifyStart(w.job, w.running)), ok, 0, version, verdict)
  }

  /** Whichever copy was running at the start, the invariant is kept. */
  predicate Keeps(before: World, after: World) {
    forall home :: Inv(before, home) ==> Inv(after, home)
  }

  /** Installing whatever job is on disk, run to its end, keeps `Inv`. */
  lemma InstallKeepsInv(w: World, ok: nat -> bool)
    requires w.holder.Free?
    ensures Keeps(w, AfterInstall(w, ok))
  {
    forall home | Inv(w, home)
      ensures Inv(AfterInstall(w, ok), home)
    {
      StartKeepsInv(w, home);
      var started := w.(holder := InstallStart(w.job), queued := w.queued);
      assert started == w.(holder := InstallStart(w.job));
      FinishKeepsInv(started, home, ok, "", false);
    }
  }

  /** Verifying whatever job is on disk, run to its end, keeps `Inv`. */
  lemma VerifyKeepsInv(w: World, ok: nat -> bool, version: string, verdict: bool)
    requires w.holder.Free?
    ensures Keeps(w, AfterVerify(w, ok, version, verdict))
  {
    forall home | Inv(w, home)
      ensures Inv(AfterVerify(w, ok, version, verdict), home)
    {
      StartKeepsInv(w, home);
      FinishKeepsInv(w.(holder := VerifyStart(w.job, w.running)), home, ok, version, verdict);
    }
  }

  /** What restore and health checks say: an application that does not fit the new system is not waited for. */
  ghost predicate Verdict(restored: bool, compatible: bool, s: HealthWait.Surroundings, required: nat) {
    restored
    && (compatible ==> exists k: nat :: HealthWait.StopsIn(s, k, required) && HealthWait.Stable(s, k, required))
  }

  lemma SyncTurn(w: World, j: Job, resumed: bool, ok: nat -> bool, n: nat)
    requires w.holder == Syncing(j, resumed)
    ensures var next := if ok(n) then Selecting(j) else if resumed then Failing(j) else Undoing(j);
      Finish(w, ok, n, "", false) == Finish(w.(holder := next), ok, n + 1, "", false)
  {
    NextTurn(w, ok, n, "", false);
  }

  lemma SelectTurn(w: World, j: Job, ok: nat -> bool, n: nat)
    requires w.holder == Selecting(j)
    ensures var next := if ok(n) then Selected(j) else Undoing(j);
      Finish(w, ok, n, "", false) == Finish(Select(w, j.target, ok(n)).(holder := next), ok, n + 1, "", false)
  {
    NextTurn(w, ok, n, "", false);
  }

  lemma UndoTurn(w: World, j: Job, ok: nat -> bool, n: nat)
    requires w.holder == Undoing(j)
    ensures Finish(w, ok, n, "", false)
      == Finish(Select(w, j.previous, ok(n)).(holder := Failing(j)), ok, n + 1, "", false)
  {
    NextTurn(w, ok, n, "", false);
  }

  class Device {
    var job: Job
    var active: bool
    var selector: Copy
    var running: Copy
    var images: Images
    var queued: bool

    ghost function At(h: Holder): World
      reads this
    {
      World(job, active, selector, running, images, queued, h, NotAsked, NoRequest)
    }

    method SaveJob(j: Job, ok: bool)
      modifies `job
      ensures job == if ok then j else old(job)
    {
      if ok {
        job := j;
      }
    }

    method SetCopy(c: Option<Copy>, ok: bool)
      modifies `selector
      ensures selector == if ok && c.Some? then c.value else old(selector)
    {
      if ok && c.Some? {
        selector := c.value;
      }
    }

    method Fail(j: Job, ok: nat -> bool, n: nat, version: string, ghost verdict: bool)
      modifies `job
      ensures At(Free) == old(Finish(At(Failing(j)), ok, n, version, verdict))
    {
      SaveJob(j.(state := Failed), ok(n));
    }

    /** Both error exits after the image was touched: select the previous copy, then record the failure. */
    method UndoAndFail(j: Job, ok: nat -> bool, n: nat)
      modifies `job, `selector
      ensures At(Free) == old(Finish(At(Undoing(j)), ok, n, "", false))
    {
      UndoTurn(At(Undoing(j)), j, ok, n);
      SetCopy(j.previous, ok(n));
      Fail(j, ok, n + 1, "", false);
    }

    method Install(ok: nat -> bool)
      requires active
      modifies this
      ensures At(Free) == old(AfterInstall(At(Free), ok))
      ensures Keeps(old(At(Free)), At(Free))
    {
      InstallKeepsInv(At(Free), ok);
      var j := job;
      if j.state == Installed {
        SyncAndSelect(j, true, ok, 0);
        return;
      }
      if j.state != Ready && j.state != Installing {
        return;
      }
      CheckAndWrite(j, ok);
    }

    /** The checks and preparations before the target is touched. */
    method CheckAndWrite(j: Job, ok: nat -> bool)
      modifies this
      ensures At(Free) == old(Finish(At(Checking(j)), ok, 0, "", false))
    {
      NextTurn(At(Checking(j)), ok, 0, "", false);
      if !ok(0) {
        Fail(j, ok, 1, "", false);
        return;
      }
      NoteAndWrite(j, running, ok);
    }

    method NoteAndWrite(j: Job, current: Copy, ok: nat -> bool)
      modifies this
      ensures At(Free) == old(Finish(At(Noting(j, current)), ok, 1, "", false))
    {
      NextTurn(At(Noting(j, current)), ok, 1, "", false);
      if !ok(1) {
        return;
      }
      SaveJob(j, true);
      NextTurn(At(Backing(j, current)), ok, 2, "", false);
      if !ok(2) {
        Fail(j, ok, 3, "", false);
        return;
      }
      WriteTarget(j.(state := Installing, previous := Some(current), target := Some(Other(current))), ok);
    }

    /** From saving the job as installing to the image being written. */
    method WriteTarget(j: Job, ok: nat -> bool)
      requires j.target.Some?
      modifies this
      ensures At(Free) == old(Finish(At(Marking(j)), ok, 3, "", false))
    {
      NextTurn(At(Marking(j)), ok, 3, "", false);
      if !ok(3) {
        return;
      }
      SaveJob(j, true);
      RecheckAndWrite(j, ok);
    }

    method RecheckAndWrite(j: Job, ok: nat -> bool)
      requires j.target.Some?
      modifies this
      ensures At(Free) == old(Finish(At(Rechecking(j)), ok, 4, "", false))
    {
      NextTurn(At(Rechecking(j)), ok, 4, "", false);
      if !ok(4) {
        Fail(j, ok, 5, "", false);
        return;
      }
      images := images.With(j.target.value, Partial);
      RunSwupdate(j, ok);
    }

    /** The update tool at work on the target, whose image is no longer whole. */
    method RunSwupdate(j: Job, ok: nat -> bool)
      requires j.target.Some?
      modifies this
      ensures At(Free) == old(Finish(At(Writing(j)), ok, 5, "", false))
    {
      NextTurn(At(Writing(j)), ok, 5, "", false);
      if !ok(5) {
        UndoAndFail(j, ok, 6);
        return;
      }
      images := images.With(j.target.value, Written);
      Conclude(j, ok);
    }

    /** From the written image to the saved job. */
    method Conclude(j: Job, ok: nat -> bool)
      modifies `job, `selector
      ensures At(Free) == old(Finish(At(Flashed(j)), ok, 6, "", false))
    {
      NextTurn(At(Flashed(j)), ok, 6, "", false);
      if !ok(6) {
        NextTurn(At(SaveLost(j)), ok, 7, "", false);
        SetCopy(j.previous, ok(7));
        return;
      }
      var j' := j.(state := Installed);
      SaveJob(j', true);
      SyncAndSelect(j', false, ok, 7);
    }

    /** Flush, point the selector at the target, and wait for the reboot. */
    method SyncAndSelect(j: Job, resumed: bool, ok: nat -> bool, n: nat)
      modifies `job, `selector
      ensures At(Free) == old(Finish(At(Syncing(j, resumed)), ok, n, "", false))
    {
      SyncTurn(At(Syncing(j, resumed)), j, resumed, ok, n);
      if !ok(n) {
        if resumed {
          Fail(j, ok, n + 1, "", false);
        } else {
          UndoAndFail(j, ok, n + 1);
        }
        return;
      }
      SelectTarget(j, ok, n + 1);
    }

    method SelectTarget(j: Job, ok: nat -> bool, n: nat)
      modifies `job, `selector
      ensures At(Free) == old(Finish(At(Selecting(j)), ok, n, "", false))
    {
      SelectTurn(At(Selecting(j)), j, ok, n);
      SetCopy(j.target, ok(n));
      if !ok(n) {
        UndoAndFail(j, ok, n + 1);
        return;
      }
      AwaitReboot(j, ok, n + 1);
    }

    method AwaitReboot(j: Job, ok: nat -> bool, n: nat)
      modifies `job
      ensures At(Free) == old(Finish(At(Selected(j)), ok, n, "", false))
    {
      NextTurn(At(Selected(j)), ok, n, "", false);
      SaveJob(j.(state := AwaitingReboot), ok(n));
    }

    /** Records the reboot; the power cycle itself comes after it. */
    method Reboot(saved: bool) returns (accepted: bool)
      requires active
      modifies `job
      ensures accepted == (old(job).state == AwaitingReboot)
      ensures job == if accepted && saved then old(job).(state := Rebooting) else old(job)
    {
      if job.state != AwaitingReboot {
        return false;
      }
      accepted := true;
      SaveJob(job.(state := Rebooting), saved);
    }

    /** The install request marks a ready job and starts the install service, or takes the mark back if it cannot. */
    method RequestInstall(ok: nat -> bool) returns (started: bool)
      modifies `job, `active, `queued
      ensures started == (old(job).state == Ready && ok(0) && ok(1) && ok(2))
      ensures queued == (old(queued) || started)
      ensures active == (old(active) || (old(job).state == Ready && ok(0)))
      ensures job == if old(job).state == Ready && ok(0) && ok(1) && (ok(2) || !ok(3))
                     then old(job).(state := Installing) else old(job)
    {
      started := false;
      if job.state != Ready || !ok(0) {
        return;
      }
      active := true;
      var j := job.(state := Installing);
      SaveJob(j, ok(1));
      if !ok(1) {
        return;
      }
      if !ok(2) {
        SaveJob(j.(state := Ready), ok(3));
        return;
      }
      started := true;
      queued := true;
    }

    /** The cancel request: a staged upgrade is unstaged first. */
    method Cancel(ok: nat -> bool) returns (done: bool)
      modifies this
      ensures done == (ok(2) && (old(job).state in {Uploading, Validating, Ready, Failed}
                                 || (old(job).state == AwaitingReboot && ok(0) && ok(1))))
      ensures job == if done then old(job).(state := Cancelled) else old(job)
      ensures active == (old(active) && !done)
      ensures selector == if old(job).state == AwaitingReboot && ok(0) && old(job).previous.Some?
                          then old(job).previous.value else old(selector)
      ensures running == old(running) && images == old(images)
    {
      done := false;
      var j := job;
      if j.state == AwaitingReboot {
        SetCopy(j.previous, ok(0));
        if !ok(0) || !ok(1) {
          return;
        }
      } else if j.state !in {Uploading, Validating, Ready, Failed} {
        return;
      }
      SaveJob(j.(state := Cancelled), ok(2));
      if ok(2) {
        done := true;
        active := false;
      }
    }

    method Verify(ok: nat -> bool, version: string, restored: bool, compatible: bool,
        s: HealthWait.Surroundings, required: nat)
      requires active && HealthWait.TimePasses(s)
      modifies this
      ensures At(Free) == old(AfterVerify(At(Free), ok, version, Verdict(restored, compatible, s, required)))
      ensures Keeps(old(At(Free)), At(Free))
    {
      ghost var verdict := Verdict(restored, compatible, s, required);
      VerifyKeepsInv(At(Free), ok, version, verdict);
      var j := job;
      var current := running;
      if j.state == Rollback && j.previous == Some(current) {
        j := j.(state := Failed);
        NextTurn(At(Closing(j)), ok, 0, version, verdict);
        SaveJob(j, ok(0));
        return;
      }
      if j.state == Installed && j.previous == Some(current) {
        j := j.(state := AwaitingReboot);
        NextTurn(At(Closing(j)), ok, 0, version, verdict);
        SaveJob(j, ok(0));
        return;
      }
      if j.state != Rebooting && j.state != AwaitingReboot && j.state != Verifying {
        if j.state != Installed || j.target != Some(current) {
          return;
        }
      }
      j := j.(state := Verifying);
      NextTurn(At(Opening(j, current)), ok, 0, version, verdict);
      if !ok(0) {
        return;
      }
      SaveJob(j, true);
      Judge(j, current, ok, version, restored, compatible, s, required);
    }

    /** From the saved verifying job to success or rollback. */
    method Judge(j: Job, current: Copy, ok: nat -> bool, version: string, restored: bool, compatible: bool,
        s: HealthWait.Surroundings, required: nat)
      requires HealthWait.TimePasses(s)
      modifies `job, `selector
      ensures At(Free) ==
        old(Finish(At(Judging(j, current)), ok, 1, version, Verdict(restored, compatible, s, required)))
    {
      ghost var verdict := Verdict(restored, compatible, s, required);
      NextTurn(At(Judging(j, current)), ok, 1, version, verdict);
      var passed := j.target == Some(current) && VersionMatches(j.targetVersion, version) && restored;
      if passed && compatible {
        var round: nat;
        passed, round := HealthWait.AwaitHealth(s, required);
        OneStop(s, round, required);
      }
      if !passed {
        RollBack(j, ok, version, verdict);
        return;
      }
      NextTurn(At(Passing(j, current, version)), ok, 2, version, verdict);
      SaveJob(j.(state := Success), ok(2));
    }

    /** Records the rollback and points the selector back; a reboot follows. */
    method RollBack(j: Job, ok: nat -> bool, version: string, ghost verdict: bool)
      modifies `job, `selector
      ensures At(Free) == old(Finish(At(Rolling(j.(state := Rollback))), ok, 2, version, verdict))
    {
      var j' := j.(state := Rollback);
      NextTurn(At(Rolling(j')), ok, 2, version, verdict);
      if !ok(2) {
        return;
      }
      SaveJob(j', true);
      NextTurn(At(Reverting(j')), ok, 3, version, verdict);
      SetCopy(j'.previous, ok(3));
      if !ok(3) {
        Fail(j', ok, 4, version, verdict);
      }
    }
  }

  lemma OneStop(s: HealthWait.Surroundings, round: nat, required: nat)
    requires HealthWait.StopsIn(s, round, required)
    ensures HealthWait.Stable(s, round, required) <==>
      exists k: nat :: HealthWait.StopsIn(s, k, required) && HealthWait.Stable(s, k, required)
  {
    forall k: nat | HealthWait.StopsIn(s, k, required)
      ensures k == round
    {
      if k < round {
        assert false;
      } else if round < k {
        assert false;
      }
    }
  }

  // ---------------------------------------------------------------------------------------------
  // A whole upgrade.

  /** The recorded reboot and the power cycle behind it. */
  function AfterReboot(w: World): World {
    w.(job := w.job.(state := Rebooting), running := w.selector)
  }

  lemma OneTurn(w: World, ok: nat -> bool, n: nat, k: nat)
    requires !w.holder.Free? && k > 0
    ensures Turns(w, ok, n, k, "", false) == Turns(Turn(w, ok, n, "", false), ok, n + 1, k - 1, "", false)
  {
  }

  lemma CheckTurns(w: World, j: Job, ok: nat -> bool, n: nat, k: nat)
    requires w.holder == Checking(j) && k >= 3 && forall n: nat :: ok(n)
    ensures var m := j.(state := Installing, previous := Some(w.running), target := Some(Other(w.running)));
      Turns(w, ok, n, k, "", false) == Turns(w.(job := j, holder := Marking(m)), ok, n + 3, k - 3, "", false)
  {
    OneTurn(w, ok, n, k);
    OneTurn(w.(holder := Noting(j, w.running)), ok, n + 1, k - 1);
    OneTurn(w.(job := j, holder := Backing(j, w.running)), ok, n + 2, k - 2);
  }

  lemma MarkTurns(w: World, m: Job, ok: nat -> bool, n: nat, k: nat)
    requires w.holder == Marking(m) && m.target.Some? && k >= 2 && forall n: nat :: ok(n)
    ensures Turns(w, ok, n, k, "", false) == Turns(
      w.(job := m, images := w.images.With(m.target.value, Partial), holder := Writing(m)), ok, n + 2, k - 2, "", false)
  {
    OneTurn(w, ok, n, k);
    OneTurn(w.(job := m, holder := Rechecking(m)), ok, n + 1, k - 1);
  }

  lemma WriteTurns(w: World, m: Job, ok: nat -> bool, n: nat, k: nat)
    requires w.holder == Writing(m) && m.target.Some? && k >= 2 && forall n: nat :: ok(n)
    ensures var j' := m.(state := Installed);
      Turns(w, ok, n, k, "", false) == Turns(
        w.(job := j', images := w.images.With(m.target.value, Written), holder := Syncing(j', false)),
        ok, n + 2, k - 2, "", false)
  {
    OneTurn(w, ok, n, k);
    OneTurn(w.(images := w.images.With(m.target.value, Written), holder := Flashed(m)), ok, n + 1, k - 1);
  }

  /** From the start of the work to the saved written image. */
  lemma InstallTurns(w: World, j: Job, ok: nat -> bool, n: nat, k: nat)
    requires w.holder == Checking(j) && k >= 7 && forall n: nat :: ok(n)
    ensures var target := Other(w.running);
      var j' := j.(state := Installed, previous := Some(w.running), target := Some(target));
      Turns(w, ok, n, k, "", false) == Turns(
        w.(job := j', images := w.images.With(target, Written), holder := Syncing(j', false)),
        ok, n + 7, k - 7, "", false)
  {
    var m := j.(state := Installing, previous := Some(w.running), target := Some(Other(w.running)));
    CheckTurns(w, j, ok, n, k);
    FlashTurns(w.(job := j, holder := Marking(m)), m, ok, n + 3, k - 3);
  }

  lemma FlashTurns(w: World, m: Job, ok: nat -> bool, n: nat, k: nat)
    requires w.holder == Marking(m) && m.target.Some? && k >= 4 && forall n: nat :: ok(n)
    ensures var j' := m.(state := Installed);
      Turns(w, ok, n, k, "", false) == Turns(
        w.(job := j', images := w.images.With(m.target.value, Written), holder := Syncing(j', false)),
        ok, n + 4, k - 4, "", false)
  {
    MarkTurns(w, m, ok, n, k);
    WriteTurns(w.(job := m, images := w.images.With(m.target.value, Partial), holder := Writing(m)),
      m, ok, n + 2, k - 2);
  }

  /** Two points of one run lead to the same end. */
  lemma SameEnd(w: World, w': World, ok: nat -> bool, n: nat, n': nat, k: nat, k': nat)
    requires Rank(w.holder) <= k && Rank(w'.holder) <= k'
    requires Turns(w, ok, n, k, "", false) == Turns(w', ok, n', k', "", false)
    ensures Finish(w, ok, n, "", false) == Finish(w', ok, n', "", false)
  {
    FinishIsTurns(w, ok, n, k, "", false);
    FinishIsTurns(w', ok, n', k', "", false);
  }

  lemma WriteWorks(w: World, j: Job, written: World, ok: nat -> bool, k: nat)
    requires w.holder == Checking(j) && k >= 13 && forall n: nat :: ok(n)
    requires var target := Other(w.running);
      var j' := j.(state := Installed, previous := Some(w.running), target := Some(target));
      written == w.(job := j', images := w.images.With(target, Written), holder := Syncing(j', false))
    ensures Finish(w, ok, 0, "", false) == Finish(written, ok, 7, "", false)
  {
    InstallTurns(w, j, ok, 0, k);
    SameEnd(w, written, ok, 0, 7, k, k - 7);
  }

  lemma InstallWorks(w: World, ok: nat -> bool)
    requires w.holder.Free? && (w.job.state == Ready || w.job.state == Installing) && forall n: nat :: ok(n)
    ensures var target := Other(w.running);
      AfterInstall(w, ok) == w.(
        job := w.job.(state := AwaitingReboot, previous := Some(w.running), target := Some(target)),
        selector := target, images := w.images.With(target, Written))
  {
    var target := Other(w.running);
    var j := w.job.(state := Installed, previous := Some(w.running), target := Some(target));
    var written := w.(job := j, images := w.images.With(target, Written));
    WriteWorks(w.(holder := Checking(w.job)), w.job, written.(holder := Syncing(j, false)), ok, 13);
    SelectWorks(written, j, false, 7, ok);
  }

  lemma SelectWorks(w: World, j: Job, resumed: bool, n: nat, ok: nat -> bool)
    requires j.target.Some? && forall n: nat :: ok(n)
    ensures Finish(w.(holder := Syncing(j, resumed)), ok, n, "", false)
      == w.(job := j.(state := AwaitingReboot), selector := j.target.value, holder := Free)
  {
    NextTurn(w.(holder := Syncing(j, resumed)), ok, n, "", false);
    AwaitWorks(w, j, n + 1, ok);
  }

  lemma AwaitWorks(w: World, j: Job, n: nat, ok: nat -> bool)
    requires j.target.Some? && forall n: nat :: ok(n)
    ensures Finish(w.(holder := Selecting(j)), ok, n, "", false)
      == w.(job := j.(state := AwaitingReboot), selector := j.target.value, holder := Free)
  {
    NextTurn(w.(holder := Selecting(j)), ok, n, "", false);
    NextTurn(w.(selector := j.target.value, holder := Selected(j)), ok, n + 1, "", false);
  }

  lemma VerifyDecides(w: World, ok: nat -> bool, version: string, verdict: bool)
    requires AtRest(w) && w.job.state == Rebooting && w.job.previous.Some? && forall n: nat :: ok(n)
    ensures AfterVerify(w, ok, version, verdict) ==
      if w.job.target == Some(w.running) && VersionMatches(w.job.targetVersion, version) && verdict
      then w.(job := w.job.(state := Success))
      else w.(job := w.job.(state := Rollback), selector := w.job.previous.value)
  {
    var j := w.job.(state := Verifying);
    var w1 := w.(job := j);
    NextTurn(w.(holder := Opening(j, w.running)), ok, 0, version, verdict);
    NextTurn(w1.(holder := Judging(j, w.running)), ok, 1, version, verdict);
    if j.target == Some(w.running) && VersionMatches(j.targetVersion, version) && verdict {
      NextTurn(w1.(holder := Passing(j, w.running, version)), ok, 2, version, verdict);
    } else {
      RollsBack(w1, j.(state := Rollback), ok, version, verdict);
    }
  }

  lemma RollsBack(w: World, j: Job, ok: nat -> bool, version: string, verdict: bool)
    requires j.previous.Some? && forall n: nat :: ok(n)
    ensures Finish(w.(holder := Rolling(j)), ok, 2, version, verdict)
      == w.(job := j, selector := j.previous.value, holder := Free)
  {
    NextTurn(w.(holder := Rolling(j)), ok, 2, version, verdict);
    NextTurn(w.(job := j, holder := Reverting(j)), ok, 3, version, verdict);
  }

  /**
   * An upgrade in which every effect succeeds ends in success on the new copy if it passes its verification;
   * otherwise the device is back on the old copy after one more boot and the job has failed.
   */
  lemma UpgradeOutcome(w: World, home: Copy, ok: nat -> bool, version: string, verdict: bool, verdict': bool)
    requires Init(w, home) && w.job.state == Ready && forall n: nat :: ok(n)
    ensures var booted := AfterReboot(AfterInstall(w, ok));
      var end := AfterVerify(booted, ok, version, verdict);
      && booted.running == Other(home)
      && (if VersionMatches(w.job.targetVersion, version) && verdict
          then end.job.state == Success && end.running == Other(home) && end.selector == Other(home)
          else
            var back := AfterVerify(Apply(end, PowerCycle), ok, version, verdict');
            back.job.state == Failed && back.running == home && back.selector == home && back.images.At(home) == Old)
  {
    InstallWorks(w, ok);
    var booted := AfterReboot(AfterInstall(w, ok));
    VerifyDecides(booted, ok, version, verdict);
    var end := AfterVerify(booted, ok, version, verdict);
    if !(VersionMatches(w.job.targetVersion, version) && verdict) {
      RolledBackFails(Apply(end, PowerCycle), ok, version, verdict');
    }
  }

  /** Back on the old copy, the next verification records the failure. */
  lemma RolledBackFails(w: World, ok: nat -> bool, version: string, verdict: bool)
    requires AtRest(w) && w.job.state == Rollback && w.job.previous == Some(w.running) && forall n: nat :: ok(n)
    ensures AfterVerify(w, ok, version, verdict) == w.(job := w.job.(state := Failed))
  {
    NextTurn(w.(holder := Closing(w.job.(state := Failed))), ok, 0, version, verdict);
  }
}
