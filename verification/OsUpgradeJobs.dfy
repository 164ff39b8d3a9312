/**
 * Upgrade jobs one after the other, each with its own record on disk. A new one is uploaded when the active one has
 * ended, and processes that still work on an earlier one go on with their own record.
 */
module OsUpgradeJobs {
  import opened Options
  import opened OsUpgrade

  /** The records by number, the active one, and the number of the job each process works on. */
  datatype Machine = Machine(
    jobs: seq<Job>, active: Option<nat>, selector: Copy, running: Copy, images: Images, queued: bool,
    holder: Holder, holds: nat, rebooter: Rebooter, reboots: nat, request: Request, asks: nat)

  /** The device as a process sees it that works on job `i`. */
  function View(m: Machine, i: nat): World
    requires i < |m.jobs|
  {
    World(m.jobs[i], m.active == Some(i), m.selector, m.running, m.images, m.queued, m.holder, m.rebooter, m.request)
  }

  /** The device after a step of a process that works on job `i`. */
  function Back(m: Machine, i: nat, w: World): Machine
    requires i < |m.jobs|
  {
    m.(jobs := m.jobs[i := w.job],
       active := if w.active then Some(i) else if m.active == Some(i) then None else m.active,
       selector := w.selector, running := w.running, images := w.images, queued := w.queued,
       holder := w.holder, rebooter := w.rebooter, request := w.request)
  }

  /** A request takes the active job unless it names one; `linked` tells whether a new job becomes the active one. */
  datatype Event = Upload(linked: bool) | Ask(kind: Kind, job: nat) | Step(a: Action)

  /** The job an action is about. */
  function Subject(m: Machine, a: Action): nat {
    if a.Advance? || a.Progress? then m.holds
    else if a.AdvanceReboot? then m.reboots
    else if a.AdvanceRequest? then m.asks
    else if m.active.Some? then m.active.value
    else 0
  }

  predicate Possible(m: Machine, e: Event) {
    match e
    case Upload(_) =>
      && m.request.NoRequest?
      && (m.active.Some? ==> m.active.value < |m.jobs| && Terminal(m.jobs[m.active.value].state))
    case Ask(_, i) => m.request.NoRequest? && i < |m.jobs|
    case Step(a) =>
      || a.Kill? || a.PowerCycle?
      || (&& Subject(m, a) < |m.jobs| && Enabled(View(m, Subject(m, a)), a)
          && (a.StartRequest? ==> m.active.Some?))
  }

  const NEW_JOB := Job(Uploading, None, None, "")

  function Next(m: Machine, e: Event): Machine
    requires Possible(m, e)
  {
    match e
    case Upload(linked) =>
      var m' := m.(jobs := m.jobs + [NEW_JOB]);
      if linked then m'.(active := Some(|m.jobs|), request := Receiving(NEW_JOB), asks := |m.jobs|) else m'
    case Ask(kind, i) => m.(request := RequestStart(m.jobs[i], kind), asks := i)
    case Step(a) =>
      if a.Kill? then Killed(m, a.victim)
      else if a.PowerCycle? then Cycled(m)
      else
        var i := Subject(m, a);
        Back(m, i, Apply(View(m, i), a)).(
          holds := if a.StartInstall? || a.StartVerify? then i else m.holds,
          reboots := if a.StartReboot? then i else m.reboots,
          asks := if a.StartRequest? then i else m.asks)
  }

  function Killed(m: Machine, v: Victim): Machine {
    match v
    case TheHolder => m.(holder := Free)
    case TheRebooter => m.(rebooter := NotAsked)
    case TheRequest => m.(request := NoRequest)
  }

  function Cycled(m: Machine): Machine {
    m.(running := m.selector, queued := false, holder := Free, rebooter := NotAsked, request := NoRequest)
  }

  predicate Happens(m: Machine, run: seq<Event>)
    decreases run
  {
    run == [] || (Possible(m, run[0]) && Happens(Next(m, run[0]), run[1..]))
  }

  function Later(m: Machine, run: seq<Event>): Machine
    requires Happens(m, run)
    decreases run
  {
    if run == [] then m else Later(Next(m, run[0]), run[1..])
  }

  // ---------------------------------------------------------------------------------------------
  // The exact condition, whichever jobs are asked for.

  predicate Finished(images: Images, c: Copy) {
    images.At(c) != Partial
  }

  /** Neither the selected copy nor the running one is only partly written. */
  predicate Whole(m: Machine) {
    Finished(m.images, m.selector) && Finished(m.images, m.running)
  }

  predicate AlwaysWhole(m: Machine, run: seq<Event>)
    requires Happens(m, run)
    decreases run
  {
    Whole(m) && (run != [] ==> AlwaysWhole(Next(m, run[0]), run[1..]))
  }

  /** The copy the lock holder selects next. */
  function ChosenBy(h: Holder): Option<Copy> {
    match h
    case Selecting(j) => j.target
    case SaveLost(j) => j.previous
    case Undoing(j) => j.previous
    case Reverting(j) => j.previous
    case _ => None
  }

  /** The copy a step selects. */
  function Chosen(m: Machine, e: Event): Option<Copy> {
    if e.Step? && e.a.Advance? && e.a.ok then ChosenBy(m.holder)
    else if e.Step? && e.a.AdvanceRequest? && e.a.ok && m.request.Unstaging? then m.request.job.previous
    else None
  }

  /** The update tool is started over the selected or the running copy. */
  predicate WritesOver(m: Machine, e: Event) {
    && e.Step? && e.a.Advance? && e.a.ok && m.holder.Rechecking?
    && (m.holder.job.target == Some(m.selector) || m.holder.job.target == Some(m.running))
  }

  /** A copy is selected whose last writing did not end. */
  predicate SelectsUnfinished(m: Machine, e: Event) {
    Chosen(m, e).Some? && !Finished(m.images, Chosen(m, e).value)
  }

  predicate NeverSpoils(m: Machine, run: seq<Event>)
    requires Happens(m, run)
    decreases run
  {
    run == []
    || (!WritesOver(m, run[0]) && !SelectsUnfinished(m, run[0]) && NeverSpoils(Next(m, run[0]), run[1..]))
  }

  function WrittenBy(h: Holder, images: Images): Images {
    if h.Rechecking? && h.job.target.Some? then images.With(h.job.target.value, Partial)
    else if h.Writing? && h.job.target.Some? then images.With(h.job.target.value, Written)
    else images
  }

  /** What a step of the lock holder does to the copies. */
  lemma HolderEffects(w: World, ok: bool, version: string)
    requires !w.holder.Free?
    ensures var w' := Apply(w, Advance(ok, version));
      && w'.running == w.running
      && w'.selector == (if ok && ChosenBy(w.holder).Some? then ChosenBy(w.holder).value else w.selector)
      && w'.images == if ok then WrittenBy(w.holder, w.images) else w.images
  {
    if Installer(w.holder) {
      InstallEffects(w, ok);
    } else {
      VerifyEffects(w, ok, version);
    }
  }

  lemma InstallEffects(w: World, ok: bool)
    requires Installer(w.holder)
    ensures var w' := InstallStep(w, ok);
      && w'.running == w.running
      && w'.selector == (if ok && ChosenBy(w.holder).Some? then ChosenBy(w.holder).value else w.selector)
      && w'.images == if ok then WrittenBy(w.holder, w.images) else w.images
  {
  }

  lemma VerifyEffects(w: World, ok: bool, version: string)
    requires Verifier(w.holder)
    ensures var w' := VerifyStep(w, ok, version);
      && w'.running == w.running && w'.images == w.images
      && w'.selector == if ok && ChosenBy(w.holder).Some? then ChosenBy(w.holder).value else w.selector
  {
  }

  lemma RequestEffects(w: World, ok: bool, version: string)
    requires !w.request.NoRequest?
    ensures var w' := RequestStep(w, ok, version);
      && w'.running == w.running && w'.images == w.images
      && w'.selector == if ok && w.request.Unstaging? && w.request.job.previous.Some?
                        then w.request.job.previous.value else w.selector
  {
  }

  lemma HolderStepWhole(m: Machine, ok: bool, version: string)
    requires Whole(m) && Possible(m, Step(Advance(ok, version)))
    ensures var e := Step(Advance(ok, version));
      Whole(Next(m, e)) <==> !WritesOver(m, e) && !SelectsUnfinished(m, e)
  {
    HolderEffects(View(m, m.holds), ok, version);
  }

  lemma RequestStepWhole(m: Machine, ok: bool, version: string)
    requires Whole(m) && Possible(m, Step(AdvanceRequest(ok, version)))
    ensures var e := Step(AdvanceRequest(ok, version));
      Whole(Next(m, e)) <==> !WritesOver(m, e) && !SelectsUnfinished(m, e)
  {
    RequestEffects(View(m, m.asks), ok, version);
  }

  lemma OtherStepWhole(m: Machine, a: Action)
    requires Whole(m) && Possible(m, Step(a)) && !a.Advance? && !a.AdvanceRequest?
    ensures Whole(Next(m, Step(a))) && !WritesOver(m, Step(a)) && !SelectsUnfinished(m, Step(a))
  {
    if a.Kill? || a.PowerCycle? {
    } else {
      var i := Subject(m, a);
      assert Apply(View(m, i), a).images == m.images && Apply(View(m, i), a).selector == m.selector;
    }
  }

  lemma NewStepWhole(m: Machine, e: Event)
    requires Whole(m) && Possible(m, e) && !e.Step?
    ensures Whole(Next(m, e)) && !WritesOver(m, e) && !SelectsUnfinished(m, e)
  {
  }

  lemma StepWhole(m: Machine, e: Event)
    requires Whole(m) && Possible(m, e)
    ensures Whole(Next(m, e)) <==> !WritesOver(m, e) && !SelectsUnfinished(m, e)
  {
    if e.Step? && e.a.Advance? {
      HolderStepWhole(m, e.a.ok, e.a.version);
    } else if e.Step? && e.a.AdvanceRequest? {
      RequestStepWhole(m, e.a.ok, e.a.version);
    } else if e.Step? {
      OtherStepWhole(m, e.a);
    } else {
      NewStepWhole(m, e);
    }
  }

  /**
   * From any state, with requests that name any job: the copies a device may boot stay whole throughout exactly if the
   * tool is never started over one of them and no copy is selected whose writing did not end.
   */
  lemma {:induction false} WholeIffNeverSpoiled(m: Machine, run: seq<Event>)
    requires Whole(m) && Happens(m, run)
    ensures AlwaysWhole(m, run) <==> NeverSpoils(m, run)
    decreases run
  {
    if run != [] {
      StepWhole(m, run[0]);
      if Whole(Next(m, run[0])) {
        WholeIffNeverSpoiled(Next(m, run[0]), run[1..]);
      }
    }
  }

  // ---------------------------------------------------------------------------------------------
  // Requests that name the active job.

  /** Nothing is under way, and the active job, if there is one, is not staged. */
  predicate Start(m: Machine) {
    && Whole(m) && m.holder.Free? && m.rebooter.NotAsked? && m.request.NoRequest?
    && (m.active.Some? ==> m.active.value < |m.jobs| && !Staged(m.jobs[m.active.value].state))
  }

  predicate NamesActive(m: Machine, e: Event) {
    e.Ask? ==> m.active == Some(e.job)
  }

  predicate AlwaysNamesActive(m: Machine, run: seq<Event>)
    requires Happens(m, run)
    decreases run
  {
    run == [] || (NamesActive(m, run[0]) && AlwaysNamesActive(Next(m, run[0]), run[1..]))
  }

  predicate NeverWritesOver(m: Machine, run: seq<Event>)
    requires Happens(m, run)
    decreases run
  {
    run == [] || (!WritesOver(m, run[0]) && NeverWritesOver(Next(m, run[0]), run[1..]))
  }

  /** A record of a staged job names its copies, and the previous one can be gone back to. */
  predicate Usable(j: Job, images: Images) {
    j.previous.Some? && j.target.Some? && Finished(images, j.previous.value)
  }

  predicate Recorded(j: Job, images: Images) {
    && (Staged(j.state) ==> Usable(j, images))
    && (j.state == Installed ==> Finished(images, j.target.value))
  }

  /** A staged job of an earlier boot, which would go back to the copy that is not running. */
  predicate Foreign(j: Job, running: Copy) {
    Staged(j.state) && j.previous == Some(Other(running))
  }

  predicate HolderSound(h: Holder, images: Images, running: Copy) {
    && (h.Checking? || h.Noting? || h.Backing? ==> Open(h.job.state))
    && (h.Noting? || h.Backing? ==> h.current == running)
    && (h.Marking? || h.Rechecking? || h.Writing? || h.Flashed? || h.SaveLost? ==>
          h.job.state == Installing && h.job.previous == Some(running) && h.job.target == Some(Other(running)))
    && (h.Flashed? ==> Finished(images, h.job.target.value))
    && (h.Syncing? || h.Selecting? || h.Selected? ==> h.job.state == Installed && Recorded(h.job, images))
    && (h.Undoing? || Verifier(h) ==> Usable(h.job, images))
    && (h.Opening? || h.Judging? || h.Passing? ==> h.job.state == Verifying)
    && (h.Rolling? || h.Reverting? ==> h.job.state == Rollback)
    && (h.Closing? ==> h.job.state == Failed || h.job.state == AwaitingReboot)
  }

  predicate RequestSound(r: Request, images: Images) {
    && (ForOpen(r) && !r.Rejecting? ==> Open(r.job.state))
    && (r.Unstaging? || r.Deactivating? ==> r.job.state == AwaitingReboot && Usable(r.job, images))
    && (r.Dropping? ==> r.job.state == Cancelled)
  }

  /** The processes work on jobs there are; a request works on the active one. */
  predicate Numbered(m: Machine) {
    && (m.active.Some? ==> m.active.value < |m.jobs|)
    && (!m.holder.Free? ==> m.holds < |m.jobs|)
    && (m.rebooter.Asked? ==> m.reboots < |m.jobs|)
    && (!m.request.NoRequest? ==> m.active == Some(m.asks))
  }

  /** The active job, on disk or with a process, is one of an earlier boot. */
  predicate Tainted(m: Machine)
    requires Numbered(m)
  {
    && m.active.Some?
    && (|| Foreign(m.jobs[m.active.value], m.running)
        || (m.rebooter.Asked? && m.reboots == m.active.value && Foreign(m.rebooter.job, m.running))
        || (!m.holder.Free? && m.holds == m.active.value && Foreign(m.holder.job, m.running))
        || ((m.request.Unstaging? || m.request.Deactivating?) && Foreign(m.request.job, m.running)))
  }

  predicate Sound(m: Machine) {
    && Numbered(m) && Whole(m)
    && HolderSound(m.holder, m.images, m.running) && RequestSound(m.request, m.images)
    && (m.rebooter.Asked? ==> m.rebooter.job.state == AwaitingReboot)
    && (m.rebooter.Asked? && m.active == Some(m.reboots) ==> Usable(m.rebooter.job, m.images))
    && (m.active.Some? ==> Recorded(m.jobs[m.active.value], m.images))
    && (Early(m.holder) ==> !Tainted(m) && (m.active.Some? ==> m.jobs[m.active.value].state != Installed))
    && (Tainted(m) ==> !Open(m.jobs[m.active.value].state) && !ForOpen(m.request))
  }

  lemma StartIsSound(m: Machine)
    requires Start(m)
    ensures Sound(m)
  {
  }

  lemma UploadSound(m: Machine, linked: bool)
    requires Sound(m) && Possible(m, Upload(linked))
    ensures Sound(Next(m, Upload(linked)))
  {
  }

  lemma AskSound(m: Machine, kind: Kind, i: nat)
    requires Sound(m) && Possible(m, Ask(kind, i)) && m.active == Some(i)
    ensures Sound(Next(m, Ask(kind, i)))
  {
  }

  lemma KilledSound(m: Machine, v: Victim)
    requires Sound(m)
    ensures Sound(Killed(m, v))
  {
  }

  lemma CycledSound(m: Machine)
    requires Sound(m)
    ensures Sound(Cycled(m))
  {
  }

  lemma StartInstallSound(m: Machine, byHand: bool)
    requires Sound(m) && Possible(m, Step(StartInstall(byHand)))
    ensures Sound(Next(m, Step(StartInstall(byHand))))
  {
  }

  lemma StartVerifySound(m: Machine)
    requires Sound(m) && Possible(m, Step(StartVerify))
    ensures Sound(Next(m, Step(StartVerify)))
  {
  }

  lemma StartRebootSound(m: Machine)
    requires Sound(m) && Possible(m, Step(StartReboot))
    ensures Sound(Next(m, Step(StartReboot)))
  {
  }

  lemma StartRequestSound(m: Machine, kind: Kind)
    requires Sound(m) && Possible(m, Step(StartRequest(kind)))
    ensures Sound(Next(m, Step(StartRequest(kind))))
  {
    var i := m.active.value;
    assert m.jobs[i := m.jobs[i]] == m.jobs;
    AskSound(m, kind, i);
  }

  lemma RebootSound(m: Machine, ok: bool)
    requires Sound(m) && Possible(m, Step(AdvanceReboot(ok)))
    ensures Sound(Next(m, Step(AdvanceReboot(ok))))
  {
  }

  lemma ValidationSound(m: Machine, ok: bool, version: string)
    requires Sound(m) && Possible(m, Step(AdvanceRequest(ok, version)))
    requires m.request.Receiving? || m.request.Stored? || m.request.Reviewing? || m.request.Vetting?
      || m.request.Approving? || m.request.Rejecting?
    ensures Sound(Next(m, Step(AdvanceRequest(ok, version))))
  {
  }

  lemma InstallRequestSound(m: Machine, ok: bool, version: string)
    requires Sound(m) && Possible(m, Step(AdvanceRequest(ok, version)))
    requires m.request.Claiming? || m.request.Requesting? || m.request.Launching? || m.request.Withdrawing?
    ensures Sound(Next(m, Step(AdvanceRequest(ok, version))))
  {
  }

  lemma UnstagingSound(m: Machine, ok: bool, version: string)
    requires Sound(m) && Possible(m, Step(AdvanceRequest(ok, version)))
    requires m.request.Unstaging? || m.request.Deactivating?
    ensures Sound(Next(m, Step(AdvanceRequest(ok, version))))
  {
    if m.request.Unstaging? {
      UnselectSound(m, ok, version);
    } else {
      DeactivateSound(m, ok, version);
    }
  }

  lemma UnselectSound(m: Machine, ok: bool, version: string)
    requires Sound(m) && Possible(m, Step(AdvanceRequest(ok, version))) && m.request.Unstaging?
    ensures Sound(Next(m, Step(AdvanceRequest(ok, version))))
  {
    assert m.jobs[m.asks := m.jobs[m.asks]] == m.jobs;
  }

  lemma DeactivateSound(m: Machine, ok: bool, version: string)
    requires Sound(m) && Possible(m, Step(AdvanceRequest(ok, version))) && m.request.Deactivating?
    ensures Sound(Next(m, Step(AdvanceRequest(ok, version))))
  {
    assert m.jobs[m.asks := m.jobs[m.asks]] == m.jobs;
  }

  lemma DroppingSound(m: Machine, ok: bool, version: string)
    requires Sound(m) && Possible(m, Step(AdvanceRequest(ok, version))) && m.request.Dropping?
    ensures Sound(Next(m, Step(AdvanceRequest(ok, version))))
  {
  }

  lemma UnlinkingSound(m: Machine, ok: bool, version: string)
    requires Sound(m) && Possible(m, Step(AdvanceRequest(ok, version))) && m.request.Unlinking?
    ensures Sound(Next(m, Step(AdvanceRequest(ok, version))))
  {
  }

  lemma RequestSteps(m: Machine, ok: bool, version: string)
    requires Sound(m) && Possible(m, Step(AdvanceRequest(ok, version)))
    ensures Sound(Next(m, Step(AdvanceRequest(ok, version))))
  {
    if m.request.Unstaging? || m.request.Deactivating? {
      UnstagingSound(m, ok, version);
    } else if m.request.Dropping? {
      DroppingSound(m, ok, version);
    } else if m.request.Unlinking? {
      UnlinkingSound(m, ok, version);
    } else if m.request.Claiming? || m.request.Requesting? || m.request.Launching? || m.request.Withdrawing? {
      InstallRequestSound(m, ok, version);
    } else {
      ValidationSound(m, ok, version);
    }
  }

  // ---------------------------------------------------------------------------------------------
  // The lock holder, whose job need not be the active one.

  /** What a step of the lock holder may change, and how. */
  predicate Moves(w: World, w': World)
    requires !w.holder.Free?
  {
    && w' == w.(job := w'.job, selector := w'.selector, images := w'.images, holder := w'.holder)
    && HolderSound(w'.holder, w'.images, w.running)
    && Finished(w'.images, w'.selector) && Finished(w'.images, w.running)
    && (Finished(w.images, Other(w.running)) && !Early(w.holder) ==> Finished(w'.images, Other(w.running)))
    && (Early(w'.holder) ==> Early(w.holder))
    && (!w'.holder.Free? && Foreign(w'.holder.job, w.running) ==> Foreign(w.holder.job, w.running))
    && (w'.job == w.job || Saves(w, w'))
  }

  predicate Saves(w: World, w': World)
    requires !w.holder.Free?
  {
    && Recorded(w'.job, w'.images)
    && (Foreign(w'.job, w.running) ==> Foreign(w.holder.job, w.running))
    && (Open(w'.job.state) ==> Early(w.holder))
    && (w'.job.state == Installed ==> !Early(w'.holder))
  }

  lemma MovesSound(m: Machine, w': World)
    requires Sound(m) && !m.holder.Free? && Moves(View(m, m.holds), w')
    ensures Sound(Back(m, m.holds, w'))
  {
  }

  predicate Fit(w: World) {
    && HolderSound(w.holder, w.images, w.running)
    && Finished(w.images, w.selector) && Finished(w.images, w.running)
  }

  lemma CheckMoves(w: World, ok: bool)
    requires Fit(w) && (w.holder.Checking? || w.holder.Noting? || w.holder.Backing? || w.holder.Marking?)
    ensures Moves(w, InstallStep(w, ok))
  {
  }

  lemma WriteMoves(w: World, ok: bool)
    requires Fit(w) && (w.holder.Rechecking? || w.holder.Writing?)
    requires w.holder.Rechecking? && ok ==> w.selector == w.running
    ensures Moves(w, InstallStep(w, ok))
  {
  }

  lemma FlashedMoves(w: World, ok: bool)
    requires Fit(w) && (w.holder.Flashed? || w.holder.SaveLost? || w.holder.Undoing? || w.holder.Failing?)
    ensures Moves(w, InstallStep(w, ok))
  {
  }

  lemma StagedMoves(w: World, ok: bool)
    requires Fit(w) && (w.holder.Syncing? || w.holder.Selecting? || w.holder.Selected?)
    ensures Moves(w, InstallStep(w, ok))
  {
  }

  lemma VerifyMoves(w: World, ok: bool, version: string)
    requires Fit(w) && Verifier(w.holder)
    ensures Moves(w, VerifyStep(w, ok, version))
  {
  }

  lemma HolderMoves(w: World, ok: bool, version: string)
    requires Fit(w) && !w.holder.Free? && (w.holder.Rechecking? && ok ==> w.selector == w.running)
    ensures Moves(w, Apply(w, Advance(ok, version)))
  {
    if w.holder.Rechecking? || w.holder.Writing? {
      WriteMoves(w, ok);
    } else if Early(w.holder) {
      CheckMoves(w, ok);
    } else if w.holder.Syncing? || w.holder.Selecting? || w.holder.Selected? {
      StagedMoves(w, ok);
    } else if Installer(w.holder) {
      FlashedMoves(w, ok);
    } else {
      VerifyMoves(w, ok, version);
    }
  }

  lemma HolderSteps(m: Machine, ok: bool, version: string)
    requires Sound(m) && Possible(m, Step(Advance(ok, version))) && !WritesOver(m, Step(Advance(ok, version)))
    ensures Sound(Next(m, Step(Advance(ok, version))))
  {
    var w := View(m, m.holds);
    HolderMoves(w, ok, version);
    MovesSound(m, Apply(w, Advance(ok, version)));
    assert Next(m, Step(Advance(ok, version))) == Back(m, m.holds, Apply(w, Advance(ok, version)));
  }

  lemma ProgressSound(m: Machine)
    requires Sound(m) && Possible(m, Step(Progress))
    ensures Sound(Next(m, Step(Progress)))
  {
    MovesSound(m, Apply(View(m, m.holds), Progress));
  }

  lemma StepSound(m: Machine, e: Event)
    requires Sound(m) && Possible(m, e) && NamesActive(m, e) && !WritesOver(m, e)
    ensures Sound(Next(m, e))
  {
    match e
    case Upload(linked) => UploadSound(m, linked);
    case Ask(kind, i) => AskSound(m, kind, i);
    case Step(a) =>
      match a {
        case Advance(ok, version) => HolderSteps(m, ok, version);
        case Progress => ProgressSound(m);
        case AdvanceReboot(ok) => RebootSound(m, ok);
        case AdvanceRequest(ok, version) => RequestSteps(m, ok, version);
        case Kill(v) => KilledSound(m, v);
        case PowerCycle => CycledSound(m);
        case StartInstall(byHand) => StartInstallSound(m, byHand);
        case StartVerify => StartVerifySound(m);
        case StartReboot => StartRebootSound(m);
        case StartRequest(kind) => StartRequestSound(m, kind);
      }
  }

  lemma SoundSelectsFinished(m: Machine, e: Event)
    requires Sound(m)
    ensures !SelectsUnfinished(m, e)
  {
  }

  lemma {:induction false} SoundIffNeverWrittenOver(m: Machine, run: seq<Event>)
    requires Sound(m) && Happens(m, run) && AlwaysNamesActive(m, run)
    ensures AlwaysWhole(m, run) <==> NeverWritesOver(m, run)
    decreases run
  {
    if run != [] {
      SoundSelectsFinished(m, run[0]);
      StepWhole(m, run[0]);
      if !WritesOver(m, run[0]) {
        StepSound(m, run[0]);
        SoundIffNeverWrittenOver(Next(m, run[0]), run[1..]);
      }
    }
  }

  /**
   * Over every sequence of jobs whose requests name the active one, whatever is started and left over from earlier
   * jobs: the copies a device may boot stay whole throughout exactly if the tool is never started over one of them.
   */
  lemma JobsIntactIff(m: Machine, run: seq<Event>)
    requires Start(m) && Happens(m, run) && AlwaysNamesActive(m, run)
    ensures AlwaysWhole(m, run) <==> NeverWritesOver(m, run)
  {
    StartIsSound(m);
    SoundIffNeverWrittenOver(m, run);
  }
}
