/**
 * The A/B operating system upgrade of one job on a dual-copy device, as a machine over its effects.
 *
 * The install and verify processes exclude each other by a file lock. The requests of the API (upload, validate,
 * install, cancel) exclude each other by a mutex. The reboot process takes neither, and each of the three works on
 * its own copy of the job and may come in between any two effects of the others. A saved job, a boot selector call
 * and an image write each happen as a whole or, when they fail, not at all. A process may die, and power may be
 * lost, between any two effects: after a power cycle the device runs the copy the selector names.
 */
module OsUpgrade {
  import opened Options

  datatype Copy = A | B

  function Other(c: Copy): Copy {
    if c == A then B else A
  }

  datatype State =
    Idle | Uploading | Validating | Ready | Installing | Installed | AwaitingReboot | Rebooting | Verifying | Success
    | Rollback | Failed | Cancelled

  datatype Job = Job(state: State, previous: Option<Copy>, target: Option<Copy>, targetVersion: string)

  predicate Terminal(s: State) {
    s == Success || s == Failed || s == Cancelled
  }

  datatype Image = Old | Partial | Written

  /** The images in the partitions of the two copies. */
  datatype Images = Images(a: Image, b: Image) {
    function At(c: Copy): Image {
      if c == A then a else b
    }

    function With(c: Copy, i: Image): Images {
      if c == A then this.(a := i) else this.(b := i)
    }
  }

  /** Where the process that holds the lock stands: the install process first, then the verify process. */
  datatype Holder =
    | Free
    | Checking(job: Job)
    | Noting(job: Job, current: Copy)
    | Backing(job: Job, current: Copy)
    | Marking(job: Job)
    | Rechecking(job: Job)
    | Writing(job: Job)
    | Flashed(job: Job)
    | SaveLost(job: Job)
    | Syncing(job: Job, resumed: bool)
    | Selecting(job: Job)
    | Selected(job: Job)
    | Undoing(job: Job)
    | Failing(job: Job)
    | Opening(job: Job, current: Copy)
    | Judging(job: Job, current: Copy)
    | Passing(job: Job, current: Copy, version: string)
    | Rolling(job: Job)
    | Reverting(job: Job)
    | Closing(job: Job)

  datatype Rebooter = NotAsked | Asked(job: Job)

  /** Where the request that holds the mutex stands: upload, validation, install and cancellation in this order. */
  datatype Request =
    | NoRequest
    | Receiving(job: Job)
    | Stored(job: Job)
    | Reviewing(job: Job)
    | Vetting(job: Job)
    | Approving(job: Job)
    | Rejecting(job: Job)
    | Claiming(job: Job)
    | Requesting(job: Job)
    | Launching(job: Job)
    | Withdrawing(job: Job)
    | Unstaging(job: Job)
    | Deactivating(job: Job)
    | Dropping(job: Job)
    | Unlinking

  /** `queued` is a start of the install service that a request has asked for. */
  datatype World = World(
    job: Job, active: bool, selector: Copy, running: Copy, images: Images, queued: bool,
    holder: Holder, rebooter: Rebooter, request: Request)

  /** One step of the install process: an effect that succeeds or has none. */
  function InstallStep(w: World, ok: bool): World
    requires w.holder.Checking? || w.holder.Noting? || w.holder.Backing? || w.holder.Marking? || w.holder.Rechecking?
      || w.holder.Writing? || w.holder.Flashed? || w.holder.SaveLost? || w.holder.Syncing? || w.holder.Selecting?
      || w.holder.Selected? || w.holder.Undoing? || w.holder.Failing?
  {
    match w.holder
    case Checking(j) => w.(holder := if ok then Noting(j, w.running) else Failing(j))
    case Noting(j, c) => if ok then w.(job := j, holder := Backing(j, c)) else w.(holder := Free)
    case Backing(j, c) =>
      w.(holder := if ok then Marking(j.(state := Installing, previous := Some(c), target := Some(Other(c))))
                   else Failing(j))
    case Marking(j) => if ok then w.(job := j, holder := Rechecking(j)) else w.(holder := Free)
    case Rechecking(j) =>
      if ok && j.target.Some? then w.(images := w.images.With(j.target.value, Partial), holder := Writing(j))
      else w.(holder := Failing(j))
    case Writing(j) =>
      if ok && j.target.Some? then w.(images := w.images.With(j.target.value, Written), holder := Flashed(j))
      else w.(holder := Undoing(j))
    case Flashed(j) =>
      var j' := j.(state := Installed);
      if ok then w.(job := j', holder := Syncing(j', false)) else w.(holder := SaveLost(j))
    case SaveLost(j) => Select(w, j.previous, ok).(holder := Free)
    case Syncing(j, resumed) =>
      w.(holder := if ok then Selecting(j) else if resumed then Failing(j) else Undoing(j))
    case Selecting(j) => Select(w, j.target, ok).(holder := if ok then Selected(j) else Undoing(j))
    case Selected(j) => Save(w, j.(state := AwaitingReboot), ok).(holder := Free)
    case Undoing(j) => Select(w, j.previous, ok).(holder := Failing(j))
    case Failing(j) => Save(w, j.(state := Failed), ok).(holder := Free)
  }

  /** Saving a job: it replaces the one on disk or, on an error, leaves it. */
  function Save(w: World, j: Job, ok: bool): World {
    if ok then w.(job := j) else w
  }

  /** Setting the boot selector. */
  function Select(w: World, c: Option<Copy>, ok: bool): World {
    if ok && c.Some? then w.(selector := c.value) else w
  }

  predicate VersionMatches(target: string, booted: string) {
    booted != "" && (target == "" || booted == target)
  }

  /** One step of the verify process; `version` is what the booted system says it is. */
  function VerifyStep(w: World, ok: bool, version: string): World
    requires w.holder.Opening? || w.holder.Judging? || w.holder.Passing? || w.holder.Rolling? || w.holder.Reverting?
      || w.holder.Closing?
  {
    match w.holder
    case Opening(j, c) => if ok then w.(job := j, holder := Judging(j, c)) else w.(holder := Free)
    case Judging(j, c) =>
      w.(holder := if j.target == Some(c) && VersionMatches(j.targetVersion, version) && ok then Passing(j, c, version)
                   else Rolling(j.(state := Rollback)))
    case Passing(j, c, v) => Save(w, j.(state := Success), ok).(holder := Free)
    case Rolling(j) => if ok then w.(job := j, holder := Reverting(j)) else w.(holder := Free)
    case Reverting(j) => Select(w, j.previous, ok).(holder := if ok then Free else Failing(j))
    case Closing(j) => Save(w, j, ok).(holder := Free)
  }

  /** What the verify process sets out to do with the job it finds. */
  function VerifyStart(j: Job, current: Copy): Holder {
    if j.state == Rollback && j.previous == Some(current) then Closing(j.(state := Failed))
    else if j.state == Installed && j.previous == Some(current) then Closing(j.(state := AwaitingReboot))
    else if j.state in {Rebooting, AwaitingReboot, Verifying}
      || (j.state == Installed && j.target == Some(current)) then
      Opening(j.(state := Verifying), current)
    else Free
  }

  /** What the install process sets out to do with the job it finds. */
  function InstallStart(j: Job): Holder {
    if j.state == Installed then Syncing(j, true)
    else if j.state == Ready || j.state == Installing then Checking(j)
    else Free
  }

  datatype Kind = Validate | Install | Cancel

  /** What a request sets out to do with the job it finds. */
  function RequestStart(j: Job, kind: Kind): Request {
    match kind
    case Validate => if j.state == Validating || j.state == Ready then Reviewing(j.(state := Validating)) else NoRequest
    case Install => if j.state == Ready then Claiming(j) else NoRequest
    case Cancel =>
      if j.state in {Uploading, Validating, Ready, Failed} then Dropping(j.(state := Cancelled))
      else if j.state == AwaitingReboot then Unstaging(j)
      else NoRequest
  }

  /** One step of a request; `version` is what the validated package says it is. */
  function RequestStep(w: World, ok: bool, version: string): World
    requires !w.request.NoRequest?
  {
    match w.request
    case Receiving(j) => w.(request := if ok then Stored(j.(state := Validating)) else Rejecting(j))
    case Stored(j) => Save(w, j, ok).(request := NoRequest)
    case Reviewing(j) => Save(w, j, ok).(request := Vetting(j))
    case Vetting(j) =>
      w.(request := if ok then Approving(Job(Ready, Some(w.running), Some(Other(w.running)), version))
                    else Rejecting(j))
    case Approving(j) => Save(w, j, ok).(request := NoRequest)
    case Rejecting(j) => Save(w, j.(state := Failed), ok).(request := NoRequest)
    case Claiming(j) =>
      if ok then w.(active := true, request := Requesting(j.(state := Installing))) else w.(request := NoRequest)
    case Requesting(j) => Save(w, j, ok).(request := if ok then Launching(j) else NoRequest)
    case Launching(j) =>
      if ok then w.(queued := true, request := NoRequest) else w.(request := Withdrawing(j.(state := Ready)))
    case Withdrawing(j) => Save(w, j, ok).(request := NoRequest)
    case Unstaging(j) => Select(w, j.previous, ok).(request := if ok then Deactivating(j) else NoRequest)
    case Deactivating(j) => w.(request := if ok then Dropping(j.(state := Cancelled)) else NoRequest)
    case Dropping(j) => Save(w, j, ok).(request := if ok then Unlinking else NoRequest)
    case Unlinking => w.(active := false, request := NoRequest)
  }

  datatype Victim = TheHolder | TheRebooter | TheRequest

  /** The install process is started by its service, or by hand. */
  datatype Action =
    | StartInstall(byHand: bool)
    | StartVerify
    | Advance(ok: bool, version: string)
    | Progress
    | StartReboot
    | AdvanceReboot(ok: bool)
    | StartRequest(kind: Kind)
    | AdvanceRequest(ok: bool, version: string)
    | Kill(victim: Victim)
    | PowerCycle

  predicate Installer(h: Holder) {
    !h.Free? && !Verifier(h)
  }

  predicate Verifier(h: Holder) {
    h.Opening? || h.Judging? || h.Passing? || h.Rolling? || h.Reverting? || h.Closing?
  }

  predicate Enabled(w: World, a: Action) {
    match a
    case StartInstall(byHand) => w.holder.Free? && w.active && (byHand || w.queued)
    case StartVerify => w.holder.Free? && w.active
    case Advance(_, _) => !w.holder.Free?
    case Progress => w.holder.Writing?
    case StartReboot => w.rebooter.NotAsked? && w.active
    case AdvanceReboot(_) => w.rebooter.Asked?
    case StartRequest(_) => w.request.NoRequest?
    case AdvanceRequest(_, _) => !w.request.NoRequest?
    case Kill(_) => true
    case PowerCycle => true
  }

  function Apply(w: World, a: Action): World
    requires Enabled(w, a)
  {
    match a
    case StartInstall(byHand) => w.(holder := InstallStart(w.job), queued := byHand && w.queued)
    case StartVerify => w.(holder := VerifyStart(w.job, w.running))
    case Advance(ok, version) => if Installer(w.holder) then InstallStep(w, ok) else VerifyStep(w, ok, version)
    case Progress => w.(job := w.holder.job)
    case StartReboot => if w.job.state == AwaitingReboot then w.(rebooter := Asked(w.job)) else w
    case AdvanceReboot(ok) => Save(w, w.rebooter.job.(state := Rebooting), ok).(rebooter := NotAsked)
    case StartRequest(kind) => w.(request := RequestStart(w.job, kind))
    case AdvanceRequest(ok, version) => RequestStep(w, ok, version)
    case Kill(v) =>
      match v {
        case TheHolder => w.(holder := Free)
        case TheRebooter => w.(rebooter := NotAsked)
        case TheRequest => w.(request := NoRequest)
      }
    case PowerCycle =>
      w.(running := w.selector, queued := false, holder := Free, rebooter := NotAsked, request := NoRequest)
  }

  predicate Allowed(w: World, run: seq<Action>)
    decreases run
  {
    run == [] || (Enabled(w, run[0]) && Allowed(Apply(w, run[0]), run[1..]))
  }

  function After(w: World, run: seq<Action>): World
    requires Allowed(w, run)
    decreases run
  {
    if run == [] then w else After(Apply(w, run[0]), run[1..])
  }

  /** A job for which nothing is staged yet: being uploaded, validated, ready, or taken up for installation. */
  predicate Open(s: State) {
    s in {Uploading, Validating, Ready, Installing}
  }

  /** An open job, on a device that runs the copy its selector names. Its upload may still be under way. */
  predicate Init(w: World, home: Copy) {
    && Open(w.job.state) && JobOk(w.job, home)
    && w.selector == home && w.running == home
    && w.images.At(home) == Old
    && !w.queued && w.holder == Free && w.rebooter == NotAsked
    && (w.request == NoRequest || (w.request == Receiving(w.job) && w.job.state == Uploading))
  }

  // ---------------------------------------------------------------------------------------------
  // What every step keeps.

  /** States that promise a completely written target. */
  predicate Staged(s: State) {
    s in {Installed, AwaitingReboot, Rebooting, Verifying, Rollback}
  }

  /** A job either names no copies yet or the two right ones; it names them once it is staged. */
  predicate JobOk(j: Job, home: Copy) {
    && ((j.previous == None && j.target == None) || (j.previous == Some(home) && j.target == Some(Other(home))))
    && (Staged(j.state) ==> j.target.Some?)
  }

  /** The install process may still (re)write the target. */
  predicate Early(h: Holder) {
    h.Checking? || h.Noting? || h.Backing? || h.Marking? || h.Rechecking? || h.Writing?
  }

  /** The lock holder acts on a staged job. */
  predicate Late(h: Holder) {
    || h.Syncing? || h.Selecting? || h.Selected?
    || Verifier(h)
    || (h.Undoing? && Staged(h.job.state))
  }

  /** Someone may boot, is running, or acts on a promise of the target. */
  predicate Bound(w: World, home: Copy) {
    || w.selector == Other(home) || w.running == Other(home)
    || w.rebooter.Asked? || w.request.Unstaging? || w.request.Deactivating? || Late(w.holder)
  }

  predicate HolderOk(h: Holder, running: Copy, home: Copy) {
    && (!h.Free? ==> JobOk(h.job, home))
    && (h.Checking? || h.Noting? || h.Backing? ==> h.job.state in {Ready, Installing})
    && (h.Noting? || h.Backing? || h.Opening? || h.Judging? || h.Passing? ==> h.current == running)
    && (h.Marking? || h.Rechecking? || h.Writing? || h.Flashed? ==> h.job.state == Installing && h.job.target.Some?)
    && (h.Syncing? || h.Selecting? || h.Selected? ==> h.job.state == Installed)
    && (h.Opening? || h.Judging? ==> h.job.state == Verifying)
    && (h.Passing? ==>
          && h.job.state == Verifying && h.job.target == Some(h.current)
          && VersionMatches(h.job.targetVersion, h.version))
    && (h.Rolling? || h.Reverting? ==> h.job.state == Rollback)
    && (h.Closing? ==> h.job.state == Failed || h.job.state == AwaitingReboot)
  }

  predicate RebooterOk(r: Rebooter, home: Copy) {
    r.Asked? ==> JobOk(r.job, home) && r.job.state == AwaitingReboot
  }

  /** A request of an upload, a validation or an installation. */
  predicate ForOpen(r: Request) {
    || r.Receiving? || r.Stored? || r.Reviewing? || r.Vetting? || r.Approving? || r.Rejecting?
    || r.Claiming? || r.Requesting? || r.Launching? || r.Withdrawing?
  }

  predicate RequestOk(r: Request, running: Copy, home: Copy) {
    && (!r.NoRequest? && !r.Unlinking? ==> JobOk(r.job, home))
    && (ForOpen(r) ==> running == home)
    && (r.Receiving? ==> r.job.state == Uploading)
    && (r.Stored? || r.Reviewing? || r.Vetting? ==> r.job.state == Validating)
    && (r.Approving? || r.Claiming? || r.Withdrawing? ==> r.job.state == Ready)
    && (r.Requesting? || r.Launching? ==> r.job.state == Installing)
    && (r.Unstaging? || r.Deactivating? ==> r.job.state == AwaitingReboot)
    && (r.Dropping? ==> r.job.state == Cancelled)
  }

  predicate Inv(w: World, home: Copy) {
    && w.images.At(home) == Old
    && JobOk(w.job, home) && HolderOk(w.holder, w.running, home)
    && RebooterOk(w.rebooter, home) && RequestOk(w.request, w.running, home)
    && (Bound(w, home) || Staged(w.job.state) || w.holder.Flashed? ==> w.images.At(Other(home)) == Written)
    && (Open(w.job.state) ==> !Bound(w, home))
    && (Early(w.holder) || w.holder.Flashed? ==> !Bound(w, home) && !Staged(w.job.state))
  }

  /** The request's next effect saves an open job. */
  predicate SavesOpen(r: Request) {
    r.Stored? || r.Reviewing? || r.Approving? || r.Requesting? || r.Withdrawing?
  }

  /** A request saves its copy of an open job although the target is selected, running or acted on by now. */
  predicate Reopens(w: World, home: Copy, a: Action) {
    a.AdvanceRequest? && a.ok && SavesOpen(w.request) && Bound(w, home)
  }

  lemma InitInv(w: World, home: Copy)
    requires Init(w, home)
    ensures Inv(w, home)
  {
  }

  lemma CheckStepKeepsInv(w: World, home: Copy, ok: bool)
    requires Inv(w, home) && (w.holder.Checking? || w.holder.Noting? || w.holder.Backing?)
    ensures Inv(InstallStep(w, ok), home)
  {
  }

  lemma WriteStepKeepsInv(w: World, home: Copy, ok: bool)
    requires Inv(w, home) && (w.holder.Marking? || w.holder.Rechecking? || w.holder.Writing?)
    ensures Inv(InstallStep(w, ok), home)
  {
  }

  lemma StagedStepKeepsInv(w: World, home: Copy, ok: bool)
    requires Inv(w, home) && (w.holder.Syncing? || w.holder.Selecting? || w.holder.Selected?)
    ensures Inv(InstallStep(w, ok), home)
  {
  }

  lemma FlashedStepKeepsInv(w: World, home: Copy, ok: bool)
    requires Inv(w, home) && (w.holder.Flashed? || w.holder.SaveLost?)
    ensures Inv(InstallStep(w, ok), home)
  {
  }

  lemma FailStepKeepsInv(w: World, home: Copy, ok: bool)
    requires Inv(w, home) && (w.holder.Undoing? || w.holder.Failing?)
    ensures Inv(InstallStep(w, ok), home)
  {
  }

  lemma JudgeStepKeepsInv(w: World, home: Copy, ok: bool, version: string)
    requires Inv(w, home) && (w.holder.Opening? || w.holder.Judging? || w.holder.Passing?)
    ensures Inv(VerifyStep(w, ok, version), home)
  {
  }

  lemma CloseStepKeepsInv(w: World, home: Copy, ok: bool, version: string)
    requires Inv(w, home) && (w.holder.Rolling? || w.holder.Reverting? || w.holder.Closing?)
    ensures Inv(VerifyStep(w, ok, version), home)
  {
  }

  lemma StartKeepsInv(w: World, home: Copy)
    requires Inv(w, home) && w.holder.Free?
    ensures forall queued :: Inv(w.(holder := InstallStart(w.job), queued := queued), home)
    ensures Inv(w.(holder := VerifyStart(w.job, w.running)), home)
  {
  }

  lemma RequestStartKeepsInv(w: World, home: Copy, kind: Kind)
    requires Inv(w, home) && w.request.NoRequest?
    ensures Inv(w.(request := RequestStart(w.job, kind)), home)
  {
  }

  lemma ValidationKeepsInv(w: World, home: Copy, ok: bool, version: string)
    requires Inv(w, home) && !Reopens(w, home, AdvanceRequest(ok, version))
    requires w.request.Receiving? || w.request.Stored? || w.request.Reviewing?
      || w.request.Vetting? || w.request.Approving?
    ensures Inv(RequestStep(w, ok, version), home)
  {
  }

  lemma InstallRequestKeepsInv(w: World, home: Copy, ok: bool, version: string)
    requires Inv(w, home) && !Reopens(w, home, AdvanceRequest(ok, version))
    requires w.request.Claiming? || w.request.Requesting? || w.request.Launching? || w.request.Withdrawing?
    ensures Inv(RequestStep(w, ok, version), home)
  {
  }

  lemma UnstagingKeepsInv(w: World, home: Copy, ok: bool, version: string)
    requires Inv(w, home) && (w.request.Unstaging? || w.request.Deactivating?)
    ensures Inv(RequestStep(w, ok, version), home)
  {
  }

  lemma ClosingRequestKeepsInv(w: World, home: Copy, ok: bool, version: string)
    requires Inv(w, home) && (w.request.Rejecting? || w.request.Dropping? || w.request.Unlinking?)
    ensures Inv(RequestStep(w, ok, version), home)
  {
  }

  lemma RequestStepKeepsInv(w: World, home: Copy, ok: bool, version: string)
    requires Inv(w, home) && !w.request.NoRequest? && !Reopens(w, home, AdvanceRequest(ok, version))
    ensures Inv(RequestStep(w, ok, version), home)
  {
    if w.request.Unstaging? || w.request.Deactivating? {
      UnstagingKeepsInv(w, home, ok, version);
    } else if w.request.Rejecting? || w.request.Dropping? || w.request.Unlinking? {
      ClosingRequestKeepsInv(w, home, ok, version);
    } else if w.request.Claiming? || w.request.Requesting? || w.request.Launching? || w.request.Withdrawing? {
      InstallRequestKeepsInv(w, home, ok, version);
    } else {
      ValidationKeepsInv(w, home, ok, version);
    }
  }

  lemma HolderStepKeepsInv(w: World, home: Copy, ok: bool, version: string)
    requires Inv(w, home) && !w.holder.Free?
    ensures Inv(Apply(w, Advance(ok, version)), home)
  {
    if w.holder.Checking? || w.holder.Noting? || w.holder.Backing? {
      CheckStepKeepsInv(w, home, ok);
    } else if Early(w.holder) {
      WriteStepKeepsInv(w, home, ok);
    } else if w.holder.Syncing? || w.holder.Selecting? || w.holder.Selected? {
      StagedStepKeepsInv(w, home, ok);
    } else if w.holder.Flashed? || w.holder.SaveLost? {
      FlashedStepKeepsInv(w, home, ok);
    } else if Installer(w.holder) {
      FailStepKeepsInv(w, home, ok);
    } else if w.holder.Opening? || w.holder.Judging? || w.holder.Passing? {
      JudgeStepKeepsInv(w, home, ok, version);
    } else {
      CloseStepKeepsInv(w, home, ok, version);
    }
  }

  lemma RebootKeepsInv(w: World, home: Copy, a: Action)
    requires Inv(w, home) && Enabled(w, a) && (a.StartReboot? || a.AdvanceReboot? || a.Progress?)
    ensures Inv(Apply(w, a), home)
  {
  }

  lemma DeathKeepsInv(w: World, home: Copy, v: Victim)
    requires Inv(w, home)
    ensures Inv(Apply(w, Kill(v)), home)
  {
  }

  lemma BootKeepsInv(w: World, home: Copy)
    requires Inv(w, home)
    ensures Inv(Apply(w, PowerCycle), home)
  {
  }

  /** Every step but one keeps the invariant: a request must not save a stale copy of an open job over a staged one. */
  lemma StepKeepsInv(w: World, home: Copy, a: Action)
    requires Inv(w, home) && Enabled(w, a) && !Reopens(w, home, a)
    ensures Inv(Apply(w, a), home)
  {
    match a
    case StartInstall(_) => StartKeepsInv(w, home);
    case StartVerify => StartKeepsInv(w, home);
    case Advance(ok, version) => HolderStepKeepsInv(w, home, ok, version);
    case StartRequest(kind) => RequestStartKeepsInv(w, home, kind);
    case AdvanceRequest(ok, version) => RequestStepKeepsInv(w, home, ok, version);
    case Kill(v) => DeathKeepsInv(w, home, v);
    case PowerCycle => BootKeepsInv(w, home);
    case _ => RebootKeepsInv(w, home, a);
  }
}
