/**
 * The host link as a machine shared by its threads: the thread that feeds bytes, the thread that
 * polls, any number of threads in a blocking request, and asynchronous requests. One action is one
 * critical section, allocation or release of the C code. Payload buffers are numbered by the
 * allocator; a release of a buffer that is not live raises `fault`.
 */
module HostLinkSession {
  import opened Options

  type Buffer = nat
  type Token = nat

  const ID_RANGE := 0x1_0000

  /** A frame in transit. `origin` is the allocation number of the request it answers. */
  datatype Msg = Msg(payload: Option<Buffer>, id: nat, cmd: nat, response: bool, origin: nat)

  /** An asynchronous request that waits. `number` is the allocation number its id comes from. */
  datatype Pending = Pending(token: Token, id: nat, cmd: nat, number: nat)

  datatype Link = Link(
    ready: bool,
    nextBuffer: nat,              // allocator
    live: set<Buffer>,
    fault: bool,
    pend: Option<Buffer>,         // parser's payload buffer
    inflight: Option<Msg>,        // local frame of the feeding thread
    notify: seq<Option<Msg>>,
    ack: seq<Option<Msg>>,
    polled: Option<Msg>,          // local frame of the polling thread
    taken: seq<Option<Msg>>,      // local acknowledgement of each blocking thread
    attempt: seq<nat>,            // allocation number each blocking thread waits for
    given: multiset<Buffer>,      // handed to a caller or callback, which releases it
    allocs: nat,                  // frame ids allocated so far
    async: seq<Option<Pending>>,
    asked: set<Token>,            // asynchronous requests that obtained a slot
    sending: map<Token, nat>,     // asynchronous sends under way, with their slot
    calls: multiset<Token>)       // callbacks made

  datatype Action =
    | AllocPend
    | DropPend
    | CopyOut(withPayload: bool, id: nat, cmd: nat, response: bool, origin: nat)
    | FreeRaw
    | DealNotify(slot: nat)
    | DealAck(slot: nat)
    | DealAsync(slot: nat)
    | DealFailed
    | PollTake(slot: nat)
    | PollFree
    | ExpireAck(slot: nat)
    | TimeoutAsync(slot: nat)
    | AllocId(thread: nat)
    | TakeAck(thread: nat, slot: nat, cmd: nat)
    | TakeEventAck(thread: nat, slot: nat, cmd: nat)
    | HandOver(thread: nat)
    | Discard(thread: nat)
    | UserFree(buffer: Buffer)
    | Claim(slot: nat, token: Token, cmd: nat)
    | SendOk(token: Token)
    | SendFail(token: Token)

  function Own(m: Option<Msg>, b: Buffer): nat {
    if m.Some? && m.value.payload == Some(b) then 1 else 0
  }

  function OwnAll(slots: seq<Option<Msg>>, b: Buffer): nat {
    if slots == [] then 0 else OwnAll(slots[..|slots| - 1], b) + Own(slots[|slots| - 1], b)
  }

  /** How many places own `b`: parser, feeding thread, tables, polling thread, waiting threads, users. */
  function Owners(s: Link, b: Buffer): nat {
    (if s.pend == Some(b) then 1 else 0) + Own(s.inflight, b) + OwnAll(s.notify, b) + OwnAll(s.ack, b)
    + Own(s.polled, b) + OwnAll(s.taken, b) + s.given[b]
  }

  function Free(s: Link, b: Option<Buffer>): Link {
    if b.None? then s else s.(live := s.live - {b.value}, fault := s.fault || b.value !in s.live)
  }

  function Handed(m: Option<Msg>): multiset<Buffer> {
    if m.Some? && m.value.payload.Some? then multiset{m.value.payload.value} else multiset{}
  }

  predicate Full(slots: seq<Option<Msg>>, i: nat) {
    i < |slots| && slots[i].Some?
  }

  predicate Empty(slots: seq<Option<Msg>>, i: nat) {
    i < |slots| && slots[i].None?
  }

  predicate Enabled(s: Link, a: Action) {
    s.ready &&
    match a
    case AllocPend => s.pend.None? && s.inflight.None?
    case DropPend => s.pend.Some? && s.inflight.None?
    case CopyOut(_, id, _, response, origin) =>
      s.pend.Some? && s.inflight.None? && (response ==> origin < s.allocs && id == origin % ID_RANGE)
    case FreeRaw => s.pend.Some? && s.inflight.Some?
    case DealNotify(i) => s.pend.None? && s.inflight.Some? && Empty(s.notify, i)
    case DealAck(i) => s.pend.None? && s.inflight.Some? && Empty(s.ack, i)
    case DealAsync(i) =>
      && s.pend.None? && s.inflight.Some? && s.inflight.value.response
      && i < |s.async| && s.async[i].Some?
      && s.async[i].value.id == s.inflight.value.id && s.async[i].value.cmd == s.inflight.value.cmd
    case DealFailed => s.pend.None? && s.inflight.Some?
    case PollTake(i) => s.polled.None? && Full(s.notify, i)
    case PollFree => s.polled.Some?
    case ExpireAck(i) => Full(s.ack, i)
    case TimeoutAsync(i) => i < |s.async| && s.async[i].Some?
    case AllocId(t) => t < |s.taken| && t < |s.attempt| && s.taken[t].None?
    case TakeAck(t, i, cmd) =>
      && Empty(s.taken, t) && Full(s.ack, i) && t < |s.attempt| && s.attempt[t] < s.allocs
      && var m := s.ack[i].value; m.response && m.id == s.attempt[t] % ID_RANGE && m.cmd == cmd
    case TakeEventAck(t, i, cmd) =>
      && Empty(s.taken, t) && Full(s.ack, i) && t < |s.attempt| && s.attempt[t] < s.allocs
      && var m := s.ack[i].value; !m.response && m.id == s.attempt[t] % ID_RANGE && m.cmd == cmd
    case HandOver(t) => Full(s.taken, t) && s.taken[t].value.payload.Some?
    case Discard(t) => Full(s.taken, t)
    case UserFree(b) => b in s.given
    case Claim(i, token, cmd) =>
      i < |s.async| && s.async[i].None? && token !in s.asked
    case SendOk(token) => token in s.sending
    case SendFail(token) => token in s.sending && s.sending[token] < |s.async|
  }

  function Apply(s: Link, a: Action): Link
    requires Enabled(s, a)
  {
    match a
    case AllocPend =>
      s.(nextBuffer := s.nextBuffer + 1, live := s.live + {s.nextBuffer}, pend := Some(s.nextBuffer))
    case DropPend => Free(s, s.pend).(pend := None)
    case CopyOut(withPayload, id, cmd, response, origin) =>
      if withPayload then
        s.(nextBuffer := s.nextBuffer + 1, live := s.live + {s.nextBuffer},
           inflight := Some(Msg(Some(s.nextBuffer), id, cmd, response, origin)))
      else s.(inflight := Some(Msg(None, id, cmd, response, origin)))
    case FreeRaw => Free(s, s.pend).(pend := None)
    case DealNotify(i) => s.(notify := s.notify[i := s.inflight], inflight := None)
    case DealAck(i) => s.(ack := s.ack[i := s.inflight], inflight := None)
    case DealAsync(i) =>
      s.(calls := s.calls + multiset{s.async[i].value.token}, async := s.async[i := None],
         given := s.given + Handed(s.inflight), inflight := None)
    case DealFailed => Free(s, s.inflight.value.payload).(inflight := None)
    case PollTake(i) => s.(polled := s.notify[i], notify := s.notify[i := None])
    case PollFree => Free(s, s.polled.value.payload).(polled := None)
    case ExpireAck(i) => Free(s, s.ack[i].value.payload).(ack := s.ack[i := None])
    case TimeoutAsync(i) =>
      s.(calls := s.calls + multiset{s.async[i].value.token}, async := s.async[i := None])
    case AllocId(t) => s.(allocs := s.allocs + 1, attempt := s.attempt[t := s.allocs])
    case TakeAck(t, i, _) => s.(taken := s.taken[t := s.ack[i]], ack := s.ack[i := None])
    case TakeEventAck(t, i, _) => s.(taken := s.taken[t := s.ack[i]], ack := s.ack[i := None])
    case HandOver(t) => s.(given := s.given + Handed(s.taken[t]), taken := s.taken[t := None])
    case Discard(t) => Free(s, s.taken[t].value.payload).(taken := s.taken[t := None])
    case UserFree(b) => Free(s, Some(b)).(given := s.given - multiset{b})
    case Claim(i, token, cmd) =>
      s.(allocs := s.allocs + 1, async := s.async[i := Some(Pending(token, s.allocs % ID_RANGE, cmd, s.allocs))],
         asked := s.asked + {token}, sending := s.sending[token := i])
    case SendOk(token) => s.(sending := s.sending - {token})
    case SendFail(token) =>
      s.(async := s.async[s.sending[token] := None], sending := s.sending - {token},
         calls := s.calls + multiset{token})
  }

  // ----- Ownership

  /** Live buffers have exactly one owner, released ones none, and nothing was released twice. */
  ghost predicate OneOwnerEach(s: Link) {
    && !s.fault
    && (forall b :: Owners(s, b) == if b in s.live then 1 else 0)
    && (forall b :: b in s.live ==> b < s.nextBuffer)
  }

  lemma {:induction false} OwnAllUpdate(slots: seq<Option<Msg>>, i: nat, m: Option<Msg>, b: Buffer)
    requires i < |slots|
    ensures OwnAll(slots[i := m], b) + Own(slots[i], b) == OwnAll(slots, b) + Own(m, b)
  {
    var n := |slots| - 1;
    if i < n {
      OwnAllUpdate(slots[..n], i, m, b);
      assert slots[i := m][..n] == slots[..n][i := m];
    } else {
      assert slots[i := m][..n] == slots[..n];
    }
  }

  /** The buffer an action releases, if any. */
  function Released(s: Link, a: Action): Option<Buffer>
    requires Enabled(s, a)
  {
    match a
    case DropPend => s.pend
    case FreeRaw => s.pend
    case DealFailed => s.inflight.value.payload
    case PollFree => s.polled.value.payload
    case ExpireAck(i) => s.ack[i].value.payload
    case Discard(t) => s.taken[t].value.payload
    case UserFree(b) => Some(b)
    case _ => None
  }

  predicate Acquires(a: Action) {
    a.AllocPend? || (a.CopyOut? && a.withPayload)
  }

  ghost predicate Conserved(s: Link, a: Action, b: Buffer)
    requires Enabled(s, a)
  {
    Owners(Apply(s, a), b) + (if Released(s, a) == Some(b) then 1 else 0)
    == Owners(s, b) + (if Acquires(a) && b == s.nextBuffer then 1 else 0)
  }

  lemma FeedConserves(s: Link, a: Action, b: Buffer)
    requires Enabled(s, a) && (a.DealNotify? || a.DealAck? || a.DealAsync? || a.DealFailed?)
    ensures Conserved(s, a, b)
  {
    match a
    case DealNotify(i) => OwnAllUpdate(s.notify, i, s.inflight, b);
    case DealAck(i) => OwnAllUpdate(s.ack, i, s.inflight, b);
    case _ =>
  }

  lemma PollConserves(s: Link, a: Action, b: Buffer)
    requires Enabled(s, a) && (a.PollTake? || a.PollFree? || a.ExpireAck? || a.TimeoutAsync?)
    ensures Conserved(s, a, b)
  {
    match a
    case PollTake(i) => OwnAllUpdate(s.notify, i, None, b);
    case ExpireAck(i) => OwnAllUpdate(s.ack, i, None, b);
    case _ =>
  }

  lemma TakeConserves(s: Link, a: Action, b: Buffer)
    requires Enabled(s, a) && (a.TakeAck? || a.TakeEventAck?)
    ensures Conserved(s, a, b)
  {
    OwnAllUpdate(s.ack, a.slot, None, b);
    OwnAllUpdate(s.taken, a.thread, s.ack[a.slot], b);
  }

  lemma RequestConserves(s: Link, a: Action, b: Buffer)
    requires Enabled(s, a) && (a.AllocId? || a.TakeAck? || a.TakeEventAck? || a.HandOver? || a.Discard? || a.UserFree?)
    ensures Conserved(s, a, b)
  {
    match a
    case TakeAck(_, _, _) => TakeConserves(s, a, b);
    case TakeEventAck(_, _, _) => TakeConserves(s, a, b);
    case HandOver(t) => OwnAllUpdate(s.taken, t, None, b);
    case Discard(t) => OwnAllUpdate(s.taken, t, None, b);
    case _ =>
  }

  /** Conservation: an action changes a buffer's owner count only by acquiring or releasing it. */
  lemma OwnersConserved(s: Link, a: Action, b: Buffer)
    requires Enabled(s, a)
    ensures Conserved(s, a, b)
  {
    if a.DealNotify? || a.DealAck? || a.DealAsync? || a.DealFailed? {
      FeedConserves(s, a, b);
    } else if a.PollTake? || a.PollFree? || a.ExpireAck? || a.TimeoutAsync? {
      PollConserves(s, a, b);
    } else if a.AllocId? || a.TakeAck? || a.TakeEventAck? || a.HandOver? || a.Discard? || a.UserFree? {
      RequestConserves(s, a, b);
    }
  }

  /** The three sorts of actions: of the feeding thread, of the polling thread, and of requests. */
  predicate ByFeeder(a: Action) {
    || a.AllocPend? || a.DropPend? || a.CopyOut? || a.FreeRaw?
    || a.DealNotify? || a.DealAck? || a.DealAsync? || a.DealFailed?
  }

  predicate ByPoller(a: Action) {
    a.PollTake? || a.PollFree? || a.ExpireAck? || a.TimeoutAsync? || a.UserFree?
  }

  /** Releases and acquisitions show in the set of live buffers and in the fault flag, and nothing else does. */
  ghost predicate Accounted(s: Link, a: Action)
    requires Enabled(s, a)
  {
    var t := Apply(s, a);
    var r := Released(s, a);
    && (Acquires(a) ==> r == None)
    && t.live == (if r.Some? then s.live - {r.value} else if Acquires(a) then s.live + {s.nextBuffer} else s.live)
    && t.nextBuffer == s.nextBuffer + (if Acquires(a) then 1 else 0)
    && t.fault == (s.fault || (r.Some? && r.value !in s.live))
  }

  lemma FeederAccounted(s: Link, a: Action)
    requires Enabled(s, a) && ByFeeder(a)
    ensures Accounted(s, a)
  {}

  lemma PollerAccounted(s: Link, a: Action)
    requires Enabled(s, a) && ByPoller(a)
    ensures Accounted(s, a)
  {}

  lemma RequestAccounted(s: Link, a: Action)
    requires Enabled(s, a) && !ByFeeder(a) && !ByPoller(a)
    ensures Accounted(s, a)
  {}

  lemma LiveEffect(s: Link, a: Action)
    requires Enabled(s, a)
    ensures Accounted(s, a)
  {
    if ByFeeder(a) {
      FeederAccounted(s, a);
    } else if ByPoller(a) {
      PollerAccounted(s, a);
    } else {
      RequestAccounted(s, a);
    }
  }

  lemma ActionKeepsOwners(s: Link, a: Action)
    requires OneOwnerEach(s) && Enabled(s, a)
    ensures OneOwnerEach(Apply(s, a))
  {
    LiveEffect(s, a);
    var t, r := Apply(s, a), Released(s, a);
    if r.Some? {
      OwnersConserved(s, a, r.value);
      assert Conserved(s, a, r.value);
    }
    forall b
      ensures Owners(t, b) == if b in t.live then 1 else 0
    {
      OwnersConserved(s, a, b);
      assert Conserved(s, a, b);
    }
  }

  // ----- Runs

  ghost predicate Runnable(s: Link, run: seq<Action>)
    decreases |run|
  {
    run == [] || (Enabled(s, run[0]) && Runnable(Apply(s, run[0]), run[1..]))
  }

  function Exec(s: Link, run: seq<Action>): Link
    requires Runnable(s, run)
    decreases |run|
  {
    if run == [] then s else Exec(Apply(s, run[0]), run[1..])
  }

  function Nothing<T>(n: nat): (s: seq<Option<T>>)
    ensures |s| == n && forall i :: 0 <= i < n ==> s[i] == None
  {
    seq(n, i => None)
  }

  /** `host_link_init`, with the three table sizes and the number of threads that make blocking requests. */
  function Init(notifyDepth: nat, ackSlots: nat, asyncMax: nat, threads: nat): Link {
    Link(true, 0, {}, false, None, None, Nothing(notifyDepth), Nothing(ackSlots), None, Nothing(threads),
         seq(threads, i => 0), multiset{}, 0, Nothing(asyncMax), {}, map[], multiset{})
  }

  lemma {:induction false} OwnNothing(n: nat, b: Buffer)
    ensures OwnAll(Nothing(n), b) == 0
  {
    if n != 0 {
      assert Nothing<Msg>(n)[..n - 1] == Nothing(n - 1);
      OwnNothing(n - 1, b);
    }
  }

  /** Over every interleaving each live payload has exactly one owner and none is released twice. */
  lemma {:induction false} RunKeepsOwners(s: Link, run: seq<Action>)
    requires OneOwnerEach(s) && Runnable(s, run)
    ensures OneOwnerEach(Exec(s, run))
    decreases |run|
  {
    if run != [] {
      ActionKeepsOwners(s, run[0]);
      RunKeepsOwners(Apply(s, run[0]), run[1..]);
    }
  }

  lemma InitOwnsNothing(notifyDepth: nat, ackSlots: nat, asyncMax: nat, threads: nat)
    ensures OneOwnerEach(Init(notifyDepth, ackSlots, asyncMax, threads))
  {
    var s := Init(notifyDepth, ackSlots, asyncMax, threads);
    forall b
      ensures Owners(s, b) == 0
    {
      OwnNothing(notifyDepth, b);
      OwnNothing(ackSlots, b);
      OwnNothing(threads, b);
    }
  }

  // ----- Shutting down

  /** No thread is between two of its own steps. */
  predicate Quiescent(s: Link) {
    s.inflight.None? && s.polled.None? && (forall t :: 0 <= t < |s.taken| ==> s.taken[t].None?) && s.sending == map[]
  }

  function FreeTable(s: Link, slots: seq<Option<Msg>>): Link {
    if slots == [] then s
    else
      var n := |slots| - 1;
      var r := FreeTable(s, slots[..n]);
      if slots[n].Some? then Free(r, slots[n].value.payload) else r
  }

  function Deinit(s: Link): Link {
    Free(FreeTable(FreeTable(s, s.notify), s.ack), s.pend)
    .(ready := false, notify := Nothing(|s.notify|), ack := Nothing(|s.ack|), pend := None, async := Nothing(|s.async|))
  }

  lemma {:induction false} FreeTableFreesOnce(s: Link, slots: seq<Option<Msg>>)
    requires !s.fault
    requires forall b :: OwnAll(slots, b) <= if b in s.live then 1 else 0
    ensures var t := FreeTable(s, slots);
            !t.fault && forall b :: b in t.live <==> b in s.live && OwnAll(slots, b) == 0
  {
    if slots != [] {
      var n := |slots| - 1;
      forall b
        ensures OwnAll(slots[..n], b) <= OwnAll(slots, b)
      {}
      FreeTableFreesOnce(s, slots[..n]);
      if slots[n].Some? && slots[n].value.payload.Some? {
        var p := slots[n].value.payload.value;
        assert OwnAll(slots, p) == OwnAll(slots[..n], p) + 1;
      }
    }
  }

  lemma {:induction false} FreeTableFrame(s: Link, slots: seq<Option<Msg>>)
    ensures var t := FreeTable(s, slots); t == s.(live := t.live, fault := t.fault)
  {
    if slots != [] {
      FreeTableFrame(s, slots[..|slots| - 1]);
    }
  }

  lemma {:induction false} OwnNone(slots: seq<Option<Msg>>, b: Buffer)
    requires forall t :: 0 <= t < |slots| ==> slots[t].None?
    ensures OwnAll(slots, b) == 0
  {
    if slots != [] {
      OwnNone(slots[..|slots| - 1], b);
    }
  }

  lemma QuietOwners(s: Link, b: Buffer)
    requires Quiescent(s)
    ensures Owners(s, b) == OwnAll(s.notify, b) + OwnAll(s.ack, b) + (if s.pend == Some(b) then 1 else 0) + s.given[b]
  {
    OwnNone(s.taken, b);
  }

  /** The final deinit releases everything the link owns, once: what stays live was handed out. */
  lemma DeinitLeavesOnlyHandedOut(s: Link)
    requires OneOwnerEach(s) && Quiescent(s)
    ensures var t := Deinit(s);
            !t.fault && forall b :: (b in t.live <==> s.given[b] == 1) && Owners(t, b) == s.given[b]
  {
    var s1 := FreeTable(s, s.notify);
    var s2 := FreeTable(s1, s.ack);
    forall b
      ensures Owners(s, b) == OwnAll(s.notify, b) + OwnAll(s.ack, b) + (if s.pend == Some(b) then 1 else 0) + s.given[b]
    {
      QuietOwners(s, b);
    }
    FreeTableFrame(s, s.notify);
    FreeTableFrame(s1, s.ack);
    forall b
      ensures OwnAll(s.notify, b) <= if b in s.live then 1 else 0
    {
      assert Owners(s, b) == if b in s.live then 1 else 0;
    }
    FreeTableFreesOnce(s, s.notify);
    forall b
      ensures OwnAll(s.ack, b) <= if b in s1.live then 1 else 0
    {
      assert Owners(s, b) == if b in s.live then 1 else 0;
    }
    FreeTableFreesOnce(s1, s.ack);
    if s.pend.Some? {
      assert Owners(s, s.pend.value) == if s.pend.value in s.live then 1 else 0;
    }
    forall b
      ensures (b in Deinit(s).live <==> s.given[b] == 1) && Owners(Deinit(s), b) == s.given[b]
    {
      assert Owners(s, b) == if b in s.live then 1 else 0;
      OwnNothing(|s.notify|, b);
      OwnNothing(|s.ack|, b);
      OwnNone(s.taken, b);
    }
  }

  // ----- Asynchronous requests are called back exactly once

  function Holds(p: Option<Pending>, token: Token): nat {
    if p.Some? && p.value.token == token then 1 else 0
  }

  function Holding(async: seq<Option<Pending>>, token: Token): nat {
    if async == [] then 0
    else Holding(async[..|async| - 1], token) + Holds(async[|async| - 1], token)
  }

  lemma {:induction false} HoldingUpdate(async: seq<Option<Pending>>, i: nat, p: Option<Pending>, token: Token)
    requires i < |async|
    ensures Holding(async[i := p], token) + Holds(async[i], token) == Holding(async, token) + Holds(p, token)
  {
    var n := |async| - 1;
    if i < n {
      HoldingUpdate(async[..n], i, p, token);
      assert async[i := p][..n] == async[..n][i := p];
    } else {
      assert async[i := p][..n] == async[..n];
    }
  }

  /** The slots that hold the token's request and the callbacks made for it, together, are one for each asked token. */
  ghost predicate CountsOnce(s: Link, token: Token) {
    Holding(s.async, token) + s.calls[token] == if token in s.asked then 1 else 0
  }

  /** Every request that obtained a slot either waits in one slot or has been called back once. */
  ghost predicate ExactlyOnce(s: Link) {
    forall token :: CountsOnce(s, token)
  }

  ghost predicate SendsWereAsked(s: Link) {
    forall token :: token in s.sending ==> token in s.asked && s.sending[token] < |s.async|
  }

  /** A send that fails after its slot was already answered or timed out. */
  predicate LateFailure(s: Link, a: Action)
    requires Enabled(s, a)
  {
    a.SendFail? && Holds(s.async[s.sending[a.token]], a.token) == 0
  }

  lemma FeederCountsOnce(s: Link, a: Action, token: Token)
    requires Enabled(s, a) && ByFeeder(a) && CountsOnce(s, token)
    ensures CountsOnce(Apply(s, a), token)
  {
    if a.DealAsync? {
      HoldingUpdate(s.async, a.slot, None, token);
    }
  }

  lemma PollerCountsOnce(s: Link, a: Action, token: Token)
    requires Enabled(s, a) && ByPoller(a) && CountsOnce(s, token)
    ensures CountsOnce(Apply(s, a), token)
  {
    if a.TimeoutAsync? {
      HoldingUpdate(s.async, a.slot, None, token);
    }
  }

  lemma CallbackCount(s: Link, a: Action, token: Token)
    requires Enabled(s, a) && ExactlyOnce(s) && SendsWereAsked(s) && !LateFailure(s, a)
    ensures CountsOnce(Apply(s, a), token)
  {
    assert CountsOnce(s, token);
    if ByFeeder(a) {
      FeederCountsOnce(s, a, token);
    } else if ByPoller(a) {
      PollerCountsOnce(s, a, token);
    } else {
      RequestCountsOnce(s, a, token);
    }
  }

  lemma RequestCountsOnce(s: Link, a: Action, token: Token)
    requires Enabled(s, a) && !ByFeeder(a) && !ByPoller(a) && ExactlyOnce(s) && SendsWereAsked(s) && !LateFailure(s, a)
    ensures CountsOnce(Apply(s, a), token)
  {
    assert CountsOnce(s, token);
    match a
    case Claim(i, _, _) => HoldingUpdate(s.async, i, Apply(s, a).async[i], token);
    case SendFail(k) => HoldingUpdate(s.async, s.sending[k], None, token);
    case _ =>
  }

  lemma LateFailureCallsTwice(s: Link, a: Action)
    requires Enabled(s, a) && ExactlyOnce(s) && SendsWereAsked(s) && LateFailure(s, a)
    ensures !ExactlyOnce(Apply(s, a))
  {
    var t := Apply(s, a);
    var i := s.sending[a.token];
    HoldingUpdate(s.async, i, None, a.token);
    assert CountsOnce(s, a.token);
    assert Holding(s.async, a.token) + s.calls[a.token] == 1;
    assert Holding(t.async, a.token) + t.calls[a.token] == 2;
    assert !CountsOnce(t, a.token);
  }

  lemma SendsStayAsked(s: Link, a: Action)
    requires Enabled(s, a) && SendsWereAsked(s)
    ensures SendsWereAsked(Apply(s, a))
  {
    if ByFeeder(a) {
      FeederStaysAsked(s, a);
    } else if ByPoller(a) {
      PollerStaysAsked(s, a);
    } else {
      RequestsStayAsked(s, a);
    }
  }

  lemma FeederStaysAsked(s: Link, a: Action)
    requires Enabled(s, a) && ByFeeder(a) && SendsWereAsked(s)
    ensures SendsWereAsked(Apply(s, a))
  {}

  lemma PollerStaysAsked(s: Link, a: Action)
    requires Enabled(s, a) && ByPoller(a) && SendsWereAsked(s)
    ensures SendsWereAsked(Apply(s, a))
  {}

  lemma RequestsStayAsked(s: Link, a: Action)
    requires Enabled(s, a) && !ByFeeder(a) && !ByPoller(a) && SendsWereAsked(s)
    ensures SendsWereAsked(Apply(s, a))
  {}

  ghost predicate AlwaysExactlyOnce(s: Link, run: seq<Action>)
    requires Runnable(s, run)
    decreases |run|
  {
    ExactlyOnce(s) && (run != [] ==> AlwaysExactlyOnce(Apply(s, run[0]), run[1..]))
  }

  ghost predicate NeverLate(s: Link, run: seq<Action>)
    requires Runnable(s, run)
    decreases |run|
  {
    run != [] ==> !LateFailure(s, run[0]) && NeverLate(Apply(s, run[0]), run[1..])
  }

  /** Callbacks are exactly-once throughout a run precisely when no send fails late in it. */
  lemma {:induction false} ExactlyOnceIffNeverLate(s: Link, run: seq<Action>)
    requires Runnable(s, run) && ExactlyOnce(s) && SendsWereAsked(s)
    ensures AlwaysExactlyOnce(s, run) <==> NeverLate(s, run)
    decreases |run|
  {
    if run != [] {
      var a := run[0];
      SendsStayAsked(s, a);
      if LateFailure(s, a) {
        LateFailureCallsTwice(s, a);
        assert !AlwaysExactlyOnce(Apply(s, a), run[1..]);
      } else {
        forall token
          ensures CountsOnce(Apply(s, a), token)
        {
          CallbackCount(s, a, token);
        }
        ExactlyOnceIffNeverLate(Apply(s, a), run[1..]);
      }
    }
  }

  lemma RunStep(s: Link, a: Action, rest: seq<Action>)
    requires Enabled(s, a) && Runnable(Apply(s, a), rest)
    ensures Runnable(s, [a] + rest) && Exec(s, [a] + rest) == Exec(Apply(s, a), rest)
  {
    assert ([a] + rest)[1..] == rest;
  }

  /** No asynchronous request waits. */
  predicate TableEmpty(s: Link) {
    forall i :: 0 <= i < |s.async| ==> s.async[i].None?
  }

  lemma {:induction false} NeverLateKeepsOnce(s: Link, run: seq<Action>)
    requires Runnable(s, run) && AlwaysExactlyOnce(s, run)
    ensures ExactlyOnce(Exec(s, run))
    decreases |run|
  {
    if run != [] {
      NeverLateKeepsOnce(Apply(s, run[0]), run[1..]);
    }
  }

  /** Once no request waits any more, each request that obtained a slot has been called back exactly once. */
  lemma SweptIsCalledOnce(s: Link, run: seq<Action>, token: Token)
    requires Runnable(s, run) && ExactlyOnce(s) && SendsWereAsked(s) && NeverLate(s, run) && TableEmpty(Exec(s, run))
    ensures Exec(s, run).calls[token] == if token in Exec(s, run).asked then 1 else 0
  {
    ExactlyOnceIffNeverLate(s, run);
    NeverLateKeepsOnce(s, run);
    assert CountsOnce(Exec(s, run), token);
    HoldingNothing(Exec(s, run).async, token);
  }

  /** The timeouts of the first `n` slots empty them and ask for nothing; none of them is late. */
  lemma {:induction false} TimeoutsSweep(s: Link, n: nat) returns (run: seq<Action>)
    requires s.ready && n <= |s.async|
    ensures Runnable(s, run) && NeverLate(s, run) && forall a :: a in run ==> a.TimeoutAsync?
    ensures var t := Exec(s, run);
      && t.asked == s.asked && |t.async| == |s.async|
      && (forall i :: 0 <= i < |s.async| ==> t.async[i] == if i < n then None else s.async[i])
    decreases n
  {
    if n == 0 {
      run := [];
    } else if s.async[n - 1].None? {
      run := TimeoutsSweep(s, n - 1);
    } else {
      var a := TimeoutAsync(n - 1);
      var rest := TimeoutsSweep(Apply(s, a), n - 1);
      RunStep(s, a, rest);
      run := [a] + rest;
      assert run[1..] == rest;
    }
  }

  /** So a sweep of timeouts over the whole table leaves every request called back exactly once. */
  lemma SweepCallsEachOnce(s: Link) returns (run: seq<Action>)
    requires s.ready && ExactlyOnce(s) && SendsWereAsked(s)
    ensures Runnable(s, run) && forall a :: a in run ==> a.TimeoutAsync?
    ensures forall token :: Exec(s, run).calls[token] == if token in s.asked then 1 else 0
  {
    run := TimeoutsSweep(s, |s.async|);
    forall token
      ensures Exec(s, run).calls[token] == if token in s.asked then 1 else 0
    {
      SweptIsCalledOnce(s, run, token);
    }
  }

  /**
   * A late failure happens: request 7 is answered before its send returns, its slot is reused by request 8, and the
   * send then returns an error. Its error path calls 7 a second time and silently drops 8.
   */
  lemma LateFailureWitness() returns (run: seq<Action>)
    ensures Runnable(Init(16, 8, 4, 1), run)
    ensures var s := Exec(Init(16, 8, 4, 1), run);
            s.calls[7] == 2 && 8 in s.asked && s.calls[8] == 0 && Holding(s.async, 8) == 0
  {
    var s0 := Init(16, 8, 4, 1);
    var t := Apply(s0, Claim(0, 7, 5));
    var answer, u := Answered(s0, t);
    var rest := LateFailureStrikes(s0, u);
    RunConcat(t, answer, rest);
    RunStep(s0, Claim(0, 7, 5), answer + rest);
    run := [Claim(0, 7, 5)] + (answer + rest);
  }

  lemma {:induction false} RunConcat(s: Link, run: seq<Action>, more: seq<Action>)
    requires Runnable(s, run) && Runnable(Exec(s, run), more)
    ensures Runnable(s, run + more) && Exec(s, run + more) == Exec(Exec(s, run), more)
    decreases |run|
  {
    if run == [] {
      assert run + more == more;
    } else {
      assert (run + more)[1..] == run[1..] + more;
      RunConcat(Apply(s, run[0]), run[1..], more);
    }
  }

  /** The answer to request 7 arrives and is dealt out. */
  lemma Answered(s: Link, t: Link) returns (run: seq<Action>, u: Link)
    requires s == Init(16, 8, 4, 1) && Enabled(s, Claim(0, 7, 5)) && t == Apply(s, Claim(0, 7, 5))
    ensures Runnable(t, run) && u == Exec(t, run)
    ensures u == s.(nextBuffer := 1, allocs := 1, asked := {7}, sending := map[7 := 0], calls := multiset{7})
  {
    var t1 := Apply(t, AllocPend);
    var t2 := Apply(t1, CopyOut(false, 0, 5, true, 0));
    var t3 := Apply(t2, FreeRaw);
    RunStep(t3, DealAsync(0), []);
    RunStep(t2, FreeRaw, [DealAsync(0)] + []);
    RunStep(t1, CopyOut(false, 0, 5, true, 0), [FreeRaw] + ([DealAsync(0)] + []));
    RunStep(t, AllocPend, [CopyOut(false, 0, 5, true, 0)] + ([FreeRaw] + ([DealAsync(0)] + [])));
    run := [AllocPend] + ([CopyOut(false, 0, 5, true, 0)] + ([FreeRaw] + ([DealAsync(0)] + [])));
    u := Apply(t3, DealAsync(0));
    assert u.async == s.async;
    assert u.live == s.live;
  }

  lemma LateFailureStrikes(s: Link, t: Link) returns (rest: seq<Action>)
    requires s == Init(16, 8, 4, 1)
    requires t == s.(nextBuffer := 1, allocs := 1, asked := {7}, sending := map[7 := 0], calls := multiset{7})
    ensures Runnable(t, rest)
    ensures var u := Exec(t, rest); u.calls[7] == 2 && 8 in u.asked && u.calls[8] == 0 && Holding(u.async, 8) == 0
  {
    var u := Apply(t, Claim(0, 8, 5));
    assert u.sending[7] == 0;
    RunStep(u, SendFail(7), []);
    RunStep(t, Claim(0, 8, 5), [SendFail(7)] + []);
    HoldingNothing(Apply(u, SendFail(7)).async, 8);
    rest := [Claim(0, 8, 5)] + ([SendFail(7)] + []);
  }

  lemma {:induction false} HoldingNothing(async: seq<Option<Pending>>, token: Token)
    requires forall i :: 0 <= i < |async| ==> async[i].None?
    ensures Holding(async, token) == 0
  {
    if async != [] {
      HoldingNothing(async[..|async| - 1], token);
    }
  }

  // ----- Blocking requests and stale answers

  predicate FromTheWire(m: Option<Msg>, allocs: nat) {
    m.Some? && m.value.response ==> m.value.origin < allocs && m.value.id == m.value.origin % ID_RANGE
  }

  /** Answers echo the id of a request that was sent. */
  ghost predicate AnswersEcho(s: Link) {
    FromTheWire(s.inflight, s.allocs) && forall i :: 0 <= i < |s.ack| ==> FromTheWire(s.ack[i], s.allocs)
  }

  lemma FeederKeepsEcho(s: Link, a: Action)
    requires Enabled(s, a) && ByFeeder(a) && AnswersEcho(s)
    ensures AnswersEcho(Apply(s, a))
  {}

  lemma OthersKeepEcho(s: Link, a: Action)
    requires Enabled(s, a) && !ByFeeder(a) && AnswersEcho(s)
    ensures AnswersEcho(Apply(s, a))
  {}

  lemma ActionKeepsEcho(s: Link, a: Action)
    requires Enabled(s, a) && AnswersEcho(s)
    ensures AnswersEcho(Apply(s, a))
  {
    if ByFeeder(a) {
      FeederKeepsEcho(s, a);
    } else {
      OthersKeepEcho(s, a);
    }
  }

  lemma {:induction false} RunKeepsEcho(s: Link, run: seq<Action>)
    requires Runnable(s, run) && AnswersEcho(s)
    ensures AnswersEcho(Exec(s, run))
    decreases |run|
  {
    if run != [] {
      ActionKeepsEcho(s, run[0]);
      RunKeepsEcho(Apply(s, run[0]), run[1..]);
    }
  }

  /**
   * After any run, a waiting thread that takes an answer takes its own, unless 65536 or more ids
   * have been allocated since the request that answer belongs to.
   */
  lemma NoStaleAnswer(notifyDepth: nat, ackSlots: nat, asyncMax: nat, threads: nat,
                      run: seq<Action>, t: nat, i: nat, cmd: nat)
    requires Runnable(Init(notifyDepth, ackSlots, asyncMax, threads), run)
    requires Enabled(Exec(Init(notifyDepth, ackSlots, asyncMax, threads), run), TakeAck(t, i, cmd))
    ensures var s := Exec(Init(notifyDepth, ackSlots, asyncMax, threads), run); var origin := s.ack[i].value.origin;
            && (origin < s.attempt[t] ==> s.allocs - 1 - origin >= ID_RANGE)
            && (origin > s.attempt[t] ==> origin - s.attempt[t] >= ID_RANGE)
  {
    var s0 := Init(notifyDepth, ackSlots, asyncMax, threads);
    RunKeepsEcho(s0, run);
    var s := Exec(s0, run);
    var m, a := s.ack[i].value, s.attempt[t];
    assert FromTheWire(s.ack[i], s.allocs);
    if m.origin != a {
      SameResidue(m.origin, a);
    }
  }

  /** The ids of waiting requests come from their allocation numbers. */
  ghost predicate WaitsById(s: Link) {
    forall i :: 0 <= i < |s.async| && s.async[i].Some? ==>
      s.async[i].value.number < s.allocs && s.async[i].value.id == s.async[i].value.number % ID_RANGE
  }

  lemma FeederKeepsIds(s: Link, a: Action)
    requires Enabled(s, a) && ByFeeder(a) && WaitsById(s)
    ensures WaitsById(Apply(s, a))
  {}

  lemma OthersKeepIds(s: Link, a: Action)
    requires Enabled(s, a) && !ByFeeder(a) && WaitsById(s)
    ensures WaitsById(Apply(s, a))
  {}

  lemma {:induction false} RunKeepsIds(s: Link, run: seq<Action>)
    requires Runnable(s, run) && WaitsById(s)
    ensures WaitsById(Exec(s, run))
    decreases |run|
  {
    if run != [] {
      if ByFeeder(run[0]) {
        FeederKeepsIds(s, run[0]);
      } else {
        OthersKeepIds(s, run[0]);
      }
      RunKeepsIds(Apply(s, run[0]), run[1..]);
    }
  }

  /**
   * After any run, an asynchronous request that is called back with an answer gets its own, unless 65536 or more ids
   * were allocated between its own request and the one that answer belongs to.
   */
  lemma NoStaleCallback(notifyDepth: nat, ackSlots: nat, asyncMax: nat, threads: nat, run: seq<Action>, i: nat)
    requires Runnable(Init(notifyDepth, ackSlots, asyncMax, threads), run)
    requires Enabled(Exec(Init(notifyDepth, ackSlots, asyncMax, threads), run), DealAsync(i))
    ensures var s := Exec(Init(notifyDepth, ackSlots, asyncMax, threads), run);
      var origin, number := s.inflight.value.origin, s.async[i].value.number;
      && (origin < number ==> number - origin >= ID_RANGE)
      && (origin > number ==> origin - number >= ID_RANGE)
  {
    var s0 := Init(notifyDepth, ackSlots, asyncMax, threads);
    RunKeepsEcho(s0, run);
    RunKeepsIds(s0, run);
    var s := Exec(s0, run);
    var origin, number := s.inflight.value.origin, s.async[i].value.number;
    assert FromTheWire(s.inflight, s.allocs);
    if origin != number {
      SameResidue(origin, number);
    }
  }

  lemma SameResidue(x: nat, y: nat)
    requires x % ID_RANGE == y % ID_RANGE && x != y
    ensures x - y >= ID_RANGE || y - x >= ID_RANGE
  {}
}
