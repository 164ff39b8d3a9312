/**
 * The host link handler in its own form: a header buffer, a payload buffer allocated per frame,
 * counters, and the notify, acknowledgement and asynchronous slot tables. Every method is tied to
 * the parser of `HostLinkWire` and to `Deal`, the routing of one finished frame.
 */
module HostLinkHandler {
  import opened Bits
  import opened Options
  import opened HostLinkWire
  import Crc16

  const NOTIFY_DEPTH := 16
  const ACK_SLOTS := 8
  const ASYNC_MAX := 4

  /** `token` stands for the callback and its user data. */
  datatype AsyncSlot = AsyncSlot(used: bool, id: word, cmd: word, token: nat)

  datatype Call = Call(token: nat, payload: seq<byte>)

  datatype Tables = Tables(ready: bool, notify: seq<Option<Frame>>, ack: seq<Option<Frame>>,
                           async: seq<AsyncSlot>, calls: seq<Call>)

  // ----- Routing on values

  /** The first empty slot, or the table's length when there is none. */
  function FirstEmpty(slots: seq<Option<Frame>>): (i: nat)
    ensures i <= |slots|
    ensures i < |slots| ==> slots[i].None?
    ensures forall k :: 0 <= k < i ==> slots[k].Some?
  {
    if slots == [] then 0 else if slots[0].None? then 0 else 1 + FirstEmpty(slots[1..])
  }

  predicate Answers(a: AsyncSlot, f: Frame) {
    a.used && a.id == f.header.frameId && a.cmd == f.header.cmd
  }

  function FirstAnswered(async: seq<AsyncSlot>, f: Frame): (i: nat)
    ensures i <= |async|
    ensures i < |async| ==> Answers(async[i], f)
    ensures forall k :: 0 <= k < i ==> !Answers(async[k], f)
  {
    if async == [] then 0 else if Answers(async[0], f) then 0 else 1 + FirstAnswered(async[1..], f)
  }

  function Put(slots: seq<Option<Frame>>, f: Frame): seq<Option<Frame>> {
    var i := FirstEmpty(slots);
    if i < |slots| then slots[i := Some(f)] else slots
  }

  function Deal(t: Tables, f: Frame): Tables {
    if !Accepted(f) || !t.ready then t
    else if f.header.typ == TYPE_REQUEST || f.header.typ == TYPE_EVENT then t.(notify := Put(t.notify, f))
    else
      var i := FirstAnswered(t.async, f);
      if f.header.typ == TYPE_RESPONSE && i < |t.async| then
        t.(async := t.async[i := t.async[i].(used := false)],
           calls := t.calls + [Call(t.async[i].token, f.payload)])
      else t.(ack := Put(t.ack, f))
  }

  function DealAll(t: Tables, frames: seq<Frame>): Tables
    decreases |frames|
  {
    if frames == [] then t else DealAll(Deal(t, frames[0]), frames[1..])
  }

  lemma {:induction false} DealMore(t: Tables, frames: seq<Frame>, f: Frame)
    ensures DealAll(t, frames + [f]) == Deal(DealAll(t, frames), f)
    decreases |frames|
  {
    if frames != [] {
      assert (frames + [f])[1..] == frames[1..] + [f];
      DealMore(Deal(t, frames[0]), frames[1..], f);
    }
  }

  /** The frames a table holds. */
  ghost function Stored(slots: seq<Option<Frame>>): multiset<Frame> {
    if slots == [] then multiset{} else Stored(slots[..|slots| - 1]) + InSlot(slots[|slots| - 1])
  }

  lemma {:induction false} StoredUpdate(slots: seq<Option<Frame>>, i: nat, f: Frame)
    requires i < |slots| && slots[i].None?
    ensures Stored(slots[i := Some(f)]) == Stored(slots) + multiset{f}
  {
    var n := |slots| - 1;
    var front, last := slots[..n], slots[n];
    UpdateParts(slots, i, Some(f));
    if i < n {
      StoredUpdate(front, i, f);
      OneMoreSlot(front, front[i := Some(f)], f, last);
    } else {
      LastSlot(front, f);
    }
  }

  lemma UpdateParts<T>(s: seq<T>, i: nat, x: T)
    requires i < |s|
    ensures var n := |s| - 1;
      && s == s[..n] + [s[n]]
      && s[i := x] == if i < n then s[..n][i := x] + [s[n]] else s[..n] + [x]
  {
  }

  lemma LastSlot(front: seq<Option<Frame>>, f: Frame)
    ensures Stored(front + [Some(f)]) == Stored(front + [None]) + multiset{f}
  {
    StoredLast(front, Some(f));
    StoredLast(front, None);
  }

  lemma OneMoreSlot(front: seq<Option<Frame>>, now: seq<Option<Frame>>, f: Frame, last: Option<Frame>)
    requires Stored(now) == Stored(front) + multiset{f}
    ensures Stored(now + [last]) == Stored(front + [last]) + multiset{f}
  {
    StoredLast(front, last);
    StoredLast(now, last);
  }

  /** The frame of one slot, if there is one. */
  ghost function InSlot(slot: Option<Frame>): multiset<Frame> {
    if slot.Some? then multiset{slot.value} else multiset{}
  }

  lemma StoredLast(front: seq<Option<Frame>>, last: Option<Frame>)
    ensures Stored(front + [last]) == Stored(front) + InSlot(last)
  {
    assert (front + [last])[..|front|] == front;
  }

  /**
   * An accepted frame with room for it ends up in exactly one place: one new entry in the table its
   * type selects, or one callback of the request it answers, whose slot becomes free.
   */
  lemma AcceptedFrameGoesToOnePlace(t: Tables, f: Frame)
    requires Accepted(f) && t.ready
    ensures var u := Deal(t, f); var typ := f.header.typ; var i := FirstAnswered(t.async, f);
            if typ == TYPE_REQUEST || typ == TYPE_EVENT then
              && u == t.(notify := u.notify)
              && Stored(u.notify) == Stored(t.notify) + (if None in t.notify then multiset{f} else multiset{})
            else if typ == TYPE_RESPONSE && i < |t.async| then
              u == t.(async := t.async[i := t.async[i].(used := false)],
                      calls := t.calls + [Call(t.async[i].token, f.payload)])
            else
              && u == t.(ack := u.ack)
              && Stored(u.ack) == Stored(t.ack) + (if None in t.ack then multiset{f} else multiset{})
  {
    PutStores(t.notify, f);
    PutStores(t.ack, f);
  }

  lemma PutStores(slots: seq<Option<Frame>>, f: Frame)
    ensures Stored(Put(slots, f)) == Stored(slots) + (if None in slots then multiset{f} else multiset{})
  {
    var i := FirstEmpty(slots);
    if i < |slots| {
      StoredUpdate(slots, i, f);
    }
  }

  // ----- The handler

  datatype Phase = PsSync0 | PsSync1 | PsHdr | PsPayload

  class Handler {
    var ready: bool
    var parseState: Phase
    var parseGot: nat
    const hdrRaw: array<byte>
    var pendHdr: Header
    var pendPayload: array?<byte>
    var pendPayNeed: nat
    const notifySlot: array<Option<Frame>>
    const ackSlot: array<Option<Frame>>
    const asyncSlot: array<AsyncSlot>
    var calls: seq<Call>

    /** No buffer index ever leaves its buffer, and the payload buffer never exceeds 514 bytes. */
    ghost predicate Valid()
      reads this, hdrRaw, pendPayload
    {
      && hdrRaw.Length == HEADER_WIRE_LEN
      && notifySlot != ackSlot && hdrRaw != pendPayload
      && (pendPayload != null <==> parseState == PsPayload)
      && (parseState == PsHdr ==> 2 <= parseGot < HEADER_WIRE_LEN && hdrRaw[0] == SYNC0 && hdrRaw[1] == SYNC1)
      && (parseState == PsPayload ==>
            && pendHdr.magic == MAGIC && pendHdr.len <= MAX_PAYLOAD
            && pendPayNeed == pendPayload.Length == pendHdr.len + 2
            && parseGot < pendPayNeed)
    }

    ghost function Abs(): (s: State)
      reads this, hdrRaw, pendPayload
      requires Valid()
      ensures ValidState(s)
    {
      match parseState
      case PsSync0 => HuntSync0
      case PsSync1 => HuntSync1
      case PsHdr => InHeader(hdrRaw[..parseGot])
      case PsPayload => InPayload(pendHdr, pendPayload[..parseGot])
    }

    ghost function Slots(): Tables
      reads this, notifySlot, ackSlot, asyncSlot
    {
      Tables(ready, notifySlot[..], ackSlot[..], asyncSlot[..], calls)
    }

    constructor ()
      ensures Valid() && Abs() == HuntSync0 && ready
      ensures fresh(hdrRaw) && fresh(notifySlot) && fresh(ackSlot) && fresh(asyncSlot)
      ensures Slots() == Tables(true, seq(NOTIFY_DEPTH, i => None), seq(ACK_SLOTS, i => None),
                                seq(ASYNC_MAX, i => AsyncSlot(false, 0, 0, 0)), [])
    {
      ready, parseState, parseGot := true, PsSync0, 0;
      hdrRaw := new byte[HEADER_WIRE_LEN](i => 0);
      pendHdr := Header(0, 0, 0, 0, 0, 0, 0, 0, 0);
      pendPayload, pendPayNeed := null, 0;
      notifySlot := new Option<Frame>[NOTIFY_DEPTH](i => None);
      ackSlot := new Option<Frame>[ACK_SLOTS](i => None);
      asyncSlot := new AsyncSlot[ASYNC_MAX](i => AsyncSlot(false, 0, 0, 0));
      calls := [];
    }

    method ParseReset()
      modifies this`parseState, this`parseGot, this`pendPayload, this`pendPayNeed, hdrRaw
      requires hdrRaw.Length == HEADER_WIRE_LEN && notifySlot != ackSlot
      ensures Valid() && Abs() == HuntSync0
    {
      parseState, parseGot := PsSync0, 0;
      pendPayload, pendPayNeed := null, 0;
      forall i | 0 <= i < HEADER_WIRE_LEN {
        hdrRaw[i] := 0;
      }
    }

    method AddNotifyFrame(f: Frame)
      requires notifySlot != ackSlot
      modifies notifySlot
      ensures notifySlot[..] == Put(old(notifySlot[..]), f)
    {
      var i := FindEmpty(notifySlot);
      if i < notifySlot.Length {
        notifySlot[i] := Some(f);
      }
    }

    method AddAckFrame(f: Frame)
      requires notifySlot != ackSlot
      requires Accepted(f) && ready && (f.header.typ == TYPE_RESPONSE || f.header.typ == TYPE_EVENT_ACK)
      modifies ackSlot, asyncSlot, this`calls
      ensures Slots() == Deal(old(Slots()), f)
    {
      if f.header.typ == TYPE_RESPONSE {
        var i := 0;
        while i < asyncSlot.Length
          invariant i <= asyncSlot.Length
          invariant forall k :: 0 <= k < i ==> !Answers(asyncSlot[k], f)
        {
          if asyncSlot[i].used && asyncSlot[i].id == f.header.frameId && asyncSlot[i].cmd == f.header.cmd {
            assert i == FirstAnswered(asyncSlot[..], f);
            calls := calls + [Call(asyncSlot[i].token, f.payload)];
            asyncSlot[i] := asyncSlot[i].(used := false);
            assert asyncSlot[..] == old(asyncSlot[..])[i := old(asyncSlot[i]).(used := false)];
            return;
          }
          i := i + 1;
        }
        assert FirstAnswered(asyncSlot[..], f) == asyncSlot.Length;
      }
      var slot := FindEmpty(ackSlot);
      if slot < ackSlot.Length {
        ackSlot[slot] := Some(f);
      }
    }

    method DealOneFrame(f: Frame)
      requires notifySlot != ackSlot
      modifies notifySlot, ackSlot, asyncSlot, this`calls
      ensures Slots() == Deal(old(Slots()), f)
    {
      var hdrCrc := Crc16.Compute(CheckedPart(f.header));
      if hdrCrc != f.header.hdrCrc {
        return;
      }
      if f.header.magic != MAGIC || f.header.version != VERSION {
        return;
      }
      var payCrc := Crc16.Compute(f.payload);
      if payCrc != f.payloadCrc {
        return;
      }
      if !ready {
        return;
      }
      if f.header.typ == TYPE_REQUEST || f.header.typ == TYPE_EVENT {
        AddNotifyFrame(f);
      } else if f.header.typ == TYPE_RESPONSE || f.header.typ == TYPE_EVENT_ACK {
        AddAckFrame(f);
      }
    }

    /** The payload buffer is full: check it, hand the frame over, and hunt for the next one. */
    method FeedFinishPayload(mallocOk: bool)
      requires hdrRaw.Length == HEADER_WIRE_LEN && notifySlot != ackSlot
      requires pendPayload != null && pendPayload.Length == pendHdr.len + 2
      modifies this, hdrRaw, notifySlot, ackSlot, asyncSlot
      ensures Valid() && Abs() == HuntSync0
      ensures ready == old(ready)
      ensures Slots() == match Finish(old(pendHdr), old(pendPayload[..]), mallocOk)
                         case None => old(Slots())
                         case Some(f) => Deal(old(Slots()), f)
    {
      var raw, l := pendPayload, pendHdr.len;
      var wireCrc := Word(raw[l], raw[l + 1]);
      assert raw[..][..l] == raw[..l];
      var crc := Crc16.Compute(raw[..l]);
      if crc != wireCrc {
        ParseReset();
        return;
      }
      if l > 0 && !mallocOk {
        ParseReset();
        return;
      }
      var fr := Frame(pendHdr, raw[..l], wireCrc);
      DealOneFrame(fr);
      ParseReset();
    }

    method FeedByte(b: byte, mallocOk: bool)
      requires Valid()
      modifies this, hdrRaw, pendPayload, notifySlot, ackSlot, asyncSlot
      ensures Valid() && ready == old(ready)
      ensures pendPayload == old(pendPayload) || pendPayload == null || fresh(pendPayload)
      ensures Abs() == Step(old(Abs()), b, mallocOk).state
      ensures Slots() == match Step(old(Abs()), b, mallocOk).frame
                         case None => old(Slots())
                         case Some(f) => Deal(old(Slots()), f)
    {
      match parseState
      case PsSync0 =>
        if b == SYNC0 {
          parseState := PsSync1;
        }
      case PsSync1 =>
        if b == SYNC1 {
          hdrRaw[0], hdrRaw[1] := SYNC0, SYNC1;
          parseGot, parseState := 2, PsHdr;
        } else if b != SYNC0 {
          parseState := PsSync0;
        }
      case PsHdr =>
        FeedHeaderByte(b, mallocOk);
      case PsPayload =>
        FeedPayloadByte(b, mallocOk);
    }

    /** The header case of `feed_byte`. */
    method FeedHeaderByte(b: byte, mallocOk: bool)
      requires Valid() && parseState == PsHdr
      modifies this`parseState, this`parseGot, this`pendHdr, this`pendPayload, this`pendPayNeed, hdrRaw
      ensures Valid()
      ensures pendPayload == null || fresh(pendPayload)
      ensures Step(old(Abs()), b, mallocOk) == Outcome(Abs(), None)
    {
      hdrRaw[parseGot] := b;
      parseGot := parseGot + 1;
      assert hdrRaw[..parseGot] == old(hdrRaw[..parseGot]) + [b];
      if parseGot == HEADER_WIRE_LEN {
        assert hdrRaw[..] == hdrRaw[..parseGot];
        FinishHeader(mallocOk);
      }
    }

    /** All of the header is there: its payload is waited for, if it fits and memory for it can be had. */
    method FinishHeader(mallocOk: bool)
      requires hdrRaw.Length == HEADER_WIRE_LEN && notifySlot != ackSlot
      requires hdrRaw[0] == SYNC0 && hdrRaw[1] == SYNC1
      modifies this`parseState, this`parseGot, this`pendHdr, this`pendPayload, this`pendPayNeed, hdrRaw
      ensures Valid()
      ensures pendPayload == null || fresh(pendPayload)
      ensures var h := ParseHeader(old(hdrRaw[..]));
        Abs() == if h.len > MAX_PAYLOAD || !mallocOk then HuntSync0 else InPayload(h, [])
    {
      pendHdr := ParseHeader(hdrRaw[..]);
      if pendHdr.len > MAX_PAYLOAD {
        ParseReset();
        return;
      }
      pendPayNeed := pendHdr.len + 2;
      if !mallocOk {
        ParseReset();
        return;
      }
      pendPayload := new byte[pendPayNeed](i => 0);
      parseGot, parseState := 0, PsPayload;
    }

    /** The payload case of `feed_byte`. */
    method FeedPayloadByte(b: byte, mallocOk: bool)
      requires Valid() && parseState == PsPayload
      modifies this, hdrRaw, pendPayload, notifySlot, ackSlot, asyncSlot
      ensures Valid() && ready == old(ready)
      ensures pendPayload == old(pendPayload) || pendPayload == null || fresh(pendPayload)
      ensures Abs() == Step(old(Abs()), b, mallocOk).state
      ensures Slots() == match Step(old(Abs()), b, mallocOk).frame
                         case None => old(Slots())
                         case Some(f) => Deal(old(Slots()), f)
    {
      pendPayload[parseGot] := b;
      parseGot := parseGot + 1;
      assert pendPayload[..parseGot] == old(pendPayload[..parseGot]) + [b];
      if parseGot >= pendPayNeed {
        assert pendPayload[..] == pendPayload[..parseGot];
        FeedFinishPayload(mallocOk);
      }
    }

    /** `host_link_feed`; `memory` tells for which bytes the allocation that one needs, if any, succeeds. */
    method FeedAll(data: seq<byte>, memory: nat -> bool)
      requires Valid()
      modifies this, hdrRaw, pendPayload, notifySlot, ackSlot, asyncSlot
      ensures Valid()
      ensures ready ==> Progress(old(Abs()), old(Slots()), data, memory, Abs(), Slots())
      ensures !ready ==> Abs() == old(Abs()) && Slots() == old(Slots())
    {
      var i := 0;
      ghost var s0, t0 := Abs(), Slots();
      while i < |data|
        invariant Valid() && ready == old(ready)
        invariant 0 <= i <= |data|
        invariant pendPayload == old(pendPayload) || pendPayload == null || fresh(pendPayload)
        invariant ready ==> Progress(s0, t0, data[..i], memory, Abs(), Slots())
        invariant !ready ==> Abs() == s0 && Slots() == t0
      {
        if !ready {
          return;
        }
        FeedOneMore(data[i], memory, i, s0, t0, data[..i]);
        assert data[..i + 1] == data[..i] + [data[i]];
        i := i + 1;
      }
      assert data[..i] == data;
    }

    /** The byte at `i` behind those in `done`. */
    method FeedOneMore(b: byte, memory: nat -> bool, i: nat, ghost s0: State, ghost t0: Tables, ghost done: seq<byte>)
      requires Valid() && |done| == i
      requires ValidState(s0) && Progress(s0, t0, done, memory, Abs(), Slots())
      modifies this, hdrRaw, pendPayload, notifySlot, ackSlot, asyncSlot
      ensures Valid() && ready == old(ready)
      ensures pendPayload == old(pendPayload) || pendPayload == null || fresh(pendPayload)
      ensures Progress(s0, t0, done + [b], memory, Abs(), Slots())
    {
      FeedNext(s0, t0, done, memory, Abs(), Slots(), b);
      FeedByte(b, memory(i));
    }
  }

  /** Feeding `bytes` takes the parser from `s` to `s'` and the tables from `t` to `t'`. */
  predicate Progress(s: State, t: Tables, bytes: seq<byte>, memory: nat -> bool, s': State, t': Tables)
    requires ValidState(s)
  {
    s' == FeedWith(s, bytes, memory).state && t' == DealAll(t, FeedWith(s, bytes, memory).frames)
  }

  lemma FeedNext(s: State, t: Tables, bytes: seq<byte>, memory: nat -> bool, s': State, t': Tables, b: byte)
    requires ValidState(s) && Progress(s, t, bytes, memory, s', t')
    ensures ValidState(s')
    ensures var o := Step(s', b, memory(|bytes|));
      Progress(s, t, bytes + [b], memory, o.state, match o.frame case None => t' case Some(f) => Deal(t', f))
  {
    var r := FeedWith(s, bytes, memory);
    var o := Step(s', b, memory(|bytes|));
    assert (bytes + [b])[..|bytes|] == bytes;
    if o.frame.Some? && Accepted(o.frame.value) {
      DealMore(t, r.frames, o.frame.value);
    } else {
      assert r.frames + [] == r.frames;
    }
  }

  /** `send_wire` up to the call of the transport: the buffer it fills is the printed frame. */
  method SendWire(h: Header, payload: seq<byte>) returns (buf: array<byte>)
    requires h.len == |payload| <= MAX_PAYLOAD
    ensures fresh(buf) && buf[..] == Wire(h, payload)
  {
    var hdrCrc := Crc16.Compute(CheckedPart(h));
    var hdr := h.(hdrCrc := hdrCrc);
    var payCrc := Crc16.Compute(payload);
    buf := new byte[HEADER_WIRE_LEN + |payload| + 2](i => 0);
    var head, crc := HeaderBytes(hdr), Le(payCrc);
    forall i | 0 <= i < HEADER_WIRE_LEN {
      buf[i] := head[i];
    }
    forall i | 0 <= i < |payload| {
      buf[HEADER_WIRE_LEN + i] := payload[i];
    }
    forall i | 0 <= i < 2 {
      buf[HEADER_WIRE_LEN + |payload| + i] := crc[i];
    }
  }

  method FindEmpty(slots: array<Option<Frame>>) returns (i: nat)
    ensures i == FirstEmpty(slots[..])
  {
    i := 0;
    while i < slots.Length && slots[i].Some?
      invariant i <= slots.Length
      invariant forall k :: 0 <= k < i ==> slots[k].Some?
    {
      i := i + 1;
    }
  }
}
