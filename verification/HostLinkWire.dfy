/**
 * The byte-at-a-time frame parser of the host link and the printer that feeds its peer.
 *
 * `Step` is the parser as a function on values; `HostLinkHandler.Handler` is the C handler's own
 * form, with its header buffer, its heap-allocated payload buffer and its counters, proved to
 * do what `Step` says.
 */
module HostLinkWire {
  import opened Bits
  import opened Options
  import Crc16

  const MAGIC: word := 0x4C48
  const SYNC0: byte := 0x48
  const SYNC1: byte := 0x4C
  const VERSION: byte := 1
  const HDR_CRC_LEN := 12
  const HEADER_WIRE_LEN := 14
  const MAX_PAYLOAD := 512

  const TYPE_REQUEST: byte := 0
  const TYPE_RESPONSE: byte := 1
  const TYPE_EVENT: byte := 2
  const TYPE_EVENT_ACK: byte := 3

  datatype Header = Header(magic: word, version: byte, reserved: byte, frameId: word, typ: byte,
                           reserved2: byte, cmd: word, len: word, hdrCrc: word)

  datatype Frame = Frame(header: Header, payload: seq<byte>, payloadCrc: word)

  // ----- Little-endian layout of a packed header

  function Le(w: word): (s: seq<byte>)
    ensures |s| == 2
  {
    [w % 0x100, w / 0x100]
  }

  function Word(lo: byte, hi: byte): word {
    lo + 0x100 * hi
  }

  function CheckedPart(h: Header): (s: seq<byte>)
    ensures |s| == HDR_CRC_LEN
  {
    Le(h.magic) + [h.version, h.reserved] + Le(h.frameId) + [h.typ, h.reserved2] + Le(h.cmd) + Le(h.len)
  }

  function HeaderBytes(h: Header): (s: seq<byte>)
    ensures |s| == HEADER_WIRE_LEN
  {
    CheckedPart(h) + Le(h.hdrCrc)
  }

  /** `memcpy` of the raw bytes over a packed struct. */
  function ParseHeader(raw: seq<byte>): Header
    requires |raw| == HEADER_WIRE_LEN
  {
    Header(Word(raw[0], raw[1]), raw[2], raw[3], Word(raw[4], raw[5]), raw[6], raw[7],
           Word(raw[8], raw[9]), Word(raw[10], raw[11]), Word(raw[12], raw[13]))
  }

  lemma ParseHeaderInverts(h: Header)
    ensures ParseHeader(HeaderBytes(h)) == h
  {}

  lemma HeaderBytesInverts(raw: seq<byte>)
    requires |raw| == HEADER_WIRE_LEN
    ensures HeaderBytes(ParseHeader(raw)) == raw
  {
    LeOfWord(raw[0], raw[1]);
    LeOfWord(raw[4], raw[5]);
    LeOfWord(raw[8], raw[9]);
    LeOfWord(raw[10], raw[11]);
    LeOfWord(raw[12], raw[13]);
    Packed(raw, [raw[0], raw[1]], [raw[4], raw[5]], [raw[8], raw[9]], [raw[10], raw[11]], [raw[12], raw[13]]);
  }

  lemma LeOfWord(lo: byte, hi: byte)
    ensures Le(Word(lo, hi)) == [lo, hi]
  {
  }

  lemma Packed(raw: seq<byte>, a: seq<byte>, b: seq<byte>, c: seq<byte>, d: seq<byte>, e: seq<byte>)
    requires |raw| == HEADER_WIRE_LEN && a == [raw[0], raw[1]] && b == [raw[4], raw[5]] && c == [raw[8], raw[9]]
    requires d == [raw[10], raw[11]] && e == [raw[12], raw[13]]
    ensures a + [raw[2], raw[3]] + b + [raw[6], raw[7]] + c + d + e == raw
  {
  }

  // ----- Printer

  function Sealed(h: Header): Header {
    h.(hdrCrc := Crc16.Crc(CheckedPart(h)))
  }

  /** The buffer `send_wire` hands to the serial port. */
  function Wire(h: Header, payload: seq<byte>): seq<byte> {
    HeaderBytes(Sealed(h)) + payload + Le(Crc16.Crc(payload))
  }

  // ----- Parser

  datatype State =
    | HuntSync0
    | HuntSync1
    | InHeader(raw: seq<byte>)
    | InPayload(header: Header, got: seq<byte>)

  predicate ValidState(s: State) {
    match s
    case HuntSync0 => true
    case HuntSync1 => true
    case InHeader(raw) => 2 <= |raw| < HEADER_WIRE_LEN && raw[0] == SYNC0 && raw[1] == SYNC1
    case InPayload(h, got) => h.magic == MAGIC && h.len <= MAX_PAYLOAD && |got| < h.len + 2
  }

  datatype Outcome = Outcome(state: State, frame: Option<Frame>)

  /** One received byte; `mallocOk` says whether the allocation this byte may need succeeds. */
  function Step(s: State, b: byte, mallocOk: bool): (o: Outcome)
    requires ValidState(s)
    ensures ValidState(o.state)
    ensures o.frame.Some? ==> o.state == HuntSync0
  {
    match s
    case HuntSync0 =>
      Outcome(if b == SYNC0 then HuntSync1 else HuntSync0, None)
    case HuntSync1 =>
      Outcome(if b == SYNC1 then InHeader([SYNC0, SYNC1]) else if b == SYNC0 then HuntSync1 else HuntSync0, None)
    case InHeader(raw) =>
      var raw' := raw + [b];
      if |raw'| < HEADER_WIRE_LEN then Outcome(InHeader(raw'), None)
      else
        var h := ParseHeader(raw');
        if h.len > MAX_PAYLOAD || !mallocOk then Outcome(HuntSync0, None) else Outcome(InPayload(h, []), None)
    case InPayload(h, got) =>
      var got' := got + [b];
      if |got'| < h.len + 2 then Outcome(InPayload(h, got'), None)
      else Outcome(HuntSync0, Finish(h, got', mallocOk))
  }

  /** `feed_finish_payload` up to the hand-over: the payload must match the checksum behind it. */
  function Finish(h: Header, raw: seq<byte>, mallocOk: bool): Option<Frame>
    requires |raw| == h.len + 2
  {
    var payload, crc := raw[..h.len], Word(raw[h.len], raw[h.len + 1]);
    if Crc16.Crc(payload) != crc || (h.len > 0 && !mallocOk) then None else Some(Frame(h, payload, crc))
  }

  /** The checks `deal_one_frame` makes before it looks for a slot. */
  predicate Accepted(f: Frame) {
    && f.header.hdrCrc == Crc16.Crc(CheckedPart(f.header))
    && f.header.magic == MAGIC && f.header.version == VERSION
    && f.payloadCrc == Crc16.Crc(f.payload)
    && f.header.typ <= TYPE_EVENT_ACK
  }

  datatype Fed = Fed(state: State, frames: seq<Frame>)

  /** The frames a byte string delivers, and the state it leaves, with every allocation succeeding. */
  function Feed(s: State, bytes: seq<byte>): (r: Fed)
    requires ValidState(s)
    ensures ValidState(r.state)
    decreases |bytes|
  {
    if bytes == [] then Fed(s, [])
    else
      var o := Step(s, bytes[0], true);
      Joined(o.frame, Feed(o.state, bytes[1..]))
  }

  /** A frame that comes first, if it is accepted, and what comes after it. */
  function Joined(frame: Option<Frame>, r: Fed): (j: Fed)
    ensures j.state == r.state
  {
    if frame.Some? && Accepted(frame.value) then Fed(r.state, [frame.value] + r.frames) else r
  }

  lemma JoinedConcat(frame: Option<Frame>, r: Fed, t: Fed)
    ensures Joined(frame, Fed(t.state, r.frames + t.frames)) == Fed(t.state, Joined(frame, r).frames + t.frames)
  {
    if frame.Some? {
      assert [frame.value] + (r.frames + t.frames) == [frame.value] + r.frames + t.frames;
    }
  }

  /** Chunking does not matter. */
  lemma {:induction false} FeedChunks(s: State, x: seq<byte>, y: seq<byte>)
    requires ValidState(s)
    ensures var r := Feed(s, x); var t := Feed(r.state, y);
            Feed(s, x + y) == Fed(t.state, r.frames + t.frames)
    decreases |x|
  {
    if x == [] {
      assert x + y == y;
      assert [] + Feed(s, y).frames == Feed(s, y).frames;
    } else {
      assert (x + y)[1..] == x[1..] + y;
      var o := Step(s, x[0], true);
      FeedChunks(o.state, x[1..], y);
      var r := Feed(o.state, x[1..]);
      JoinedConcat(o.frame, r, Feed(r.state, y));
    }
  }

  /** One more byte behind what was fed. */
  function FedMore(r: Fed, b: byte, mallocOk: bool): (r': Fed)
    requires ValidState(r.state)
    ensures ValidState(r'.state)
  {
    var o := Step(r.state, b, mallocOk);
    Fed(o.state, r.frames + Delivered(o.frame))
  }

  /** The frames a byte string delivers, and the state it leaves; `memory` tells which allocations succeed. */
  function FeedWith(s: State, bytes: seq<byte>, memory: nat -> bool): (r: Fed)
    requires ValidState(s)
    ensures ValidState(r.state)
    decreases |bytes|
  {
    if bytes == [] then Fed(s, [])
    else FedMore(FeedWith(s, bytes[..|bytes| - 1], memory), bytes[|bytes| - 1], memory(|bytes| - 1))
  }

  function Delivered(frame: Option<Frame>): seq<Frame> {
    if frame.Some? && Accepted(frame.value) then [frame.value] else []
  }

  /** Where none fails, these are the frames and the state of `Feed`. */
  lemma {:induction false} FeedWithMemory(s: State, bytes: seq<byte>, memory: nat -> bool)
    requires ValidState(s) && forall i: nat :: i < |bytes| ==> memory(i)
    ensures FeedWith(s, bytes, memory) == Feed(s, bytes)
    decreases |bytes|
  {
    if bytes != [] {
      var front, b := bytes[..|bytes| - 1], bytes[|bytes| - 1];
      FeedWithMemory(s, front, memory);
      assert bytes == front + [b];
      FeedChunks(s, front, [b]);
      OneFed(Feed(s, front).state, b);
    }
  }

  lemma OneFed(s: State, b: byte)
    requires ValidState(s)
    ensures var o := Step(s, b, true); Feed(s, [b]) == Fed(o.state, Delivered(o.frame))
  {
    var o := Step(s, b, true);
    assert [b][1..] == [];
    assert Feed(o.state, []) == Fed(o.state, []);
    if o.frame.Some? && Accepted(o.frame.value) {
      assert [o.frame.value] + [] == [o.frame.value];
    }
  }

  // ----- Printing then parsing

  lemma {:induction false} FeedHeader(raw: seq<byte>, n: nat, rest: seq<byte>)
    requires |raw| == HEADER_WIRE_LEN && raw[0] == SYNC0 && raw[1] == SYNC1
    requires ParseHeader(raw).len <= MAX_PAYLOAD
    requires 2 <= n < HEADER_WIRE_LEN
    ensures Feed(InHeader(raw[..n]), raw[n..] + rest) == Feed(InPayload(ParseHeader(raw), []), rest)
    decreases HEADER_WIRE_LEN - n
  {
    var bytes := raw[n..] + rest;
    assert raw[..n] + [bytes[0]] == raw[..n + 1];
    assert bytes[1..] == raw[n + 1..] + rest;
    if n + 1 < HEADER_WIRE_LEN {
      FeedHeader(raw, n + 1, rest);
    } else {
      assert raw[..n + 1] == raw;
      assert bytes[1..] == rest;
    }
  }

  lemma {:induction false} FeedPayload(h: Header, body: seq<byte>, n: nat)
    requires ValidState(InPayload(h, []))
    requires n < |body| == h.len + 2
    requires Finish(h, body, true).Some? && Accepted(Finish(h, body, true).value)
    ensures Feed(InPayload(h, body[..n]), body[n..]) == Fed(HuntSync0, [Finish(h, body, true).value])
    decreases |body| - n
  {
    var bytes := body[n..];
    assert body[..n] + [bytes[0]] == body[..n + 1];
    assert bytes[1..] == body[n + 1..];
    if n + 1 < |body| {
      FeedPayload(h, body, n + 1);
    } else {
      assert body[..n + 1] == body;
      assert Feed(HuntSync0, bytes[1..]) == Fed(HuntSync0, []);
    }
  }

  /** The two sync bytes lead from the hunt into the header. */
  lemma FeedSync(raw: seq<byte>, tail: seq<byte>)
    requires |raw| >= 2 && raw[0] == SYNC0 && raw[1] == SYNC1
    ensures Feed(HuntSync0, raw + tail) == Feed(InHeader(raw[..2]), raw[2..] + tail)
  {
    var wire := raw + tail;
    var rest := wire[1..];
    assert rest[0] == SYNC1 && rest[1..] == raw[2..] + tail;
    assert raw[..2] == [SYNC0, SYNC1];
    assert Feed(HuntSync1, rest) == Feed(InHeader(raw[..2]), rest[1..]);
    assert Feed(HuntSync0, wire) == Feed(HuntSync1, rest);
  }

  /** A printed frame is delivered, exactly once and unchanged, and the parser hunts again. */
  lemma {:induction false} PrintedFrameIsDelivered(h: Header, payload: seq<byte>)
    requires h.magic == MAGIC && h.version == VERSION && h.typ <= TYPE_EVENT_ACK
    requires h.len == |payload| <= MAX_PAYLOAD
    ensures Feed(HuntSync0, Wire(h, payload)) == Fed(HuntSync0, [Frame(Sealed(h), payload, Crc16.Crc(payload))])
  {
    var g := Sealed(h);
    var raw, tail := HeaderBytes(g), payload + Le(Crc16.Crc(payload));
    ParseHeaderInverts(g);
    assert tail[..h.len] == payload;
    FeedPayload(g, tail, 0);
    FeedHeader(raw, 2, tail);
    assert tail[..0] == [] && tail[0..] == tail;
    assert Wire(h, payload) == raw + tail;
    FeedSync(raw, tail);
  }

  // ----- Parsing then printing

  /** The bytes read so far for the frame in progress. */
  function Held(s: State): seq<byte> {
    match s
    case HuntSync0 => []
    case HuntSync1 => [SYNC0]
    case InHeader(raw) => raw
    case InPayload(h, got) => HeaderBytes(h) + got
  }

  /** What is held is the end of what was read: something is dropped, and the rest is held. */
  lemma HeldIsRecentInput(s: State, b: byte, mallocOk: bool) returns (junk: seq<byte>)
    requires ValidState(s)
    ensures Held(s) + [b] == junk + Held(Step(s, b, mallocOk).state)
  {
    if s.InHeader? {
      junk := HeldHeader(s, b, mallocOk);
    } else if s.InPayload? {
      junk := HeldPayload(s, b, mallocOk);
    } else {
      junk := HeldHunt(s, b, mallocOk);
    }
  }

  lemma HeldHunt(s: State, b: byte, mallocOk: bool) returns (junk: seq<byte>)
    requires ValidState(s) && (s.HuntSync0? || s.HuntSync1?)
    ensures Held(s) + [b] == junk + Held(Step(s, b, mallocOk).state)
  {
    var next := Step(s, b, mallocOk).state;
    if next.HuntSync0? {
      junk := Held(s) + [b];
      DropAll(junk);
    } else if next.HuntSync1? {
      junk := Held(s);
    } else {
      junk := [];
      assert [SYNC0] + [SYNC1] == [SYNC0, SYNC1];
      DropNone(next.raw);
    }
  }

  lemma HeldHeader(s: State, b: byte, mallocOk: bool) returns (junk: seq<byte>)
    requires ValidState(s) && s.InHeader?
    ensures Held(s) + [b] == junk + Held(Step(s, b, mallocOk).state)
  {
    var next := Step(s, b, mallocOk).state;
    var all := s.raw + [b];
    if next.HuntSync0? {
      junk := all;
    } else {
      junk := [];
      if next.InPayload? {
        HeaderBytesInverts(all);
        DropAll(HeaderBytes(next.header));
      }
    }
    DropNone(all);
    DropAll(all);
  }

  lemma HeldPayload(s: State, b: byte, mallocOk: bool) returns (junk: seq<byte>)
    requires ValidState(s) && s.InPayload?
    ensures Held(s) + [b] == junk + Held(Step(s, b, mallocOk).state)
  {
    var next := Step(s, b, mallocOk).state;
    var all := HeaderBytes(s.header) + s.got + [b];
    Regrouped(HeaderBytes(s.header), s.got, [b]);
    junk := if next.HuntSync0? then all else [];
    DropNone(all);
    DropAll(all);
  }

  lemma DropAll(x: seq<byte>)
    ensures x + [] == x
  {
  }

  lemma DropNone(x: seq<byte>)
    ensures [] + x == x
  {
  }

  /** A frame that passes every check was read from its own printed form. */
  lemma FinishedFrameReprints(h: Header, raw: seq<byte>, mallocOk: bool)
    requires |raw| == h.len + 2
    requires Finish(h, raw, mallocOk).Some? && Accepted(Finish(h, raw, mallocOk).value)
    ensures var f := Finish(h, raw, mallocOk).value;
            HeaderBytes(h) + raw == Wire(f.header, f.payload)
  {
    LeOfWord(raw[h.len], raw[h.len + 1]);
    assert Sealed(h) == h;
    Reassociate(HeaderBytes(h), raw, h.len);
  }

  lemma Reassociate(head: seq<byte>, raw: seq<byte>, n: nat)
    requires |raw| == n + 2
    ensures head + raw == head + raw[..n] + [raw[n], raw[n + 1]]
  {
  }

  /** `frames` are the contents of disjoint stretches of `stream`, in order. */
  ghost predicate Carved(stream: seq<byte>, frames: seq<Frame>)
    decreases |frames|
  {
    frames == [] ||
    exists i, j :: 0 <= i <= j <= |stream|
      && stream[i..j] == Wire(Last(frames).header, Last(frames).payload)
      && Carved(stream[..i], frames[..|frames| - 1])
  }

  function Last(frames: seq<Frame>): Frame
    requires frames != []
  {
    frames[|frames| - 1]
  }

  lemma CarvedBefore(stream: seq<byte>, junk: seq<byte>, frames: seq<Frame>)
    requires Carved(stream, frames)
    ensures Carved(stream + junk, frames)
  {
    if frames != [] {
      var i, j :| 0 <= i <= j <= |stream|
        && stream[i..j] == Wire(Last(frames).header, Last(frames).payload)
        && Carved(stream[..i], frames[..|frames| - 1]);
      SliceOfFront(stream, junk, i, j);
    }
  }

  lemma SliceOfFront(stream: seq<byte>, junk: seq<byte>, i: nat, j: nat)
    requires i <= j <= |stream|
    ensures (stream + junk)[i..j] == stream[i..j] && (stream + junk)[..i] == stream[..i]
  {
  }

  lemma CarvedNow(stream: seq<byte>, frames: seq<Frame>, f: Frame)
    requires Carved(stream, frames)
    ensures Carved(stream + Wire(f.header, f.payload), frames + [f])
  {
    var w := Wire(f.header, f.payload);
    var i, j := |stream|, |stream| + |w|;
    assert (stream + w)[i..j] == w && (stream + w)[..i] == stream;
    assert Last(frames + [f]) == f && (frames + [f])[..|frames|] == frames;
  }

  /** One byte either completes a printed frame or extends, and perhaps abandons, what is held. */
  lemma StepAccounts(s: State, b: byte, mallocOk: bool) returns (junk: seq<byte>)
    requires ValidState(s)
    ensures var o := Step(s, b, mallocOk);
            if Delivered(o.frame) != []
            then Held(s) + [b] == Wire(o.frame.value.header, o.frame.value.payload) && Held(o.state) == []
            else Held(s) + [b] == junk + Held(o.state)
  {
    var o := Step(s, b, mallocOk);
    var front := Held(s) + [b];
    junk := [];
    if Delivered(o.frame) != [] {
      assert front == HeaderBytes(s.header) + (s.got + [b]);
      FinishedFrameReprints(s.header, s.got + [b], mallocOk);
    } else {
      junk := HeldIsRecentInput(s, b, mallocOk);
    }
  }

  /** What has been read is, behind the stretches of the frames delivered so far, what is held. */
  lemma {:induction false} FramesThenHeld(s: State, bytes: seq<byte>, memory: nat -> bool)
    returns (x: seq<byte>, held: seq<byte>)
    requires ValidState(s)
    ensures Read(Held(s) + bytes, x, held, FeedWith(s, bytes, memory))
    decreases |bytes|
  {
    if bytes == [] {
      x, held := [], Held(s);
      assert held + bytes == x + held;
    } else {
      var last := |bytes| - 1;
      var x0, held0 := FramesThenHeld(s, bytes[..last], memory);
      x, held := OneMoreRead(Held(s), bytes, x0, held0, FeedWith(s, bytes[..last], memory), memory(last));
    }
  }

  ghost predicate Read(bytes: seq<byte>, x: seq<byte>, held: seq<byte>, r: Fed) {
    ValidState(r.state) && held == Held(r.state) && bytes == x + held && Carved(x, r.frames)
  }

  lemma OneMoreRead(first: seq<byte>, bytes: seq<byte>, x: seq<byte>, held: seq<byte>, r: Fed, mallocOk: bool)
    returns (y: seq<byte>, now: seq<byte>)
    requires bytes != [] && Read(first + bytes[..|bytes| - 1], x, held, r)
    ensures Read(first + bytes, y, now, FedMore(r, bytes[|bytes| - 1], mallocOk))
  {
    var b := bytes[|bytes| - 1];
    var o := Step(r.state, b, mallocOk);
    now := Held(o.state);
    var junk := StepAccounts(r.state, b, mallocOk);
    MoreRead(first, bytes, x, held);
    if Delivered(o.frame) != [] {
      y := x + (held + [b]);
      assert y + [] == y;
      CarvedNow(x, r.frames, o.frame.value);
    } else {
      y := x + junk;
      Regrouped(x, junk, now);
      CarvedBefore(x, junk, r.frames);
      assert r.frames + [] == r.frames;
    }
  }

  lemma MoreRead(first: seq<byte>, bytes: seq<byte>, x: seq<byte>, held: seq<byte>)
    requires bytes != [] && first + bytes[..|bytes| - 1] == x + held
    ensures first + bytes == x + (held + [bytes[|bytes| - 1]])
  {
    assert first + bytes == first + bytes[..|bytes| - 1] + [bytes[|bytes| - 1]];
  }

  lemma Regrouped(x: seq<byte>, y: seq<byte>, z: seq<byte>)
    ensures x + (y + z) == x + y + z
  {
  }

  /**
   * Whatever bytes arrive and whichever allocations fail, every delivered frame re-encodes to exactly the bytes
   * consumed for it.
   */
  lemma DeliveredFramesWereSent(s: State, bytes: seq<byte>, memory: nat -> bool)
    requires ValidState(s)
    ensures Carved(Held(s) + bytes, FeedWith(s, bytes, memory).frames)
  {
    var x, held := FramesThenHeld(s, bytes, memory);
    CarvedBefore(x, held, FeedWith(s, bytes, memory).frames);
  }

  // ----- Resynchronisation

  const RESYNC_BOUND := 527

  /** How many bytes other than the sync byte can pass before the parser hunts for sync again. */
  function Budget(s: State): nat
    requires ValidState(s)
  {
    match s
    case HuntSync0 => 0
    case HuntSync1 => RESYNC_BOUND
    case InHeader(raw) => HEADER_WIRE_LEN - |raw| + MAX_PAYLOAD + 2
    case InPayload(h, got) => h.len + 2 - |got|
  }

  lemma StepSpendsBudget(s: State, b: byte, mallocOk: bool)
    requires ValidState(s) && b != SYNC0
    ensures s == HuntSync0 ==> Step(s, b, mallocOk).state == HuntSync0
    ensures s != HuntSync0 ==> Budget(Step(s, b, mallocOk).state) < Budget(s)
  {}

  lemma {:induction false} QuietBytesSpendBudget(s: State, bytes: seq<byte>, memory: nat -> bool)
    requires ValidState(s)
    requires forall i :: 0 <= i < |bytes| ==> bytes[i] != SYNC0
    ensures var t := FeedWith(s, bytes, memory).state; t == HuntSync0 || Budget(t) + |bytes| <= Budget(s)
    decreases |bytes|
  {
    if bytes != [] {
      var front, b := bytes[..|bytes| - 1], bytes[|bytes| - 1];
      QuietBytesSpendBudget(s, front, memory);
      StepSpendsBudget(FeedWith(s, front, memory).state, b, memory(|front|));
    }
  }

  /** Enough bytes without the first sync byte lead back to the hunt, whichever allocations fail. */
  lemma QuietLineResynchronises(s: State, bytes: seq<byte>, memory: nat -> bool)
    requires ValidState(s) && |bytes| >= Budget(s)
    requires forall i :: 0 <= i < |bytes| ==> bytes[i] != SYNC0
    ensures FeedWith(s, bytes, memory).state == HuntSync0
  {
    QuietBytesSpendBudget(s, bytes, memory);
  }

  /** After 527 bytes without the sync byte, from any state, the next printed frame is the next one delivered. */
  lemma NextFrameAfterQuietLine(s: State, quiet: seq<byte>, h: Header, payload: seq<byte>)
    requires ValidState(s) && |quiet| >= RESYNC_BOUND
    requires forall i :: 0 <= i < |quiet| ==> quiet[i] != SYNC0
    requires h.magic == MAGIC && h.version == VERSION && h.typ <= TYPE_EVENT_ACK
    requires h.len == |payload| <= MAX_PAYLOAD
    ensures Feed(s, quiet + Wire(h, payload)) ==
            Fed(HuntSync0, Feed(s, quiet).frames + [Frame(Sealed(h), payload, Crc16.Crc(payload))])
  {
    QuietLineResynchronises(s, quiet, _ => true);
    FeedWithMemory(s, quiet, _ => true);
    PrintedFrameIsDelivered(h, payload);
    FeedChunks(s, quiet, Wire(h, payload));
  }
}
