/**
 * Packetising NAL units into RTP (section 5.1 of RFC 3550): single NAL unit packets and fragmentation units
 * of section 5.8 of RFC 6184 (H.264) and section 4.4.3 of RFC 7798 (H.265), against a depacketiser written
 * from those documents.
 */
module Rtp {
  import opened Bits
  import opened Options

  datatype Codec = H264 | H265

  datatype Config = Config(codec: Codec, maxPayload: nat, payloadType: byte, ssrc: uint32)

  function HeaderSize(c: Codec): nat {
    if c.H264? then 1 else 2
  }

  /** Bytes in front of the data of a fragment. */
  function Overhead(c: Codec): nat {
    HeaderSize(c) + 1
  }

  /** The sender's fragment arithmetic needs room for at least one byte of data in a fragment. */
  predicate Usable(cfg: Config) {
    cfg.maxPayload > Overhead(cfg.codec)
  }

  // ---------------------------------------------------------------------------------------------
  // The RTP header.

  datatype Header = Header(marker: bool, payloadType: byte, number: word, timestamp: uint32, ssrc: uint32)

  function BigEndian(x: uint32): seq<byte> {
    [x / 0x100_0000, x / 0x1_0000 % 0x100, x / 0x100 % 0x100, x % 0x100]
  }

  function HeaderBytes(h: Header): (bytes: seq<byte>)
    ensures |bytes| == 12
  {
    [0x80, (if h.marker then 0x80 else 0) + h.payloadType % 0x80, h.number / 0x100, h.number % 0x100]
    + BigEndian(h.timestamp) + BigEndian(h.ssrc)
  }

  function FromBigEndian(b: seq<byte>): uint32
    requires |b| == 4
  {
    0x100_0000 * (b[0] as int) + 0x1_0000 * (b[1] as int) + 0x100 * (b[2] as int) + b[3]
  }

  /** A packet: its header and its payload. */
  datatype Packet = Packet(header: Header, payload: seq<byte>)

  function PacketBytes(p: Packet): seq<byte> {
    HeaderBytes(p.header) + p.payload
  }

  /** Reads a packet of version 2 without padding, extension or contributing sources. */
  function ParsePacket(p: seq<byte>): Option<Packet> {
    if |p| < 12 || p[0] != 0x80 then None
    else
      var number := 0x100 * (p[2] as int) + p[3];
      Some(Packet(Header(p[1] >= 0x80, p[1] % 0x80, number, FromBigEndian(p[4..8]), FromBigEndian(p[8..12])), p[12..]))
  }

  lemma BigEndianInverse(x: uint32)
    ensures FromBigEndian(BigEndian(x)) == x
  {
    var a, b, d := x / 0x100, x / 0x1_0000, x / 0x100_0000;
    assert x == 0x100 * a + x % 0x100;
    assert a == 0x100 * b + a % 0x100;
    assert b == 0x100 * d + b % 0x100;
  }

  /** A packet reads back as it was sent, with the payload type in its seven bits. */
  lemma ParseInvertsPacket(d: Packet)
    ensures ParsePacket(PacketBytes(d))
      == Some(Packet(d.header.(payloadType := d.header.payloadType % 0x80), d.payload))
  {
    var h := d.header;
    var p := PacketBytes(d);
    assert p[4..8] == BigEndian(h.timestamp);
    assert p[8..12] == BigEndian(h.ssrc);
    assert p[12..] == d.payload;
    BigEndianInverse(h.timestamp);
    BigEndianInverse(h.ssrc);
  }

  // ---------------------------------------------------------------------------------------------
  // The payloads that carry one NAL unit.

  function Flags(first: bool, last: bool): int {
    (if first then 0x80 else 0) + (if last then 0x40 else 0)
  }

  /** Payload header and FU header of a fragment. */
  function FuHeader(c: Codec, nal: seq<byte>, first: bool, last: bool): (h: seq<byte>)
    requires |nal| >= HeaderSize(c)
    ensures |h| == Overhead(c)
  {
    match c
    case H264 => [nal[0] / 0x20 % 4 * 0x20 + 28, Flags(first, last) + nal[0] % 0x20]
    case H265 => [nal[0] / 0x80 * 0x80 + 98 + nal[0] % 2, nal[1], Flags(first, last) + nal[0] / 2 % 0x40]
  }

  function Chunk(c: Codec, max: nat, left: nat): nat
    requires max > Overhead(c)
  {
    if max - Overhead(c) <= left then max - Overhead(c) else left
  }

  function Fragments(c: Codec, nal: seq<byte>, max: nat, offset: nat): seq<seq<byte>>
    requires max > Overhead(c) && HeaderSize(c) <= offset <= |nal|
    decreases |nal| - offset
  {
    if offset == |nal| then [] else
      var end := offset + Chunk(c, max, |nal| - offset);
      [FuHeader(c, nal, offset == HeaderSize(c), end == |nal|) + nal[offset..end]] + Fragments(c, nal, max, end)
  }

  /** The first fragment and the others. */
  lemma FragmentsCons(c: Codec, nal: seq<byte>, max: nat, offset: nat, end: nat, payload: seq<byte>)
    requires max > Overhead(c) && HeaderSize(c) <= offset < |nal|
    requires end == offset + Chunk(c, max, |nal| - offset)
    requires payload == FuHeader(c, nal, offset == HeaderSize(c), end == |nal|) + nal[offset..end]
    ensures Fragments(c, nal, max, offset) == [payload] + Fragments(c, nal, max, end)
    ensures end == |nal| <==> Fragments(c, nal, max, end) == []
  {
  }

  function Payloads(c: Codec, nal: seq<byte>, max: nat): seq<seq<byte>>
    requires max > Overhead(c)
  {
    if |nal| < HeaderSize(c) then []
    else if |nal| <= max then [nal]
    else Fragments(c, nal, max, HeaderSize(c))
  }

  function Starts(c: Codec, p: seq<byte>): bool
    requires |p| >= Overhead(c)
  {
    p[HeaderSize(c)] >= 0x80
  }

  function Finishes(c: Codec, p: seq<byte>): bool
    requires |p| >= Overhead(c)
  {
    p[HeaderSize(c)] % 0x80 >= 0x40
  }

  lemma FuFlags(c: Codec, nal: seq<byte>, first: bool, last: bool, data: seq<byte>)
    requires |nal| >= HeaderSize(c)
    ensures Starts(c, FuHeader(c, nal, first, last) + data) == first
    ensures Finishes(c, FuHeader(c, nal, first, last) + data) == last
  {
  }

  /**
   * Every payload fits; a fragmented unit is cut into at least two fragments, the start flag stands on the
   * first one alone and the end flag on the last one alone.
   */
  lemma {:induction false} FragmentShape(c: Codec, nal: seq<byte>, max: nat, offset: nat)
    requires max > Overhead(c) && HeaderSize(c) <= offset < |nal|
    ensures var fs := Fragments(c, nal, max, offset);
      && |fs| > 0
      && (|nal| - offset > max - Overhead(c) ==> |fs| > 1)
      && forall k :: 0 <= k < |fs| ==>
        && Overhead(c) < |fs[k]| <= max
        && Starts(c, fs[k]) == (k == 0 && offset == HeaderSize(c))
        && Finishes(c, fs[k]) == (k == |fs| - 1)
    decreases |nal| - offset
  {
    var end := offset + Chunk(c, max, |nal| - offset);
    var fs := Fragments(c, nal, max, offset);
    FuFlags(c, nal, offset == HeaderSize(c), end == |nal|, nal[offset..end]);
    if end < |nal| {
      var rest := Fragments(c, nal, max, end);
      FragmentShape(c, nal, max, end);
      assert fs[1..] == rest;
      forall k | 0 <= k < |fs|
        ensures Overhead(c) < |fs[k]| <= max
        ensures Starts(c, fs[k]) == (k == 0 && offset == HeaderSize(c))
        ensures Finishes(c, fs[k]) == (k == |fs| - 1)
      {
        if k > 0 { assert fs[k] == rest[k - 1]; }
      }
    } else {
      assert Fragments(c, nal, max, end) == [];
    }
  }

  lemma PayloadShape(c: Codec, nal: seq<byte>, max: nat)
    requires max > Overhead(c)
    ensures forall p :: p in Payloads(c, nal, max) ==> |p| <= max
    ensures |nal| >= HeaderSize(c) ==> Payloads(c, nal, max) != []
    ensures |nal| > max ==> var fs := Payloads(c, nal, max);
      && |fs| > 1
      && forall k :: 0 <= k < |fs| ==>
        && |fs[k]| > Overhead(c)
        && Starts(c, fs[k]) == (k == 0)
        && Finishes(c, fs[k]) == (k == |fs| - 1)
        && !(Starts(c, fs[k]) && Finishes(c, fs[k]))
  {
    if |nal| > max {
      FragmentShape(c, nal, max, HeaderSize(c));
    }
  }

  // ---------------------------------------------------------------------------------------------
  // Packets and sequence numbers.

  function Next(number: word): word {
    if number == 0xFFFF then 0 else number + 1
  }

  function Numbered(cfg: Config, number: word, timestamp: uint32, marker: bool, payload: seq<byte>): Packet {
    Packet(Header(marker, cfg.payloadType, number, timestamp, cfg.ssrc), payload)
  }

  /** The packets for `payloads` after sequence number `number`; the marker, if any, goes on the last of them. */
  function Packets(cfg: Config, number: word, payloads: seq<seq<byte>>, timestamp: uint32, marker: bool): seq<Packet>
    decreases payloads
  {
    if payloads == [] then [] else
      [Numbered(cfg, Next(number), timestamp, marker && |payloads| == 1, payloads[0])]
      + Packets(cfg, Next(number), payloads[1..], timestamp, marker)
  }

  function NalPackets(cfg: Config, number: word, nal: seq<byte>, timestamp: uint32, marker: bool): seq<Packet>
    requires Usable(cfg)
  {
    Packets(cfg, number, Payloads(cfg.codec, nal, cfg.maxPayload), timestamp, marker)
  }

  /** The sender: last sequence number used, calls made to the socket so far, packets it has taken. */
  datatype Sender = Sender(number: word, calls: nat, wire: seq<Packet>)

  /** Packets go out one by one; the first refused call gives up the rest. `up(k)` tells whether call `k` succeeds. */
  function Transmit(s: Sender, packets: seq<Packet>, up: nat -> bool): (Sender, bool)
    decreases packets
  {
    if packets == [] then (s, true)
    else if up(s.calls) then Transmit(Sender(Next(s.number), s.calls + 1, s.wire + [packets[0]]), packets[1..], up)
    else (Sender(Next(s.number), s.calls + 1, s.wire), false)
  }

  function SendNal(cfg: Config, s: Sender, nal: seq<byte>, timestamp: uint32, marker: bool, up: nat -> bool):
      (Sender, bool)
    requires Usable(cfg)
  {
    Transmit(s, NalPackets(cfg, s.number, nal, timestamp, marker), up)
  }

  /** All NAL units of an access unit, also after one of them was cut short. */
  function SendNals(cfg: Config, s: Sender, nals: seq<seq<byte>>, timestamp: uint32, up: nat -> bool): Sender
    requires Usable(cfg)
    decreases nals
  {
    if nals == [] then s else
      SendNals(cfg, SendNal(cfg, s, nals[0], timestamp, |nals| == 1, up).0, nals[1..], timestamp, up)
  }

  // ---------------------------------------------------------------------------------------------
  // The depacketiser.

  function TypeOf(c: Codec, p: seq<byte>): int
    requires |p| > 0
  {
    if c.H264? then p[0] % 0x20 else p[0] / 2 % 0x40
  }

  predicate SingleType(c: Codec, t: int) {
    if c.H264? then 1 <= t <= 23 else t < 48
  }

  function FuType(c: Codec): int {
    if c.H264? then 28 else 49
  }

  /** The NAL unit header that a fragment's payload header and FU header stand for. */
  function RestoredHeader(c: Codec, p: seq<byte>): (h: seq<byte>)
    requires |p| >= Overhead(c)
    ensures |h| == HeaderSize(c)
  {
    match c
    case H264 => [p[0] / 0x20 * 0x20 + p[1] % 0x20]
    case H265 => [p[0] / 0x80 * 0x80 + p[2] % 0x40 * 2 + p[0] % 2, p[1]]
  }

  /** One payload: what of a fragmented unit is still open, and the units it completes. */
  function Depack(c: Codec, open: Option<seq<byte>>, p: seq<byte>): (Option<seq<byte>>, seq<seq<byte>>) {
    if |p| < HeaderSize(c) then (None, [])
    else if SingleType(c, TypeOf(c, p)) then (None, [p])
    else if TypeOf(c, p) != FuType(c) || |p| < Overhead(c) then (None, [])
    else if Starts(c, p) then
      if Finishes(c, p) then (None, []) else (Some(RestoredHeader(c, p) + p[Overhead(c)..]), [])
    else if open.None? then (None, [])
    else if Finishes(c, p) then (None, [open.value + p[Overhead(c)..]])
    else (Some(open.value + p[Overhead(c)..]), [])
  }

  /**
   * The receiver: the fragmented unit still open, the last sequence number seen, the units of the access unit
   * under way, and the access units completed by a marker.
   */
  datatype Receiver = Receiver(open: Option<seq<byte>>, number: word, nals: seq<seq<byte>>, done: seq<seq<seq<byte>>>)

  function Arrive(c: Codec, r: Receiver, h: Header, payload: seq<byte>): Receiver {
    var (open, out) := Depack(c, if h.number == Next(r.number) then r.open else None, payload);
    if h.marker then Receiver(open, h.number, [], r.done + [r.nals + out])
    else Receiver(open, h.number, r.nals + out, r.done)
  }

  function ReceiveAll(c: Codec, r: Receiver, packets: seq<Packet>): Receiver
    decreases packets
  {
    if packets == [] then r else ReceiveAll(c, Arrive(c, r, packets[0].header, packets[0].payload), packets[1..])
  }

  /** The receiver on the bytes of datagrams; what does not parse is passed over. */
  function ReceiveBytes(c: Codec, r: Receiver, datagrams: seq<seq<byte>>): Receiver
    decreases datagrams
  {
    if datagrams == [] then r
    else
      match ParsePacket(datagrams[0])
      case None => ReceiveBytes(c, r, datagrams[1..])
      case Some(p) => ReceiveBytes(c, Arrive(c, r, p.header, p.payload), datagrams[1..])
  }

  function AllBytes(packets: seq<Packet>): seq<seq<byte>> {
    if packets == [] then [] else [PacketBytes(packets[0])] + AllBytes(packets[1..])
  }

  /** Receiving the bytes of packets is receiving the packets. */
  lemma {:induction false} BytesArrive(c: Codec, r: Receiver, packets: seq<Packet>)
    ensures ReceiveBytes(c, r, AllBytes(packets)) == ReceiveAll(c, r, packets)
    decreases packets
  {
    if packets != [] {
      var p := packets[0];
      ParseInvertsPacket(p);
      var r' := Arrive(c, r, p.header, p.payload);
      BytesArrive(c, r', packets[1..]);
      BytesStep(c, r, PacketBytes(p), ParsePacket(PacketBytes(p)).value, AllBytes(packets[1..]));
      assert r' == Arrive(c, r, p.header.(payloadType := p.header.payloadType % 0x80), p.payload);
    }
  }

  lemma BytesStep(c: Codec, r: Receiver, bytes: seq<byte>, p: Packet, rest: seq<seq<byte>>)
    requires ParsePacket(bytes) == Some(p)
    ensures ReceiveBytes(c, r, [bytes] + rest) == ReceiveBytes(c, Arrive(c, r, p.header, p.payload), rest)
  {
    assert ([bytes] + rest)[1..] == rest;
  }

  // ---------------------------------------------------------------------------------------------
  // One NAL unit there and back.

  function DepackAll(c: Codec, open: Option<seq<byte>>, payloads: seq<seq<byte>>): (Option<seq<byte>>, seq<seq<byte>>)
    decreases payloads
  {
    if payloads == [] then (open, []) else
      var (now, out) := Depack(c, open, payloads[0]);
      var (end, more) := DepackAll(c, now, payloads[1..]);
      (end, out + more)
  }

  /** The condition on a NAL unit under which it survives; the sender can read it off before sending. */
  predicate Survives(c: Codec, nal: seq<byte>, max: nat) {
    && |nal| >= HeaderSize(c)
    && (if |nal| <= max then SingleType(c, TypeOf(c, nal)) else c.H264? ==> nal[0] < 0x80)
  }

  /** The header a receiver rebuilds for a fragmented unit: the forbidden bit is dropped for H.264. */
  function RebuiltHeader(c: Codec, nal: seq<byte>): (h: seq<byte>)
    requires |nal| >= HeaderSize(c)
    ensures |h| == HeaderSize(c)
    ensures h == nal[..HeaderSize(c)] <==> (c.H264? ==> nal[0] < 0x80)
  {
    match c
    case H264 => [nal[0] % 0x80]
    case H265 => nal[..2]
  }

  lemma Fu264Reads(nal: seq<byte>, first: bool, last: bool, data: seq<byte>)
    requires |nal| >= 1
    ensures TypeOf(H264, FuHeader(H264, nal, first, last) + data) == FuType(H264)
    ensures RestoredHeader(H264, FuHeader(H264, nal, first, last) + data) == RebuiltHeader(H264, nal)
  {
    var p := FuHeader(H264, nal, first, last) + data;
    assert p[0] == nal[0] / 0x20 % 4 * 0x20 + 28;
    assert p[1] == Flags(first, last) + nal[0] % 0x20;
    Split20(nal[0], Flags(first, last));
  }

  lemma Fu265Reads(nal: seq<byte>, first: bool, last: bool, data: seq<byte>)
    requires |nal| >= 2
    ensures TypeOf(H265, FuHeader(H265, nal, first, last) + data) == FuType(H265)
    ensures RestoredHeader(H265, FuHeader(H265, nal, first, last) + data) == RebuiltHeader(H265, nal)
  {
    var p := FuHeader(H265, nal, first, last) + data;
    assert p[0] == nal[0] / 0x80 * 0x80 + 98 + nal[0] % 2;
    assert p[1] == nal[1];
    assert p[2] == Flags(first, last) + nal[0] / 2 % 0x40;
    Split80(nal[0], Flags(first, last));
  }

  /** What a receiver makes of one fragment of `nal`. */
  lemma DepackFragment(
      c: Codec, open: Option<seq<byte>>, nal: seq<byte>, first: bool, last: bool, data: seq<byte>, p: seq<byte>)
    requires |nal| >= HeaderSize(c) && !(first && last)
    requires !first ==> open.Some?
    requires p == FuHeader(c, nal, first, last) + data
    ensures var sofar := (if first then RebuiltHeader(c, nal) else open.value) + data;
      Depack(c, open, p) == if last then (None, [sofar]) else (Some(sofar), [])
  {
    FuFlags(c, nal, first, last, data);
    assert p[Overhead(c)..] == data;
    if c.H264? {
      Fu264Reads(nal, first, last, data);
    } else {
      Fu265Reads(nal, first, last, data);
    }
  }

  lemma Split20(x: byte, flags: int)
    requires flags in {0, 0x40, 0x80, 0xC0}
    ensures (flags + x % 0x20) % 0x20 == x % 0x20
    ensures (x / 0x20 % 4 * 0x20 + 28) % 0x20 == 28
    ensures (x / 0x20 % 4 * 0x20 + 28) / 0x20 * 0x20 + x % 0x20 == x % 0x80
  {
  }

  lemma Split80(x: byte, flags: int)
    requires flags in {0, 0x40, 0x80, 0xC0}
    ensures (flags + x / 2 % 0x40) % 0x40 == x / 2 % 0x40
    ensures (x / 0x80 * 0x80 + 98 + x % 2) / 2 % 0x40 == 49
    ensures (x / 0x80 * 0x80 + 98 + x % 2) / 0x80 == x / 0x80
    ensures x / 0x80 * 0x80 + x / 2 % 0x40 * 2 + x % 2 == x
  {
  }

  lemma DepackCons(c: Codec, open: Option<seq<byte>>, p: seq<byte>, rest: seq<seq<byte>>)
    ensures var (now, out) := Depack(c, open, p);
      var (end, more) := DepackAll(c, now, rest);
      DepackAll(c, open, [p] + rest) == (end, out + more)
  {
    assert ([p] + rest)[1..] == rest;
  }

  lemma Glue(front: seq<byte>, nal: seq<byte>, i: nat, j: nat)
    requires i <= j <= |nal|
    ensures front + nal[i..j] + nal[j..] == front + nal[i..]
  {
  }

  lemma {:induction false} FragmentsJoin(
      c: Codec, nal: seq<byte>, max: nat, offset: nat, open: Option<seq<byte>>, sofar: seq<byte>)
    requires max > Overhead(c) && HeaderSize(c) <= offset < |nal|
    requires if offset == HeaderSize(c) then |nal| > max && sofar == RebuiltHeader(c, nal) else open == Some(sofar)
    ensures DepackAll(c, open, Fragments(c, nal, max, offset)) == (None, [sofar + nal[offset..]])
    decreases |nal| - offset, 1
  {
    var end := offset + Chunk(c, max, |nal| - offset);
    var first, last := offset == HeaderSize(c), end == |nal|;
    var data := nal[offset..end];
    var p := FuHeader(c, nal, first, last) + data;
    FragmentsCons(c, nal, max, offset, end, p);
    DepackFragment(c, open, nal, first, last, data, p);
    JoinOne(c, nal, max, offset, end, open, sofar, p);
  }

  lemma JoinOne(
      c: Codec, nal: seq<byte>, max: nat, offset: nat, end: nat, open: Option<seq<byte>>,
      sofar: seq<byte>, p: seq<byte>)
    requires max > Overhead(c) && HeaderSize(c) <= offset < end <= |nal|
    requires Depack(c, open, p) ==
      if end == |nal| then (None, [sofar + nal[offset..end]]) else (Some(sofar + nal[offset..end]), [])
    ensures DepackAll(c, open, [p] + Fragments(c, nal, max, end)) == (None, [sofar + nal[offset..]])
    decreases |nal| - offset, 0
  {
    DepackCons(c, open, p, Fragments(c, nal, max, end));
    if end == |nal| {
      assert nal[offset..end] == nal[offset..];
      assert Fragments(c, nal, max, end) == [];
      assert [sofar + nal[offset..]] + [] == [sofar + nal[offset..]];
    } else {
      var more := sofar + nal[offset..end];
      FragmentsJoin(c, nal, max, end, Some(more), more);
      Glue(sofar, nal, offset, end);
      assert [] + [sofar + nal[offset..]] == [sofar + nal[offset..]];
    }
  }

  /** A unit that is not of a single type is not what a receiver makes of it. */
  lemma SingleDepack(c: Codec, open: Option<seq<byte>>, nal: seq<byte>)
    requires |nal| >= HeaderSize(c)
    ensures DepackAll(c, open, [nal]) == Depack(c, open, nal)
    ensures SingleType(c, TypeOf(c, nal)) ==> Depack(c, open, nal) == (None, [nal])
    ensures !SingleType(c, TypeOf(c, nal)) ==> Depack(c, None, nal).1 == []
  {
    var (now, out) := Depack(c, open, nal);
    assert DepackAll(c, now, []) == (now, []);
    assert [nal][1..] == [];
    assert out + [] == out;
  }

  /** A NAL unit comes back unchanged from its payloads exactly when `Survives` says so. */
  lemma NalRoundTripIff(c: Codec, nal: seq<byte>, max: nat, open: Option<seq<byte>>)
    requires max > Overhead(c)
    ensures Survives(c, nal, max) ==> DepackAll(c, open, Payloads(c, nal, max)) == (None, [nal])
    ensures DepackAll(c, None, Payloads(c, nal, max)).1 == [nal] ==> Survives(c, nal, max)
  {
    var hs := HeaderSize(c);
    if |nal| > max {
      FragmentsJoin(c, nal, max, hs, open, RebuiltHeader(c, nal));
      FragmentsJoin(c, nal, max, hs, None, RebuiltHeader(c, nal));
      var back := RebuiltHeader(c, nal) + nal[hs..];
      assert nal == nal[..hs] + nal[hs..];
      assert back[..hs] == RebuiltHeader(c, nal);
    } else if |nal| >= hs {
      SingleDepack(c, open, nal);
      SingleDepack(c, None, nal);
    }
  }

  /** A long H.264 unit with its forbidden bit set comes back with the bit cleared, so as another unit. */
  lemma ForbiddenBitIsLost(nal: seq<byte>, max: nat)
    requires max > Overhead(H264) && |nal| > max && nal[0] >= 0x80
    ensures DepackAll(H264, None, Payloads(H264, nal, max)) == (None, [[nal[0] - 0x80] + nal[1..]])
    ensures [nal[0] - 0x80] + nal[1..] != nal
  {
    FragmentsJoin(H264, nal, max, 1, None, RebuiltHeader(H264, nal));
    assert nal == [nal[0]] + nal[1..];
    assert ([nal[0] - 0x80] + nal[1..])[0] != nal[0];
  }

  // ---------------------------------------------------------------------------------------------
  // Access units there and back.

  function Advance(number: word, n: nat): word
    decreases n
  {
    if n == 0 then number else Advance(Next(number), n - 1)
  }

  /** Where a receiver stands after `n` more packets that leave `open` and `out`. */
  function After(r: Receiver, n: nat, open: Option<seq<byte>>, out: seq<seq<byte>>, marker: bool): Receiver {
    if marker then Receiver(open, Advance(r.number, n), [], r.done + [r.nals + out])
    else Receiver(open, Advance(r.number, n), r.nals + out, r.done)
  }

  lemma AfterTwice(r: Receiver, now: Option<seq<byte>>, out: seq<seq<byte>>,
      n: nat, open: Option<seq<byte>>, more: seq<seq<byte>>, marker: bool)
    ensures After(After(r, 1, now, out, false), n, open, more, marker) == After(r, n + 1, open, out + more, marker)
  {
    assert r.nals + out + more == r.nals + (out + more);
  }

  lemma PacketArrives(cfg: Config, r: Receiver, timestamp: uint32, marker: bool, payload: seq<byte>)
    ensures var (open, out) := Depack(cfg.codec, r.open, payload);
      var p := Numbered(cfg, Next(r.number), timestamp, marker, payload);
      Arrive(cfg.codec, r, p.header, payload) == After(r, 1, open, out, marker)
  {
    assert Advance(r.number, 1) == Next(r.number);
  }

  lemma {:induction false} PacketsArrive(
      cfg: Config, r: Receiver, payloads: seq<seq<byte>>, timestamp: uint32, marker: bool)
    requires payloads != []
    ensures var (open, out) := DepackAll(cfg.codec, r.open, payloads);
      ReceiveAll(cfg.codec, r, Packets(cfg, r.number, payloads, timestamp, marker))
      == After(r, |payloads|, open, out, marker)
    decreases payloads
  {
    var c := cfg.codec;
    var packet := Numbered(cfg, Next(r.number), timestamp, marker && |payloads| == 1, payloads[0]);
    var rest := Packets(cfg, Next(r.number), payloads[1..], timestamp, marker);
    PacketArrives(cfg, r, timestamp, marker && |payloads| == 1, payloads[0]);
    var r' := Arrive(c, r, packet.header, packet.payload);
    assert ([packet] + rest)[1..] == rest;
    assert ReceiveAll(c, r, [packet] + rest) == ReceiveAll(c, r', rest);
    assert payloads == [payloads[0]] + payloads[1..];
    DepackCons(c, r.open, payloads[0], payloads[1..]);
    var (now, out) := Depack(c, r.open, payloads[0]);
    if |payloads| > 1 {
      PacketsArrive(cfg, r', payloads[1..], timestamp, marker);
      var (end, more) := DepackAll(c, now, payloads[1..]);
      AfterTwice(r, now, out, |payloads| - 1, end, more, marker);
    } else {
      assert out + [] == out;
    }
  }

  lemma {:induction false} ReceiveConcat(c: Codec, r: Receiver, a: seq<Packet>, b: seq<Packet>)
    ensures ReceiveAll(c, r, a + b) == ReceiveAll(c, ReceiveAll(c, r, a), b)
    decreases a
  {
    if a == [] {
      assert a + b == b;
    } else {
      assert (a + b)[1..] == a[1..] + b;
      ReceiveConcat(c, Arrive(c, r, a[0].header, a[0].payload), a[1..], b);
    }
  }
}
