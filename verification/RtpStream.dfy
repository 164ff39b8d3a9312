/**
 * The RTP sender as a whole: splitting each access unit, packetising its NAL units, and sending them, against
 * the receiver that puts the access units together again.
 */
module RtpStream {
  import opened Bits
  import opened Options
  import opened AnnexB
  import opened Rtp

  class StreamSender {
    const cfg: Config
    var number: word
    var calls: nat
    var wire: seq<seq<byte>>
    ghost var sent: seq<Packet>

    /** The datagrams handed to the socket are the packets sent, in bytes. */
    ghost predicate Valid()
      reads this
    {
      wire == AllBytes(sent)
    }

    ghost function State(): Sender
      reads this
    {
      Sender(number, calls, sent)
    }

    constructor (cfg: Config)
      ensures this.cfg == cfg && Valid() && State() == Sender(0, 0, [])
    {
      this.cfg := cfg;
      number, calls, wire, sent := 0, 0, [], [];
    }

    /** Numbers, builds and sends one packet. */
    method SendPayload(payload: seq<byte>, timestamp: uint32, marker: bool, up: nat -> bool) returns (ok: bool)
      requires Valid()
      modifies this
      ensures Valid()
      ensures (State(), ok) == old(Transmit(State(), [Numbered(cfg, Next(number), timestamp, marker, payload)], up))
    {
      number := Next(number);
      var packet := Numbered(cfg, number, timestamp, marker, payload);
      var datagram := PacketBytes(packet);
      ok := up(calls);
      calls := calls + 1;
      if ok {
        BytesAppend(sent, packet);
        wire := wire + [datagram];
        sent := sent + [packet];
      }
    }

    method SendH264Nal(nal: seq<byte>, timestamp: uint32, marker: bool, up: nat -> bool) returns (ok: bool)
      requires Valid() && cfg.codec == H264 && Usable(cfg)
      modifies this
      ensures Valid()
      ensures (State(), ok) == old(SendNal(cfg, State(), nal, timestamp, marker, up))
    {
      if |nal| == 0 {
        return true;
      }
      if |nal| <= cfg.maxPayload {
        ok := SendPayload(nal, timestamp, marker, up);
        OnePacket(cfg, old(State()), nal, timestamp, marker);
        return ok;
      }
      ok := SendH264Fragments(nal, timestamp, marker, up);
    }

    /** The fragmentation loop. */
    method SendH264Fragments(nal: seq<byte>, timestamp: uint32, marker: bool, up: nat -> bool) returns (ok: bool)
      requires Valid() && cfg.codec == H264 && Usable(cfg) && |nal| >= 1
      modifies this
      ensures Valid()
      ensures Owed(cfg, (State(), ok), old(State()), nal, 1, timestamp, marker, up)
    {
      var offset := 1;
      var first := true;
      ghost var goal := Outcome(cfg, State(), nal, offset, timestamp, marker, up);
      while offset < |nal|
        invariant Valid() && 1 <= offset <= |nal| && first == (offset == 1)
        invariant Owed(cfg, goal, State(), nal, offset, timestamp, marker, up)
      {
        var chunk := Chunk(H264, cfg.maxPayload, |nal| - offset);
        var last := offset + chunk >= |nal|;
        var payload := FuHeader(H264, nal, first, last) + nal[offset..offset + chunk];
        ghost var s := State();
        ok := SendPayload(payload, timestamp, if last then marker else false, up);
        FragmentSent(cfg, goal, s, nal, offset, offset + chunk, payload, timestamp, marker, up, State(), ok);
        if !ok {
          return false;
        }
        offset := offset + chunk;
        first := false;
      }
      ok := true;
    }

    method SendH265Nal(nal: seq<byte>, timestamp: uint32, marker: bool, up: nat -> bool) returns (ok: bool)
      requires Valid() && cfg.codec == H265 && Usable(cfg)
      modifies this
      ensures Valid()
      ensures (State(), ok) == old(SendNal(cfg, State(), nal, timestamp, marker, up))
    {
      if |nal| < 2 {
        return true;
      }
      if |nal| <= cfg.maxPayload {
        ok := SendPayload(nal, timestamp, marker, up);
        OnePacket(cfg, old(State()), nal, timestamp, marker);
        return ok;
      }
      ok := SendH265Fragments(nal, timestamp, marker, up);
    }

    /** The fragmentation loop. */
    method SendH265Fragments(nal: seq<byte>, timestamp: uint32, marker: bool, up: nat -> bool) returns (ok: bool)
      requires Valid() && cfg.codec == H265 && Usable(cfg) && |nal| >= 2
      modifies this
      ensures Valid()
      ensures Owed(cfg, (State(), ok), old(State()), nal, 2, timestamp, marker, up)
    {
      var offset := 2;
      var first := true;
      ghost var goal := Outcome(cfg, State(), nal, offset, timestamp, marker, up);
      while offset < |nal|
        invariant Valid() && 2 <= offset <= |nal| && first == (offset == 2)
        invariant Owed(cfg, goal, State(), nal, offset, timestamp, marker, up)
      {
        var chunk := Chunk(H265, cfg.maxPayload, |nal| - offset);
        var last := offset + chunk >= |nal|;
        var payload := FuHeader(H265, nal, first, last) + nal[offset..offset + chunk];
        ghost var s := State();
        ok := SendPayload(payload, timestamp, if last then marker else false, up);
        FragmentSent(cfg, goal, s, nal, offset, offset + chunk, payload, timestamp, marker, up, State(), ok);
        if !ok {
          return false;
        }
        offset := offset + chunk;
        first := false;
      }
      ok := true;
    }

    /** One turn of the sender loop: a refused NAL unit is logged and the next one is tried. */
    method SendAccessUnit(data: seq<byte>, timestamp: uint32, up: nat -> bool)
      requires Valid() && Usable(cfg)
      modifies this
      ensures Valid()
      ensures State() == old(SendNals(cfg, State(), Split(data), timestamp, up))
    {
      var nals := SplitAnnexB(data);
      var k := 0;
      while k < |nals|
        invariant Valid() && k <= |nals|
        invariant SendNals(cfg, old(State()), nals, timestamp, up) == SendNals(cfg, State(), nals[k..], timestamp, up)
      {
        var marker := k + 1 == |nals|;
        var ok: bool;
        assert nals[k..][0] == nals[k] && nals[k..][1..] == nals[k + 1..];
        if cfg.codec.H265? {
          ok := SendH265Nal(nals[k], timestamp, marker, up);
        } else {
          ok := SendH264Nal(nals[k], timestamp, marker, up);
        }
        k := k + 1;
      }
    }
  }

  lemma {:induction false} BytesAppend(packets: seq<Packet>, p: Packet)
    ensures AllBytes(packets + [p]) == AllBytes(packets) + [PacketBytes(p)]
    decreases packets
  {
    if packets == [] {
      assert [p][1..] == [];
      assert AllBytes([p]) == [PacketBytes(p)] + AllBytes([p][1..]);
    } else {
      assert (packets + [p])[1..] == packets[1..] + [p];
      BytesAppend(packets[1..], p);
    }
  }

  lemma OnePacket(cfg: Config, s: Sender, nal: seq<byte>, timestamp: uint32, marker: bool)
    requires Usable(cfg) && HeaderSize(cfg.codec) <= |nal| <= cfg.maxPayload
    ensures NalPackets(cfg, s.number, nal, timestamp, marker) == [Numbered(cfg, Next(s.number), timestamp, marker, nal)]
  {
    assert [nal][1..] == [];
    assert Packets(cfg, Next(s.number), [], timestamp, marker) == [];
  }

  /** Where sending the fragments from `offset` on ends. */
  function Outcome(cfg: Config, s: Sender, nal: seq<byte>, offset: nat, timestamp: uint32,
      marker: bool, up: nat -> bool):
      (Sender, bool)
    requires Usable(cfg) && HeaderSize(cfg.codec) <= offset <= |nal|
  {
    Transmit(s, Packets(cfg, s.number, Fragments(cfg.codec, nal, cfg.maxPayload, offset), timestamp, marker), up)
  }

  /** Sending the fragments from `offset` on ends in `goal`. */
  ghost predicate Owed(cfg: Config, goal: (Sender, bool), s: Sender, nal: seq<byte>, offset: nat,
      timestamp: uint32, marker: bool, up: nat -> bool)
    requires Usable(cfg) && HeaderSize(cfg.codec) <= offset <= |nal|
  {
    goal == Outcome(cfg, s, nal, offset, timestamp, marker, up)
  }

  /** Sending the fragments from `offset` on is sending the first of them and then the others. */
  lemma FragmentSent(cfg: Config, goal: (Sender, bool), s: Sender, nal: seq<byte>, offset: nat, end: nat,
      payload: seq<byte>,
      timestamp: uint32, marker: bool, up: nat -> bool, s': Sender, ok: bool)
    requires Usable(cfg) && HeaderSize(cfg.codec) <= offset < |nal|
    requires Owed(cfg, goal, s, nal, offset, timestamp, marker, up)
    requires end == offset + Chunk(cfg.codec, cfg.maxPayload, |nal| - offset)
    requires payload == FuHeader(cfg.codec, nal, offset == HeaderSize(cfg.codec), end == |nal|) + nal[offset..end]
    requires (s', ok) == Transmit(s, [Numbered(cfg, Next(s.number), timestamp, end == |nal| && marker, payload)], up)
    ensures if ok then Owed(cfg, goal, s', nal, end, timestamp, marker, up) else goal == (s', false)
  {
    var rest := Fragments(cfg.codec, nal, cfg.maxPayload, end);
    FragmentsCons(cfg.codec, nal, cfg.maxPayload, offset, end, payload);
    PayloadSent(cfg, s, payload, rest, timestamp, marker, up);
  }

  lemma PayloadSent(
      cfg: Config, s: Sender, payload: seq<byte>, rest: seq<seq<byte>>, timestamp: uint32,
      marker: bool, up: nat -> bool)
    ensures var packet := Numbered(cfg, Next(s.number), timestamp, rest == [] && marker, payload);
      var (s', ok) := Transmit(s, [packet], up);
      Transmit(s, Packets(cfg, s.number, [payload] + rest, timestamp, marker), up)
      == if ok then Transmit(s', Packets(cfg, s'.number, rest, timestamp, marker), up) else (s', false)
  {
    var packet := Numbered(cfg, Next(s.number), timestamp, rest == [] && marker, payload);
    var packets := Packets(cfg, Next(s.number), rest, timestamp, marker);
    assert ([payload] + rest)[1..] == rest;
    assert Packets(cfg, s.number, [payload] + rest, timestamp, marker) == [packet] + packets;
    TransmitCons(s, packet, packets, up);
  }

  lemma TransmitCons(s: Sender, packet: Packet, packets: seq<Packet>, up: nat -> bool)
    ensures var (s', ok) := Transmit(s, [packet], up);
      && s'.number == Next(s.number)
      && Transmit(s, [packet] + packets, up) == if ok then Transmit(s', packets, up) else (s', false)
  {
    assert ([packet] + packets)[1..] == packets;
    assert [packet][1..] == [];
  }

  // ---------------------------------------------------------------------------------------------
  // What goes over the wire when every call succeeds.

  function AuPackets(cfg: Config, number: word, nals: seq<seq<byte>>, timestamp: uint32): seq<Packet>
    requires Usable(cfg)
    decreases nals
  {
    if nals == [] then [] else
      var ps := NalPackets(cfg, number, nals[0], timestamp, |nals| == 1);
      ps + AuPackets(cfg, Advance(number, |ps|), nals[1..], timestamp)
  }

  lemma {:induction false} TransmitAll(s: Sender, packets: seq<Packet>, up: nat -> bool)
    requires forall k: nat :: up(k)
    ensures Transmit(s, packets, up)
      == (Sender(Advance(s.number, |packets|), s.calls + |packets|, s.wire + packets), true)
    decreases packets
  {
    if packets == [] {
      assert s.wire + [] == s.wire;
    } else {
      TransmitAll(Sender(Next(s.number), s.calls + 1, s.wire + [packets[0]]), packets[1..], up);
      assert s.wire + [packets[0]] + packets[1..] == s.wire + packets;
    }
  }

  lemma {:induction false} AdvanceSum(number: word, a: nat, b: nat)
    ensures Advance(Advance(number, a), b) == Advance(number, a + b)
    decreases a
  {
    if a != 0 {
      AdvanceSum(Next(number), a - 1, b);
    }
  }

  lemma {:induction false} AuSent(cfg: Config, s: Sender, nals: seq<seq<byte>>, timestamp: uint32, up: nat -> bool)
    requires Usable(cfg) && forall k: nat :: up(k)
    ensures var ps := AuPackets(cfg, s.number, nals, timestamp);
      SendNals(cfg, s, nals, timestamp, up) == Sender(Advance(s.number, |ps|), s.calls + |ps|, s.wire + ps)
    decreases nals
  {
    if nals == [] {
      assert s.wire + [] == s.wire;
    } else {
      var ps := NalPackets(cfg, s.number, nals[0], timestamp, |nals| == 1);
      TransmitAll(s, ps, up);
      var s' := Sender(Advance(s.number, |ps|), s.calls + |ps|, s.wire + ps);
      AuSent(cfg, s', nals[1..], timestamp, up);
      var more := AuPackets(cfg, s'.number, nals[1..], timestamp);
      AdvanceSum(s.number, |ps|, |more|);
      assert s.wire + ps + more == s.wire + (ps + more);
    }
  }

  /** Whatever the socket refuses, a prefix of the packets goes out, and all of them exactly if none is refused. */
  lemma {:induction false} TransmitPrefix(s: Sender, packets: seq<Packet>, up: nat -> bool) returns (n: nat)
    ensures n <= |packets| && forall k :: s.calls <= k < s.calls + n ==> up(k)
    ensures n < |packets| ==> !up(s.calls + n)
    ensures Transmit(s, packets, up) ==
      if n == |packets| then (Sender(Advance(s.number, n), s.calls + n, s.wire + packets), true)
      else (Sender(Advance(s.number, n + 1), s.calls + n + 1, s.wire + packets[..n]), false)
    decreases packets
  {
    if packets == [] {
      n := 0;
      assert s.wire + [] == s.wire;
    } else if up(s.calls) {
      var s' := Sender(Next(s.number), s.calls + 1, s.wire + [packets[0]]);
      var m := TransmitPrefix(s', packets[1..], up);
      n := m + 1;
      assert s'.wire + packets[1..][..m] == s.wire + packets[..n];
      assert s'.wire + packets[1..] == s.wire + packets;
    } else {
      n := 0;
      assert s.wire + packets[..0] == s.wire;
      assert Advance(s.number, 1) == Next(s.number);
    }
  }

  // ---------------------------------------------------------------------------------------------
  // Round trip.

  lemma {:induction false} PacketCount(
      cfg: Config, number: word, payloads: seq<seq<byte>>, timestamp: uint32, marker: bool)
    ensures |Packets(cfg, number, payloads, timestamp, marker)| == |payloads|
    decreases payloads
  {
    if payloads != [] {
      PacketCount(cfg, Next(number), payloads[1..], timestamp, marker);
    }
  }

  predicate AllSurvive(cfg: Config, nals: seq<seq<byte>>) {
    forall nal :: nal in nals ==> Survives(cfg.codec, nal, cfg.maxPayload)
  }

  lemma NalArrives(cfg: Config, r: Receiver, nal: seq<byte>, timestamp: uint32, marker: bool)
    requires Usable(cfg) && Survives(cfg.codec, nal, cfg.maxPayload)
    ensures var ps := NalPackets(cfg, r.number, nal, timestamp, marker);
      ReceiveAll(cfg.codec, r, ps) == After(r, |ps|, None, [nal], marker)
  {
    var payloads := Payloads(cfg.codec, nal, cfg.maxPayload);
    PayloadShape(cfg.codec, nal, cfg.maxPayload);
    NalRoundTripIff(cfg.codec, nal, cfg.maxPayload, r.open);
    PacketsArrive(cfg, r, payloads, timestamp, marker);
    PacketCount(cfg, r.number, payloads, timestamp, marker);
  }

  lemma {:induction false} AuArrives(cfg: Config, r: Receiver, nals: seq<seq<byte>>, timestamp: uint32)
    requires Usable(cfg) && nals != [] && AllSurvive(cfg, nals)
    ensures var ps := AuPackets(cfg, r.number, nals, timestamp);
      ReceiveAll(cfg.codec, r, ps) == Receiver(None, Advance(r.number, |ps|), [], r.done + [r.nals + nals])
    decreases nals
  {
    var c := cfg.codec;
    var ps := NalPackets(cfg, r.number, nals[0], timestamp, |nals| == 1);
    var more := AuPackets(cfg, Advance(r.number, |ps|), nals[1..], timestamp);
    NalArrives(cfg, r, nals[0], timestamp, |nals| == 1);
    ReceiveConcat(c, r, ps, more);
    AdvanceSum(r.number, |ps|, |more|);
    if |nals| == 1 {
      assert nals == [nals[0]];
      assert more == [];
    } else {
      var r' := After(r, |ps|, None, [nals[0]], false);
      AuArrives(cfg, r', nals[1..], timestamp);
      assert r.nals + [nals[0]] + nals[1..] == r.nals + nals;
    }
  }

  /** An access unit as the encoder hands it over: its byte stream and its time. */
  datatype AccessUnit = AccessUnit(units: seq<Unit>, timestamp: uint32)

  predicate Sendable(cfg: Config, au: AccessUnit) {
    au.units != [] && WellFormed(au.units) && AllSurvive(cfg, Nals(au.units))
  }

  predicate AllSendable(cfg: Config, aus: seq<AccessUnit>) {
    forall au :: au in aus ==> Sendable(cfg, au)
  }

  function SendSession(cfg: Config, s: Sender, aus: seq<AccessUnit>, up: nat -> bool): Sender
    requires Usable(cfg)
    decreases aus
  {
    if aus == [] then s
    else SendSession(cfg, SendNals(cfg, s, Split(Stream(aus[0].units)), aus[0].timestamp, up), aus[1..], up)
  }

  function Sent(aus: seq<AccessUnit>): seq<seq<seq<byte>>> {
    if aus == [] then [] else [Nals(aus[0].units)] + Sent(aus[1..])
  }

  /** A receiver that has heard nothing yet, in step with a sender that has sent nothing. */
  function Fresh(): Receiver {
    Receiver(None, 0, [], [])
  }

  /** The receiver has heard all of the wire and is between access units, having completed `done`. */
  predicate InStep(cfg: Config, s: Sender, done: seq<seq<seq<byte>>>) {
    var r := ReceiveAll(cfg.codec, Fresh(), s.wire);
    r.number == s.number && r.nals == [] && r.done == done
  }

  lemma AuRoundTrip(cfg: Config, s: Sender, au: AccessUnit, up: nat -> bool, done: seq<seq<seq<byte>>>)
    requires Usable(cfg) && forall k: nat :: up(k)
    requires Sendable(cfg, au) && InStep(cfg, s, done)
    ensures InStep(cfg, SendNals(cfg, s, Split(Stream(au.units)), au.timestamp, up), done + [Nals(au.units)])
  {
    var nals := Nals(au.units);
    var r := ReceiveAll(cfg.codec, Fresh(), s.wire);
    var ps := AuPackets(cfg, s.number, nals, au.timestamp);
    SplitInvertsStream(au.units);
    AuSent(cfg, s, nals, au.timestamp, up);
    AuArrives(cfg, r, nals, au.timestamp);
    ReceiveConcat(cfg.codec, Fresh(), s.wire, ps);
    assert [] + nals == nals;
  }

  /**
   * A receiver that has followed the stream up to now gets every access unit of a session, each with exactly
   * its NAL units, in order, and is then between access units again.
   */
  lemma {:induction false} SessionRoundTrip(
      cfg: Config, s: Sender, aus: seq<AccessUnit>, up: nat -> bool, done: seq<seq<seq<byte>>>)
    requires Usable(cfg) && forall k: nat :: up(k)
    requires AllSendable(cfg, aus) && InStep(cfg, s, done)
    ensures InStep(cfg, SendSession(cfg, s, aus, up), done + Sent(aus))
    decreases aus
  {
    SentCons(aus, done);
    if aus != [] {
      AuRoundTrip(cfg, s, aus[0], up, done);
      var s' := SendNals(cfg, s, Split(Stream(aus[0].units)), aus[0].timestamp, up);
      SessionRoundTrip(cfg, s', aus[1..], up, done + [Nals(aus[0].units)]);
    }
  }

  lemma SentCons(aus: seq<AccessUnit>, done: seq<seq<seq<byte>>>)
    ensures done + Sent(aus) == if aus == [] then done else done + [Nals(aus[0].units)] + Sent(aus[1..])
  {
  }

  /** The same in bytes, from the first datagram on: what the sockets carry is what was sent. */
  lemma SessionRoundTripInBytes(cfg: Config, aus: seq<AccessUnit>, up: nat -> bool)
    requires Usable(cfg) && AllSendable(cfg, aus) && forall k: nat :: up(k)
    ensures var s := SendSession(cfg, Sender(0, 0, []), aus, up);
      ReceiveBytes(cfg.codec, Fresh(), AllBytes(s.wire)).done == Sent(aus)
  {
    SessionRoundTrip(cfg, Sender(0, 0, []), aus, up, []);
    BytesArrive(cfg.codec, Fresh(), SendSession(cfg, Sender(0, 0, []), aus, up).wire);
    assert [] + Sent(aus) == Sent(aus);
  }

  // ---------------------------------------------------------------------------------------------
  // Headers on the wire.

  /** Sequence numbers count modulo 2^16. */
  lemma {:induction false} AdvanceIsSum(number: word, n: nat)
    ensures Advance(number, n) == (number + n) % 0x1_0000
    decreases n
  {
    if n != 0 {
      AdvanceIsSum(Next(number), n - 1);
    }
  }

  lemma {:induction false} PacketHeader(
      cfg: Config, number: word, payloads: seq<seq<byte>>, timestamp: uint32, marker: bool, k: nat)
    requires k < |payloads|
    ensures |Packets(cfg, number, payloads, timestamp, marker)| == |payloads|
    ensures Packets(cfg, number, payloads, timestamp, marker)[k]
      == Numbered(cfg, Advance(number, k + 1), timestamp, marker && k == |payloads| - 1, payloads[k])
    decreases payloads
  {
    PacketCount(cfg, number, payloads, timestamp, marker);
    if k == 0 {
      assert Advance(number, 1) == Next(number);
    } else {
      PacketHeader(cfg, Next(number), payloads[1..], timestamp, marker, k - 1);
    }
  }

  /** The packet is number `k` after `number`, fits, and carries the marker if `last`. */
  predicate HeaderIs(cfg: Config, packet: Packet, number: word, k: nat, timestamp: uint32, last: bool) {
    && packet.header == Header(last, cfg.payloadType, Advance(number, k + 1), timestamp, cfg.ssrc)
    && |packet.payload| <= cfg.maxPayload
  }

  lemma NalHeader(cfg: Config, number: word, nal: seq<byte>, timestamp: uint32, marker: bool, k: nat)
    requires Usable(cfg)
    requires k < |NalPackets(cfg, number, nal, timestamp, marker)|
    ensures var ps := NalPackets(cfg, number, nal, timestamp, marker);
      HeaderIs(cfg, ps[k], number, k, timestamp, marker && k == |ps| - 1)
  {
    var payloads := Payloads(cfg.codec, nal, cfg.maxPayload);
    PayloadShape(cfg.codec, nal, cfg.maxPayload);
    PacketCount(cfg, number, payloads, timestamp, marker);
    PacketHeader(cfg, number, payloads, timestamp, marker, k);
    assert payloads[k] in payloads;
  }

  lemma HeaderShift(cfg: Config, packet: Packet, number: word, n: nat, k: nat, timestamp: uint32, last: bool)
    requires HeaderIs(cfg, packet, Advance(number, n), k, timestamp, last)
    ensures HeaderIs(cfg, packet, number, n + k, timestamp, last)
  {
    AdvanceSum(number, n, k + 1);
  }

  /** The last unit is long enough to be sent. */
  predicate LastIsSent(c: Codec, nals: seq<seq<byte>>) {
    nals != [] && |nals[|nals| - 1]| >= HeaderSize(c)
  }

  /**
   * In the packets of an access unit the sequence numbers follow one another and every payload fits. The marker stands
   * on the last packet alone, exactly if the last unit is long enough to be sent; otherwise on none.
   */
  lemma {:induction false} AuHeader(cfg: Config, number: word, nals: seq<seq<byte>>, timestamp: uint32, k: nat)
    requires Usable(cfg)
    requires k < |AuPackets(cfg, number, nals, timestamp)|
    ensures var ps := AuPackets(cfg, number, nals, timestamp);
      HeaderIs(cfg, ps[k], number, k, timestamp, k == |ps| - 1 && LastIsSent(cfg.codec, nals))
    decreases nals
  {
    var ps := NalPackets(cfg, number, nals[0], timestamp, |nals| == 1);
    var more := AuPackets(cfg, Advance(number, |ps|), nals[1..], timestamp);
    if k < |ps| {
      NalHeader(cfg, number, nals[0], timestamp, |nals| == 1, k);
      if |nals| > 1 && LastIsSent(cfg.codec, nals) {
        LastIsPacked(cfg, Advance(number, |ps|), nals[1..], timestamp);
      }
    } else {
      AuHeader(cfg, Advance(number, |ps|), nals[1..], timestamp, k - |ps|);
      HeaderShift(cfg, more[k - |ps|], number, |ps|, k - |ps|, timestamp,
        k - |ps| == |more| - 1 && LastIsSent(cfg.codec, nals[1..]));
    }
  }

  lemma {:induction false} LastIsPacked(cfg: Config, number: word, nals: seq<seq<byte>>, timestamp: uint32)
    requires Usable(cfg) && LastIsSent(cfg.codec, nals)
    ensures AuPackets(cfg, number, nals, timestamp) != []
    decreases nals
  {
    var ps := NalPackets(cfg, number, nals[0], timestamp, |nals| == 1);
    if |nals| == 1 {
      PayloadShape(cfg.codec, nals[0], cfg.maxPayload);
      PacketCount(cfg, number, Payloads(cfg.codec, nals[0], cfg.maxPayload), timestamp, true);
    } else {
      LastIsPacked(cfg, Advance(number, |ps|), nals[1..], timestamp);
    }
  }

  /** An H.265 access unit whose last unit is a single byte goes out without any marker. */
  lemma MarkerIsLost(cfg: Config, number: word, nals: seq<seq<byte>>, b: byte, timestamp: uint32)
    requires Usable(cfg) && cfg.codec == H265
    ensures forall p :: p in AuPackets(cfg, number, nals + [[b]], timestamp) ==> !p.header.marker
  {
    var ps := AuPackets(cfg, number, nals + [[b]], timestamp);
    forall k | 0 <= k < |ps|
      ensures !ps[k].header.marker
    {
      AuHeader(cfg, number, nals + [[b]], timestamp, k);
    }
  }
}
