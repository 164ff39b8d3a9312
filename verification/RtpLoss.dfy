/**
 * What a receiver makes of a stream from which the socket has refused packets. The sender gives up a NAL unit at its
 * first refused packet, so the next packet on the wire always begins a unit, and no fragment is ever joined to another
 * unit's, not even where lost numbers make it look like the next one.
 */
module RtpLoss {
  import opened Bits
  import opened Options
  import opened AnnexB
  import opened Rtp
  import opened RtpStream

  function Flat(aus: seq<seq<seq<byte>>>): seq<seq<byte>> {
    if aus == [] then [] else Flat(aus[..|aus| - 1]) + aus[|aus| - 1]
  }

  /** Access units that were ended by a marker, and the units behind the last one. */
  datatype Groups = Groups(done: seq<seq<seq<byte>>>, rest: seq<seq<byte>>)

  /** All units, in order. */
  function Units(g: Groups): seq<seq<byte>> {
    Flat(g.done) + g.rest
  }

  function GroupsOf(r: Receiver): Groups {
    Groups(r.done, r.nals)
  }

  /** Units come in, and perhaps a marker with the last of them. */
  function Joined(g: Groups, units: seq<seq<byte>>, ends: bool): Groups {
    if ends then Groups(g.done + [g.rest + units], []) else Groups(g.done, g.rest + units)
  }

  lemma UnitsJoined(g: Groups, units: seq<seq<byte>>, ends: bool)
    ensures Units(Joined(g, units, ends)) == Units(g) + units
  {
    if ends {
      var done := g.done + [g.rest + units];
      assert done[..|done| - 1] == g.done;
      assert Flat(done) == Flat(g.done) + (g.rest + units);
    }
  }

  lemma JoinedTwice(g: Groups, units: seq<seq<byte>>, more: seq<seq<byte>>, ends: bool)
    ensures Joined(Joined(g, units, false), more, ends) == Joined(g, units + more, ends)
  {
    Regrouped(g.rest, units, more);
  }

  lemma NothingJoined(g: Groups)
    ensures Joined(g, [], false) == g
  {
    assert g.rest + [] == g.rest;
  }

  // ---------------------------------------------------------------------------------------------
  // A packet that begins a unit.

  /** The payload means the same whatever is still open. */
  ghost predicate Begins(c: Codec, p: seq<byte>) {
    forall open :: Depack(c, open, p) == Depack(c, None, p)
  }

  lemma FirstPayloadBegins(c: Codec, nal: seq<byte>, max: nat)
    requires max > Overhead(c) && Survives(c, nal, max)
    ensures Payloads(c, nal, max) != [] && Begins(c, Payloads(c, nal, max)[0])
  {
    PayloadShape(c, nal, max);
    if |nal| > max {
      var hs := HeaderSize(c);
      var end := hs + Chunk(c, max, |nal| - hs);
      var p := FuHeader(c, nal, true, false) + nal[hs..end];
      FragmentsCons(c, nal, max, hs, end, p);
      forall open
        ensures Depack(c, open, p) == Depack(c, None, p)
      {
        DepackFragment(c, open, nal, true, false, nal[hs..end], p);
        DepackFragment(c, None, nal, true, false, nal[hs..end], p);
      }
    }
  }

  /** Then it does not matter which number the receiver has seen last. */
  lemma SameReception(c: Codec, r: Receiver, number: word, packets: seq<Packet>)
    requires packets != [] && Begins(c, packets[0].payload)
    ensures ReceiveAll(c, r, packets) == ReceiveAll(c, r.(number := number), packets)
  {
    var p := packets[0];
    assert Depack(c, r.open, p.payload) == Depack(c, None, p.payload);
    assert Arrive(c, r, p.header, p.payload) == Arrive(c, r.(number := number), p.header, p.payload);
  }

  // ---------------------------------------------------------------------------------------------
  // A unit that is cut short.

  lemma {:induction false} PrefixPackets(
      cfg: Config, number: word, payloads: seq<seq<byte>>, timestamp: uint32, marker: bool, n: nat)
    requires n < |payloads|
    ensures |Packets(cfg, number, payloads, timestamp, marker)| == |payloads|
    ensures Packets(cfg, number, payloads, timestamp, marker)[..n]
      == Packets(cfg, number, payloads[..n], timestamp, false)
    decreases payloads
  {
    PacketCount(cfg, number, payloads, timestamp, marker);
    if n > 0 {
      PrefixPackets(cfg, Next(number), payloads[1..], timestamp, marker, n - 1);
      assert payloads[..n][1..] == payloads[1..][..n - 1];
      var rest := Packets(cfg, Next(number), payloads[1..], timestamp, marker);
      var first := Numbered(cfg, Next(number), timestamp, false, payloads[0]);
      assert Packets(cfg, number, payloads, timestamp, marker) == [first] + rest;
      assert ([first] + rest)[..n] == [first] + rest[..n - 1];
    }
  }

  /** The fragments of a unit without the last one complete nothing. */
  lemma {:induction false} PrefixCompletesNothing(
      c: Codec, nal: seq<byte>, max: nat, offset: nat, open: Option<seq<byte>>, n: nat)
    requires max > Overhead(c) && HeaderSize(c) <= offset < |nal|
    requires if offset == HeaderSize(c) then |nal| > max else open.Some?
    requires n < |Fragments(c, nal, max, offset)|
    ensures DepackAll(c, open, Fragments(c, nal, max, offset)[..n]).1 == []
    decreases n
  {
    if n > 0 {
      var end := offset + Chunk(c, max, |nal| - offset);
      var first, data := offset == HeaderSize(c), nal[offset..end];
      var p := FuHeader(c, nal, first, end == |nal|) + data;
      FragmentsCons(c, nal, max, offset, end, p);
      var rest := Fragments(c, nal, max, end);
      assert end < |nal|;
      assert ([p] + rest)[..n] == [p] + rest[..n - 1];
      DepackFragment(c, open, nal, first, false, data, p);
      var now := Depack(c, open, p).0;
      PrefixCompletesNothing(c, nal, max, end, now, n - 1);
      DepackCons(c, open, p, rest[..n - 1]);
    }
  }

  lemma CutPayloads(c: Codec, nal: seq<byte>, max: nat, open: Option<seq<byte>>, n: nat)
    requires max > Overhead(c) && Survives(c, nal, max) && n < |Payloads(c, nal, max)|
    ensures DepackAll(c, open, Payloads(c, nal, max)[..n]).1 == []
  {
    if |nal| > max {
      PrefixCompletesNothing(c, nal, max, HeaderSize(c), open, n);
    }
  }

  // ---------------------------------------------------------------------------------------------
  // One unit, whatever is refused.

  lemma CutNalArrives(cfg: Config, r: Receiver, number: word, nal: seq<byte>, timestamp: uint32, marker: bool, n: nat)
    requires Usable(cfg) && Survives(cfg.codec, nal, cfg.maxPayload)
    requires n < |NalPackets(cfg, number, nal, timestamp, marker)|
    ensures GroupsOf(ReceiveAll(cfg.codec, r, NalPackets(cfg, number, nal, timestamp, marker)[..n])) == GroupsOf(r)
  {
    var c, payloads := cfg.codec, Payloads(cfg.codec, nal, cfg.maxPayload);
    PacketCount(cfg, number, payloads, timestamp, marker);
    if n > 0 {
      var front := payloads[..n];
      var ps := Packets(cfg, number, front, timestamp, false);
      var r' := r.(number := number);
      PrefixPackets(cfg, number, payloads, timestamp, marker, n);
      FirstPayloadBegins(c, nal, cfg.maxPayload);
      SameReception(c, r, number, ps);
      PacketsArrive(cfg, r', front, timestamp, false);
      CutPayloads(c, nal, cfg.maxPayload, r.open, n);
      NothingJoined(GroupsOf(r));
    }
  }

  lemma WholeNalArrives(cfg: Config, r: Receiver, number: word, nal: seq<byte>, timestamp: uint32, marker: bool)
    requires Usable(cfg) && Survives(cfg.codec, nal, cfg.maxPayload)
    ensures GroupsOf(ReceiveAll(cfg.codec, r, NalPackets(cfg, number, nal, timestamp, marker)))
      == Joined(GroupsOf(r), [nal], marker)
  {
    var c, payloads := cfg.codec, Payloads(cfg.codec, nal, cfg.maxPayload);
    var ps := NalPackets(cfg, number, nal, timestamp, marker);
    var r' := r.(number := number);
    FirstPayloadBegins(c, nal, cfg.maxPayload);
    SameReception(c, r, number, ps);
    NalArrives(cfg, r', nal, timestamp, marker);
  }

  /** A receiver that has heard all of the wire has `g`. */
  predicate Heard(cfg: Config, s: Sender, g: Groups) {
    GroupsOf(ReceiveAll(cfg.codec, Fresh(), s.wire)) == g
  }

  /** The unit, if none of its packets was refused. */
  function Arrived(cfg: Config, s: Sender, nal: seq<byte>, timestamp: uint32, marker: bool, up: nat -> bool):
      seq<seq<byte>>
    requires Usable(cfg)
  {
    if SendNal(cfg, s, nal, timestamp, marker, up).1 then [nal] else []
  }

  lemma NalHeard(
      cfg: Config, s: Sender, nal: seq<byte>, timestamp: uint32, marker: bool, up: nat -> bool, g: Groups)
    requires Usable(cfg) && Survives(cfg.codec, nal, cfg.maxPayload) && Heard(cfg, s, g)
    ensures var (s', all) := SendNal(cfg, s, nal, timestamp, marker, up);
      Heard(cfg, s', Joined(g, Arrived(cfg, s, nal, timestamp, marker, up), all && marker))
  {
    var c, r := cfg.codec, ReceiveAll(cfg.codec, Fresh(), s.wire);
    var ps := NalPackets(cfg, s.number, nal, timestamp, marker);
    var n := TransmitPrefix(s, ps, up);
    if n == |ps| {
      WholeNalArrives(cfg, r, s.number, nal, timestamp, marker);
      ReceiveConcat(c, Fresh(), s.wire, ps);
    } else {
      CutNalArrives(cfg, r, s.number, nal, timestamp, marker, n);
      ReceiveConcat(c, Fresh(), s.wire, ps[..n]);
      NothingJoined(g);
    }
  }

  // ---------------------------------------------------------------------------------------------
  // Whole sessions, whatever is refused.

  /** The units of an access unit none of whose packets was refused. */
  function AuArrived(cfg: Config, s: Sender, nals: seq<seq<byte>>, timestamp: uint32, up: nat -> bool): seq<seq<byte>>
    requires Usable(cfg)
    decreases nals
  {
    if nals == [] then [] else
      Arrived(cfg, s, nals[0], timestamp, |nals| == 1, up)
      + AuArrived(cfg, SendNal(cfg, s, nals[0], timestamp, |nals| == 1, up).0, nals[1..], timestamp, up)
  }

  /** The last packet of an access unit, which carries its marker, got through. */
  predicate Ended(cfg: Config, s: Sender, nals: seq<seq<byte>>, timestamp: uint32, up: nat -> bool)
    requires Usable(cfg)
    decreases nals
  {
    && nals != []
    && var (s', all) := SendNal(cfg, s, nals[0], timestamp, |nals| == 1, up);
    if |nals| == 1 then all else Ended(cfg, s', nals[1..], timestamp, up)
  }

  function SessionArrived(cfg: Config, s: Sender, aus: seq<AccessUnit>, up: nat -> bool): seq<seq<byte>>
    requires Usable(cfg)
    decreases aus
  {
    if aus == [] then [] else
      AuArrived(cfg, s, Nals(aus[0].units), aus[0].timestamp, up)
      + SessionArrived(cfg, SendNals(cfg, s, Nals(aus[0].units), aus[0].timestamp, up), aus[1..], up)
  }

  /** What arrives of each access unit, put together with what arrives of the next one if its end is lost. */
  function Grouped(cfg: Config, s: Sender, aus: seq<AccessUnit>, up: nat -> bool, g: Groups): Groups
    requires Usable(cfg)
    decreases aus
  {
    if aus == [] then g else
      var nals, timestamp := Nals(aus[0].units), aus[0].timestamp;
      Grouped(cfg, SendNals(cfg, s, nals, timestamp, up), aus[1..], up,
        Joined(g, AuArrived(cfg, s, nals, timestamp, up), Ended(cfg, s, nals, timestamp, up)))
  }

  lemma {:induction false} AuHeard(
      cfg: Config, s: Sender, nals: seq<seq<byte>>, timestamp: uint32, up: nat -> bool, g: Groups)
    requires Usable(cfg) && AllSurvive(cfg, nals) && Heard(cfg, s, g)
    ensures Heard(cfg, SendNals(cfg, s, nals, timestamp, up),
      Joined(g, AuArrived(cfg, s, nals, timestamp, up), Ended(cfg, s, nals, timestamp, up)))
    decreases nals
  {
    if nals == [] {
      NothingJoined(g);
    } else {
      var (s', all) := SendNal(cfg, s, nals[0], timestamp, |nals| == 1, up);
      var one := Arrived(cfg, s, nals[0], timestamp, |nals| == 1, up);
      NalHeard(cfg, s, nals[0], timestamp, |nals| == 1, up, g);
      if |nals| == 1 {
        assert nals[1..] == [] && one + [] == one;
      } else {
        AuHeard(cfg, s', nals[1..], timestamp, up, Joined(g, one, false));
        JoinedTwice(g, one, AuArrived(cfg, s', nals[1..], timestamp, up), Ended(cfg, s', nals[1..], timestamp, up));
      }
    }
  }

  lemma Regrouped(a: seq<seq<byte>>, b: seq<seq<byte>>, c: seq<seq<byte>>)
    ensures a + b + c == a + (b + c)
  {
  }

  lemma {:induction false} SessionHeard(cfg: Config, s: Sender, aus: seq<AccessUnit>, up: nat -> bool, g: Groups)
    requires Usable(cfg) && AllSendable(cfg, aus) && Heard(cfg, s, g)
    ensures Heard(cfg, SendSession(cfg, s, aus, up), Grouped(cfg, s, aus, up, g))
    decreases aus
  {
    if aus != [] {
      var nals, timestamp := Nals(aus[0].units), aus[0].timestamp;
      assert Sendable(cfg, aus[0]);
      SplitInvertsStream(aus[0].units);
      AuHeard(cfg, s, nals, timestamp, up, g);
      SessionHeard(cfg, SendNals(cfg, s, nals, timestamp, up), aus[1..], up,
        Joined(g, AuArrived(cfg, s, nals, timestamp, up), Ended(cfg, s, nals, timestamp, up)));
    }
  }

  /** Lost ends change how the units are put together and nothing else. */
  lemma {:induction false} GroupedUnits(cfg: Config, s: Sender, aus: seq<AccessUnit>, up: nat -> bool, g: Groups)
    requires Usable(cfg)
    ensures Units(Grouped(cfg, s, aus, up, g)) == Units(g) + SessionArrived(cfg, s, aus, up)
    decreases aus
  {
    if aus == [] {
      assert Units(g) + [] == Units(g);
    } else {
      var nals, timestamp := Nals(aus[0].units), aus[0].timestamp;
      var s' := SendNals(cfg, s, nals, timestamp, up);
      var got, ends := AuArrived(cfg, s, nals, timestamp, up), Ended(cfg, s, nals, timestamp, up);
      UnitsJoined(g, got, ends);
      GroupedUnits(cfg, s', aus[1..], up, Joined(g, got, ends));
      Regrouped(Units(g), got, SessionArrived(cfg, s', aus[1..], up));
    }
  }

  // ---------------------------------------------------------------------------------------------
  // Which access units keep their bounds.

  /** What arrives of each access unit, each by itself. */
  function ArrivedEach(cfg: Config, s: Sender, aus: seq<AccessUnit>, up: nat -> bool): seq<seq<seq<byte>>>
    requires Usable(cfg)
    decreases aus
  {
    if aus == [] then [] else
      [AuArrived(cfg, s, Nals(aus[0].units), aus[0].timestamp, up)]
      + ArrivedEach(cfg, SendNals(cfg, s, Nals(aus[0].units), aus[0].timestamp, up), aus[1..], up)
  }

  predicate AllEnded(cfg: Config, s: Sender, aus: seq<AccessUnit>, up: nat -> bool)
    requires Usable(cfg)
    decreases aus
  {
    aus == []
    || (&& Ended(cfg, s, Nals(aus[0].units), aus[0].timestamp, up)
        && AllEnded(cfg, SendNals(cfg, s, Nals(aus[0].units), aus[0].timestamp, up), aus[1..], up))
  }

  lemma {:induction false} ApartIff(cfg: Config, s: Sender, aus: seq<AccessUnit>, up: nat -> bool, g: Groups)
    requires Usable(cfg)
    ensures var end := Grouped(cfg, s, aus, up, g);
      && |end.done| <= |g.done| + |aus|
      && (|end.done| == |g.done| + |aus| <==> AllEnded(cfg, s, aus, up))
      && (AllEnded(cfg, s, aus, up) && g.rest == [] ==>
            end == Groups(g.done + ArrivedEach(cfg, s, aus, up), []))
    decreases aus
  {
    if aus == [] {
      assert g.done + [] == g.done;
    } else {
      var nals, timestamp := Nals(aus[0].units), aus[0].timestamp;
      var s' := SendNals(cfg, s, nals, timestamp, up);
      var got, ends := AuArrived(cfg, s, nals, timestamp, up), Ended(cfg, s, nals, timestamp, up);
      ApartIff(cfg, s', aus[1..], up, Joined(g, got, ends));
      assert [] + got == got;
      OneMoreGroup(g.done, got, ArrivedEach(cfg, s', aus[1..], up));
    }
  }

  lemma OneMoreGroup(done: seq<seq<seq<byte>>>, got: seq<seq<byte>>, more: seq<seq<seq<byte>>>)
    ensures done + [got] + more == done + ([got] + more)
  {
  }

  /** `a` is `b` with some elements left out. */
  predicate Within(a: seq<seq<byte>>, b: seq<seq<byte>>)
    decreases b
  {
    a == [] || (b != [] && ((a[0] == b[0] && Within(a[1..], b[1..])) || Within(a, b[1..])))
  }

  lemma {:induction false} WithinConcat(a: seq<seq<byte>>, b: seq<seq<byte>>, a': seq<seq<byte>>, b': seq<seq<byte>>)
    requires Within(a, b) && Within(a', b')
    ensures Within(a + a', b + b')
    decreases b
  {
    if b == [] {
      assert a + a' == a' && b + b' == b';
    } else {
      assert (b + b')[1..] == b[1..] + b';
      if a != [] && a[0] == b[0] && Within(a[1..], b[1..]) {
        WithinConcat(a[1..], b[1..], a', b');
        assert (a + a')[1..] == a[1..] + a';
      } else {
        WithinConcat(a, b[1..], a', b');
      }
    }
  }

  lemma {:induction false} AuWithin(cfg: Config, s: Sender, nals: seq<seq<byte>>, timestamp: uint32, up: nat -> bool)
    requires Usable(cfg)
    ensures Within(AuArrived(cfg, s, nals, timestamp, up), nals)
    decreases nals
  {
    if nals != [] {
      var s' := SendNal(cfg, s, nals[0], timestamp, |nals| == 1, up).0;
      AuWithin(cfg, s', nals[1..], timestamp, up);
      WithinConcat(Arrived(cfg, s, nals[0], timestamp, |nals| == 1, up), [nals[0]],
        AuArrived(cfg, s', nals[1..], timestamp, up), nals[1..]);
      assert [nals[0]] + nals[1..] == nals;
    }
  }

  function AllNals(aus: seq<AccessUnit>): seq<seq<byte>> {
    if aus == [] then [] else Nals(aus[0].units) + AllNals(aus[1..])
  }

  lemma {:induction false} SessionWithin(cfg: Config, s: Sender, aus: seq<AccessUnit>, up: nat -> bool)
    requires Usable(cfg)
    ensures Within(SessionArrived(cfg, s, aus, up), AllNals(aus))
    decreases aus
  {
    if aus != [] {
      var nals := Nals(aus[0].units);
      var s' := SendNals(cfg, s, nals, aus[0].timestamp, up);
      AuWithin(cfg, s, nals, aus[0].timestamp, up);
      SessionWithin(cfg, s', aus[1..], up);
      WithinConcat(AuArrived(cfg, s, nals, aus[0].timestamp, up), nals,
        SessionArrived(cfg, s', aus[1..], up), AllNals(aus[1..]));
    }
  }

  /**
   * Whatever the socket refuses, and however often: from the bytes on the wire a receiver completes exactly the units
   * none of whose packets was refused, each as it was sent, in order. It puts together what arrives of an access unit
   * and of the next one exactly if the last packet of the first was refused; so it sees all access units apart exactly
   * if no last packet was.
   */
  lemma RefusedSession(cfg: Config, aus: seq<AccessUnit>, up: nat -> bool)
    requires Usable(cfg) && AllSendable(cfg, aus)
    ensures var s0 := Sender(0, 0, []);
      var g := GroupsOf(ReceiveBytes(cfg.codec, Fresh(), AllBytes(SendSession(cfg, s0, aus, up).wire)));
      && g == Grouped(cfg, s0, aus, up, Groups([], []))
      && Units(g) == SessionArrived(cfg, s0, aus, up) && Within(Units(g), AllNals(aus))
      && (|g.done| == |aus| <==> AllEnded(cfg, s0, aus, up))
      && (AllEnded(cfg, s0, aus, up) ==> g == Groups(ArrivedEach(cfg, s0, aus, up), []))
  {
    var s0, none := Sender(0, 0, []), Groups([], []);
    assert Heard(cfg, s0, none);
    SessionHeard(cfg, s0, aus, up, none);
    GroupedUnits(cfg, s0, aus, up, none);
    ApartIff(cfg, s0, aus, up, none);
    SessionWithin(cfg, s0, aus, up);
    BytesArrive(cfg.codec, Fresh(), SendSession(cfg, s0, aus, up).wire);
    assert [] + SessionArrived(cfg, s0, aus, up) == SessionArrived(cfg, s0, aus, up);
    assert [] + ArrivedEach(cfg, s0, aus, up) == ArrivedEach(cfg, s0, aus, up);
  }
}
