/**
 * Splitting an Annex B byte stream into NAL units, as the RTP sender does before it packetises an
 * access unit, against the byte stream format of ITU-T H.264 Annex B that writes one.
 */
module AnnexB {
  import opened Bits

  /** A four-byte start code at `i`. */
  predicate Long(buf: seq<byte>, i: nat) {
    i + 4 <= |buf| && buf[i] == 0 && buf[i + 1] == 0 && buf[i + 2] == 0 && buf[i + 3] == 1
  }

  /** A three-byte start code at `i`. */
  predicate Short(buf: seq<byte>, i: nat) {
    i + 3 <= |buf| && buf[i] == 0 && buf[i + 1] == 0 && buf[i + 2] == 1
  }

  /** A start code with at least one byte behind it ends the unit before it. */
  predicate Ends(buf: seq<byte>, i: nat) {
    (i + 3 < |buf| && Short(buf, i)) || (i + 4 < |buf| && Long(buf, i))
  }

  function UnitEnd(buf: seq<byte>, i: nat): (e: nat)
    requires i <= |buf|
    ensures i <= e <= |buf|
    decreases |buf| - i
  {
    if i == |buf| || Ends(buf, i) then i else UnitEnd(buf, i + 1)
  }

  /** The units found from position `i` on, while no unit is open. */
  function Hunt(buf: seq<byte>, i: nat): seq<seq<byte>>
    requires i <= |buf|
    decreases |buf| - i, 0
  {
    if i == |buf| then []
    else if Long(buf, i) then Take(buf, i + 4)
    else if Short(buf, i) then Take(buf, i + 3)
    else Hunt(buf, i + 1)
  }

  /** The units found from `start` on, where a start code has just ended. */
  function Take(buf: seq<byte>, start: nat): seq<seq<byte>>
    requires start <= |buf|
    decreases |buf| - start, 1
  {
    var e := UnitEnd(buf, start);
    (if e > start then [buf[start..e]] else []) + Hunt(buf, e)
  }

  function Split(buf: seq<byte>): seq<seq<byte>> {
    Hunt(buf, 0)
  }

  /** The inner scan loop. */
  method FindUnitEnd(buf: seq<byte>, start: nat) returns (i: nat)
    requires start <= |buf|
    ensures i == UnitEnd(buf, start)
  {
    i := start;
    while i < |buf| && !Ends(buf, i)
      invariant start <= i <= |buf|
      invariant UnitEnd(buf, start) == UnitEnd(buf, i)
    {
      i := i + 1;
    }
  }

  /** The splitter's outer scan loop. */
  method SplitAnnexB(buf: seq<byte>) returns (nals: seq<seq<byte>>)
    ensures nals == Split(buf)
  {
    nals := [];
    var i := 0;
    while i < |buf|
      invariant i <= |buf|
      invariant Split(buf) == nals + Hunt(buf, i)
    {
      if Long(buf, i) {
        i := i + 4;
      } else if Short(buf, i) {
        i := i + 3;
      } else {
        i := i + 1;
        continue;
      }
      var start := i;
      TakeSplits(buf, start, nals);
      i := FindUnitEnd(buf, start);
      if i > start {
        nals := nals + [buf[start..i]];
      }
    }
  }

  lemma TakeSplits(buf: seq<byte>, start: nat, nals: seq<seq<byte>>)
    requires start <= |buf|
    ensures var e := UnitEnd(buf, start);
      nals + Take(buf, start) == (if e > start then nals + [buf[start..e]] else nals) + Hunt(buf, e)
  {
  }

  // ---------------------------------------------------------------------------------------------
  // The byte stream format.

  /** A NAL unit and whether its start code is the four-byte one. */
  datatype Unit = Unit(long: bool, nal: seq<byte>)

  function StartCode(long: bool): seq<byte> {
    if long then [0, 0, 0, 1] else [0, 0, 1]
  }

  function Stream(units: seq<Unit>): seq<byte> {
    if units == [] then [] else StartCode(units[0].long) + units[0].nal + Stream(units[1..])
  }

  function Nals(units: seq<Unit>): seq<seq<byte>> {
    if units == [] then [] else [units[0].nal] + Nals(units[1..])
  }

  predicate StartCodeFree(nal: seq<byte>) {
    forall j: nat :: j + 3 <= |nal| ==> !Short(nal, j)
  }

  /**
   * Annex B's conditions on a stream: NAL units are not empty and hold no start code, and one that ends in a
   * zero byte is not followed by a three-byte start code.
   */
  predicate WellFormed(units: seq<Unit>) {
    forall k :: 0 <= k < |units| ==>
      && |units[k].nal| > 0
      && StartCodeFree(units[k].nal)
      && (k + 1 < |units| && !units[k + 1].long ==> units[k].nal[|units[k].nal| - 1] != 0)
  }

  /** What may come behind a unit: nothing, a four-byte start code, or a three-byte one if no zero precedes it. */
  predicate Follows(nal: seq<byte>, rest: seq<byte>) {
    |nal| > 0 && (rest == [] || Long(rest, 0) || (Short(rest, 0) && nal[|nal| - 1] != 0))
  }

  lemma FollowedByStream(units: seq<Unit>)
    requires units != [] && WellFormed(units)
    ensures Follows(units[0].nal, Stream(units[1..]))
  {
    if |units| > 1 {
      assert units[1..][0] == units[1];
      var tail := units[1].nal + Stream(units[1..][1..]);
      assert Stream(units[1..]) == StartCode(units[1].long) + tail;
    }
  }

  /** No start code begins inside a unit, not even one that would run over its end. */
  lemma NoEarlyEnd(buf: seq<byte>, start: nat, nal: seq<byte>, rest: seq<byte>, i: nat)
    requires start <= |buf| && buf[start..] == nal + rest
    requires StartCodeFree(nal) && Follows(nal, rest)
    requires start <= i < start + |nal|
    ensures i < |buf| && !Ends(buf, i)
  {
    var both := nal + rest;
    var k := i - start;
    assert |buf| == start + |both|;
    assert forall j :: 0 <= j < |both| ==> buf[start + j] == both[j];
    if Short(buf, i) {
      assert both[k] == 0 && both[k + 1] == 0 && both[k + 2] == 1;
      NotShort(nal, rest, k);
    }
    if Long(buf, i) {
      assert both[k] == 0 && both[k + 1] == 0 && both[k + 2] == 0 && both[k + 3] == 1;
      NotLong(nal, rest, k);
    }
  }

  lemma NotShort(nal: seq<byte>, rest: seq<byte>, k: nat)
    requires StartCodeFree(nal) && Follows(nal, rest) && k < |nal|
    ensures !Short(nal + rest, k)
  {
    if k + 3 <= |nal| {
      assert !Short(nal, k);
    }
  }

  lemma NotLong(nal: seq<byte>, rest: seq<byte>, k: nat)
    requires StartCodeFree(nal) && Follows(nal, rest) && k < |nal|
    ensures !Long(nal + rest, k)
  {
    if k + 4 <= |nal| {
      assert !Short(nal, k + 1);
    }
  }

  lemma {:induction false} UnitEndsAtNext(buf: seq<byte>, start: nat, nal: seq<byte>, rest: seq<byte>, i: nat)
    requires start <= |buf| && buf[start..] == nal + rest
    requires StartCodeFree(nal) && Follows(nal, rest)
    requires start <= i <= start + |nal|
    requires rest != [] ==> Ends(buf, start + |nal|)
    ensures i <= |buf| && UnitEnd(buf, i) == start + |nal|
    decreases start + |nal| - i
  {
    assert |buf| == start + |nal| + |rest|;
    if i < start + |nal| {
      NoEarlyEnd(buf, start, nal, rest, i);
      UnitEndsAtNext(buf, start, nal, rest, i + 1);
    }
  }

  /** The hunt takes a start code of this length at `i`. */
  predicate CodeAt(buf: seq<byte>, i: nat, long: bool) {
    if long then Long(buf, i) else !Long(buf, i) && Short(buf, i)
  }

  lemma CodeStands(buf: seq<byte>, i: nat, long: bool, tail: seq<byte>)
    requires i <= |buf| && buf[i..] == StartCode(long) + tail
    ensures CodeAt(buf, i, long) && i + |StartCode(long)| <= |buf| && buf[i + |StartCode(long)|..] == tail
    ensures tail != [] ==> Ends(buf, i)
  {
    var both := StartCode(long) + tail;
    var n := |StartCode(long)|;
    assert |buf| == i + n + |tail|;
    assert forall j :: 0 <= j < n ==> buf[i + j] == both[j];
    assert buf[i + n..] == buf[i..][n..];
  }

  lemma EndsInRest(buf: seq<byte>, at: nat, rest: seq<byte>)
    requires at <= |buf| && buf[at..] == rest && Ends(rest, 0)
    ensures Ends(buf, at)
  {
    assert |buf| == at + |rest|;
    assert forall j :: 0 <= j < |rest| ==> rest[j] == buf[at + j];
  }

  lemma UnitAt(buf: seq<byte>, start: nat, nal: seq<byte>, rest: seq<byte>)
    requires start <= |buf| && buf[start..] == nal + rest
    ensures var end := start + |nal|;
      end <= |buf| && buf[end..] == rest && buf[start..end] == nal
  {
    var end := start + |nal|;
    assert buf[end..] == buf[start..][|nal|..];
    assert buf[start..end] == buf[start..][..|nal|];
  }

  /** Behind a start code, the unit is taken and the hunt goes on at its end. */
  lemma TakeUnit(buf: seq<byte>, start: nat, nal: seq<byte>, rest: seq<byte>)
    requires start <= |buf| && buf[start..] == nal + rest
    requires StartCodeFree(nal) && Follows(nal, rest) && (rest == [] || Ends(rest, 0))
    ensures start + |nal| <= |buf| && buf[start + |nal|..] == rest
    ensures Take(buf, start) == [nal] + Hunt(buf, start + |nal|)
  {
    UnitAt(buf, start, nal, rest);
    if rest != [] {
      EndsInRest(buf, start + |nal|, rest);
    }
    UnitEndsAtNext(buf, start, nal, rest, start);
    TakesUnit(buf, start, nal);
  }

  lemma HuntTakes(buf: seq<byte>, i: nat, long: bool)
    requires CodeAt(buf, i, long)
    ensures Hunt(buf, i) == Take(buf, i + |StartCode(long)|)
  {
  }

  lemma TakesUnit(buf: seq<byte>, start: nat, nal: seq<byte>)
    requires nal != [] && start + |nal| <= |buf| && UnitEnd(buf, start) == start + |nal|
    requires buf[start..start + |nal|] == nal
    ensures Take(buf, start) == [nal] + Hunt(buf, start + |nal|)
  {
  }

  /** A stream begins with a start code and at least one byte behind it. */
  lemma StreamStart(units: seq<Unit>)
    requires units != [] && WellFormed(units)
    ensures Stream(units) == StartCode(units[0].long) + (units[0].nal + Stream(units[1..]))
    ensures Ends(Stream(units), 0)
  {
    Grouped(StartCode(units[0].long), units[0].nal, Stream(units[1..]));
    CodeFirst(Stream(units), units[0].long, units[0].nal + Stream(units[1..]));
  }

  lemma Grouped(x: seq<byte>, y: seq<byte>, z: seq<byte>)
    ensures x + y + z == x + (y + z)
  {
  }

  lemma CodeFirst(stream: seq<byte>, long: bool, tail: seq<byte>)
    requires stream == StartCode(long) + tail && tail != []
    ensures Ends(stream, 0)
  {
    assert stream[0..] == stream;
    CodeStands(stream, 0, long, tail);
  }

  lemma WellFormedRest(units: seq<Unit>)
    requires units != [] && WellFormed(units)
    ensures WellFormed(units[1..])
  {
    var rest := units[1..];
    forall k | 0 <= k < |rest|
      ensures |rest[k].nal| > 0 && StartCodeFree(rest[k].nal)
      ensures k + 1 < |rest| && !rest[k + 1].long ==> rest[k].nal[|rest[k].nal| - 1] != 0
    {
      assert rest[k] == units[k + 1];
    }
  }

  lemma {:induction false} HuntFindsUnits(buf: seq<byte>, i: nat, units: seq<Unit>)
    requires i <= |buf| && buf[i..] == Stream(units) && WellFormed(units)
    ensures Hunt(buf, i) == Nals(units)
    decreases |units|
  {
    if units == [] {
      assert i == |buf|;
    } else {
      var end := HuntStep(buf, i, units);
      WellFormedRest(units);
      HuntFindsUnits(buf, end, units[1..]);
      NalsOf(units, Hunt(buf, i), Hunt(buf, end));
    }
  }

  /** The first unit is found, and the search goes on where the others stand. */
  lemma HuntStep(buf: seq<byte>, i: nat, units: seq<Unit>) returns (end: nat)
    requires i <= |buf| && units != [] && buf[i..] == Stream(units) && WellFormed(units)
    ensures end <= |buf| && buf[end..] == Stream(units[1..])
    ensures Hunt(buf, i) == [units[0].nal] + Hunt(buf, end)
  {
    var start := TakeStarts(buf, i, units);
    end := TakeEnds(buf, start, units);
  }

  lemma TakeStarts(buf: seq<byte>, i: nat, units: seq<Unit>) returns (start: nat)
    requires i <= |buf| && units != [] && buf[i..] == Stream(units)
    ensures start <= |buf| && buf[start..] == units[0].nal + Stream(units[1..]) && Hunt(buf, i) == Take(buf, start)
  {
    var long, tail := units[0].long, units[0].nal + Stream(units[1..]);
    Grouped(StartCode(long), units[0].nal, Stream(units[1..]));
    CodeStands(buf, i, long, tail);
    HuntTakes(buf, i, long);
    start := i + |StartCode(long)|;
  }

  lemma TakeEnds(buf: seq<byte>, start: nat, units: seq<Unit>) returns (end: nat)
    requires units != [] && WellFormed(units)
    requires start <= |buf| && buf[start..] == units[0].nal + Stream(units[1..])
    ensures end <= |buf| && buf[end..] == Stream(units[1..]) && Take(buf, start) == [units[0].nal] + Hunt(buf, end)
  {
    RestBegins(units);
    TakeUnit(buf, start, units[0].nal, Stream(units[1..]));
    end := start + |units[0].nal|;
  }

  /** How the first unit of a stream can be told from the rest. */
  lemma RestBegins(units: seq<Unit>)
    requires units != [] && WellFormed(units)
    ensures var nal, rest := units[0].nal, Stream(units[1..]);
      StartCodeFree(nal) && Follows(nal, rest) && (rest == [] || Ends(rest, 0))
  {
    FollowedByStream(units);
    if |units| > 1 {
      WellFormedRest(units);
      StreamStart(units[1..]);
    }
  }

  lemma NalsOf(units: seq<Unit>, found: seq<seq<byte>>, later: seq<seq<byte>>)
    requires units != [] && found == [units[0].nal] + later && later == Nals(units[1..])
    ensures found == Nals(units)
  {
  }

  /** Splitting a well-formed byte stream gives back exactly the NAL units that were written, in order. */
  lemma SplitInvertsStream(units: seq<Unit>)
    requires WellFormed(units)
    ensures Split(Stream(units)) == Nals(units)
  {
    var buf := Stream(units);
    assert buf[0..] == buf;
    HuntFindsUnits(buf, 0, units);
  }

}
