/**
 * Baseline block coding: DC differences and run-length coded AC coefficients (ITU-T T.81 sections
 * F.1.2.1 and F.1.2.2), and the decoder of section F.2.2 that must recover every block.
 *
 * A block is its 64 quantised coefficients in zig-zag order.
 */
module JpegBlock {
  import opened Arithmetic
  import opened Bits
  import opened Options
  import opened JpegHuffman

  /** A code for some symbols and the procedure that reads it; `JpegScan` puts Huffman tables here. */
  datatype Coder = Coder(syms: set<byte>, encode: byte -> seq<bool>, decode: seq<bool> -> Option<DecodedSymbol>)

  /** Reading undoes writing for this symbol, whatever follows. */
  ghost predicate Reads(c: Coder, sym: byte) {
    forall rest :: c.decode(c.encode(sym) + rest) == Some(DecodedSymbol(sym, rest))
  }

  /** The coder reads back its symbols and never reads any other. */
  ghost predicate ValidCoder(c: Coder) {
    && (forall sym :: sym in c.syms ==> Reads(c, sym))
    && (forall stream :: c.decode(stream).Some? ==> c.decode(stream).value.sym in c.syms)
  }

  type Block = b: seq<int> | |b| == 64 witness seq(64, i => 0)

  const EOB: byte := 0x00
  const ZRL: byte := 0xF0

  /** The number of bits of a magnitude, the SSSS category. */
  function BitLength(v: nat): (n: nat)
    ensures v == 0 <==> n == 0
  {
    if v == 0 then 0 else 1 + BitLength(v / 2)
  }

  lemma {:induction false} BitLengthBounds(v: nat)
    requires v > 0
    ensures Pow2(BitLength(v) - 1) <= v < Pow2(BitLength(v))
  {
    if v > 1 {
      BitLengthBounds(v / 2);
    } else {
      assert BitLength(1) == 1 + BitLength(0);
      assert Pow2(0) == 1;
      assert Pow2(1) == 2 * Pow2(0);
    }
  }

  lemma {:induction false} BitLengthMonotone(v: nat, n: nat)
    requires v < Pow2(n)
    ensures BitLength(v) <= n
  {
    if v != 0 && n != 0 {
      BitLengthMonotone(v / 2, n - 1);
    }
  }

  /** `val & ((1 << n) - 1)` with `val` one less for negative values: the appended bits. */
  function Appended(v: int, n: nat): nat {
    (if v >= 0 then v else v - 1) % Pow2(n)
  }

  function MagnitudeBits(v: int): seq<bool> {
    ToBits(Appended(v, BitLength(Abs(v))), BitLength(Abs(v)))
  }

  // ----- Encoding on values

  function DcBits(dc: Coder, diff: int): seq<bool>
    requires BitLength(Abs(diff)) <= 11
  {
    dc.encode(BitLength(Abs(diff))) + MagnitudeBits(diff)
  }

  predicate AcFits(v: int) {
    BitLength(Abs(v)) <= 10
  }

  predicate AllFit(coefs: seq<int>) {
    forall i :: 0 <= i < |coefs| ==> AcFits(coefs[i])
  }

  function AcSymbol(run: nat, size: nat): byte
    requires run < 16 && size < 16
  {
    16 * run + size
  }

  /** The AC coefficients still to come, with `zeros` zeros pending before them. */
  function AcBits(ac: Coder, coefs: seq<int>, zeros: nat): seq<bool>
    requires AllFit(coefs)
    decreases |coefs|, zeros
  {
    if coefs == [] then
      if zeros > 0 then ac.encode(EOB) else []
    else if coefs[0] == 0 then AcBits(ac, coefs[1..], zeros + 1)
    else if zeros >= 16 then ac.encode(ZRL) + AcBits(ac, coefs, zeros - 16)
    else
      assert AcFits(coefs[0]);
      ac.encode(AcSymbol(zeros, BitLength(Abs(coefs[0])))) + (MagnitudeBits(coefs[0]) + AcBits(ac, coefs[1..], 0))
  }

  /** The code of a nonzero coefficient behind fewer than sixteen zeros, and of what comes after it. */
  lemma AcBitsOfValue(ac: Coder, coefs: seq<int>, zeros: nat)
    requires AllFit(coefs) && coefs != [] && coefs[0] != 0 && zeros < 16
    ensures AcFits(coefs[0]) && AllFit(coefs[1..])
    ensures AcBits(ac, coefs, zeros) ==
      ac.encode(AcSymbol(zeros, BitLength(Abs(coefs[0])))) + (MagnitudeBits(coefs[0]) + AcBits(ac, coefs[1..], 0))
  {
  }

  lemma ConcatFour(x: seq<bool>, y: seq<bool>, z: seq<bool>, t: seq<bool>)
    ensures x + (y + z) + t == x + (y + (z + t))
    ensures x + y + z + t == x + (y + (z + t))
  {
  }

  function BlockBits(dc: Coder, ac: Coder, b: Block, pred: int): seq<bool>
    requires AllFit(b[1..]) && BitLength(Abs(b[0] - pred)) <= 11
  {
    DcBits(dc, b[0] - pred) + AcBits(ac, b[1..], 0)
  }

  // ----- The decoder

  datatype DecodedInt = DecodedInt(value: int, rest: seq<bool>)
  datatype DecodedCoefs = DecodedCoefs(coefs: seq<int>, rest: seq<bool>)

  /** EXTEND of section F.2.2.1. */
  function Extend(v: nat, t: nat): int {
    if t == 0 then 0 else if v < Pow2(t - 1) then v - Pow2(t) + 1 else v
  }

  /** RECEIVE and EXTEND. */
  function Receive(t: nat, stream: seq<bool>): Option<DecodedInt> {
    if |stream| < t then None else Some(DecodedInt(Extend(Value(stream[..t]), t), stream[t..]))
  }

  function Zeros(n: nat): (s: seq<int>)
    ensures |s| == n && forall i :: 0 <= i < n ==> s[i] == 0
  {
    seq(n, i => 0)
  }

  /** Figure F.13: fills in the coefficients after those already done. */
  function DecodeAc(ac: Coder, done: seq<int>, stream: seq<bool>): Option<DecodedCoefs>
    requires |done| <= 64
    decreases 64 - |done|, 1
  {
    if |done| == 64 then Some(DecodedCoefs(done, stream))
    else
      match ac.decode(stream)
      case None => None
      case Some(d) => AfterSymbol(ac, done, d.sym / 16, d.sym % 16, d.rest)
  }

  /** What a run length and a size stand for. */
  function AfterSymbol(ac: Coder, done: seq<int>, run: nat, size: nat, rest: seq<bool>): Option<DecodedCoefs>
    requires |done| < 64
    decreases 64 - |done|, 0
  {
    if size == 0 then
      if run != 15 then Some(DecodedCoefs(done + Zeros(64 - |done|), rest))
      else if |done| + 16 > 64 then None
      else DecodeAc(ac, done + Zeros(16), rest)
    else if |done| + run >= 64 then None
    else
      match Receive(size, rest)
      case None => None
      case Some(v) => DecodeAc(ac, done + Zeros(run) + [v.value], v.rest)
  }

  /** Figure F.12: the DC difference. */
  function DecodeDc(dc: Coder, stream: seq<bool>): Option<DecodedInt> {
    match dc.decode(stream)
    case None => None
    case Some(d) => Receive(d.sym, d.rest)
  }

  function DecodeBlock(dc: Coder, ac: Coder, pred: int, stream: seq<bool>): Option<DecodedCoefs> {
    match DecodeDc(dc, stream)
    case None => None
    case Some(v) => DecodeAc(ac, [pred + v.value], v.rest)
  }

  // ----- Decoding undoes encoding

  lemma ExtendInvertsAppended(v: int)
    requires v != 0
    ensures var n := BitLength(Abs(v)); Appended(v, n) < Pow2(n) && Extend(Appended(v, n), n) == v
  {
    var n := BitLength(Abs(v));
    BitLengthBounds(Abs(v));
    var p := Pow2(n - 1);
    assert Pow2(n) == 2 * p;
    if v > 0 {
      SmallRemainder(v, 2 * p);
    } else {
      SmallRemainder(v - 1 + 2 * p, 2 * p);
      AddDivisor(v - 1, 2 * p);
    }
  }

  lemma SmallRemainder(a: nat, m: nat)
    requires a < m
    ensures a % m == a
  {}

  lemma AddDivisor(a: int, m: int)
    requires m > 0 && -m <= a < 0
    ensures a % m == (a + m) % m
  {}

  lemma ReceiveInverts(v: int, rest: seq<bool>)
    ensures Receive(BitLength(Abs(v)), MagnitudeBits(v) + rest) == Some(DecodedInt(v, rest))
  {
    var n := BitLength(Abs(v));
    var stream := MagnitudeBits(v) + rest;
    assert stream[..n] == MagnitudeBits(v) && stream[n..] == rest;
    if v != 0 {
      ExtendInvertsAppended(v);
      ValueOfBits(Appended(v, n), n);
    }
  }

  ghost predicate ValidDc(c: Coder) {
    ValidCoder(c) && forall s: byte :: s <= 11 ==> s in c.syms
  }

  ghost predicate ValidAc(c: Coder) {
    ValidCoder(c) && EOB in c.syms && ZRL in c.syms
  }

  /** Every symbol the coefficients need, after `zeros` pending zeros, has a code. */
  predicate Codable(syms: set<byte>, coefs: seq<int>, zeros: nat)
    requires AllFit(coefs)
    decreases |coefs|
  {
    coefs == []
    || (if coefs[0] == 0 then Codable(syms, coefs[1..], zeros + 1)
        else assert AcFits(coefs[0]);
             AcSymbol(zeros % 16, BitLength(Abs(coefs[0]))) in syms && Codable(syms, coefs[1..], 0))
  }

  lemma DecodeOneSymbol(ac: Coder, done: seq<int>, run: nat, size: nat, rest: seq<bool>)
    requires run < 16 && size < 16 && Reads(ac, AcSymbol(run, size)) && |done| < 64
    ensures DecodeAc(ac, done, ac.encode(AcSymbol(run, size)) + rest) == AfterSymbol(ac, done, run, size, rest)
  {
    SplitSymbol(run, size);
  }

  lemma SplitSymbol(run: nat, size: nat)
    requires run < 16 && size < 16
    ensures AcSymbol(run, size) / 16 == run && AcSymbol(run, size) % 16 == size
  {}

  lemma AfterRunAndValue(ac: Coder, done: seq<int>, run: nat, v: int, tail: seq<bool>)
    requires run < 16 && |done| + run < 64 && v != 0
    ensures AfterSymbol(ac, done, run, BitLength(Abs(v)), MagnitudeBits(v) + tail)
         == DecodeAc(ac, done + Zeros(run) + [v], tail)
  {
    ReceiveInverts(v, tail);
  }

  lemma ReadEndOfBlock(ac: Coder, done: seq<int>, rest: seq<bool>)
    requires Reads(ac, EOB) && |done| < 64
    ensures DecodeAc(ac, done, ac.encode(EOB) + rest) == Some(DecodedCoefs(done + Zeros(64 - |done|), rest))
  {
    assert AcSymbol(0, 0) == EOB;
    DecodeOneSymbol(ac, done, 0, 0, rest);
  }

  /**
   * With `zeros` zeros pending, the decoder reads the remaining coefficients back behind what it
   * has done, the pending zeros included.
   */
  lemma {:induction false} AcRoundTrip(ac: Coder, done: seq<int>, zeros: nat, coefs: seq<int>, rest: seq<bool>)
    requires ValidAc(ac) && AllFit(coefs) && Codable(ac.syms, coefs, zeros) && |done| + zeros + |coefs| == 64
    ensures DecodeAc(ac, done, AcBits(ac, coefs, zeros) + rest)
         == Some(DecodedCoefs(done + Zeros(zeros) + coefs, rest))
    decreases |coefs|, zeros, 1
  {
    if coefs == [] {
      assert done + Zeros(zeros) + [] == done + Zeros(zeros);
      if zeros > 0 {
        ReadEndOfBlock(ac, done, rest);
      } else {
        assert [] + rest == rest && done + Zeros(0) == done;
      }
    } else if coefs[0] == 0 {
      AcRoundTrip(ac, done, zeros + 1, coefs[1..], rest);
      assert done + Zeros(zeros + 1) + coefs[1..] == done + Zeros(zeros) + coefs;
    } else if zeros >= 16 {
      AcRoundTripZeros(ac, done, zeros, coefs, rest);
    } else {
      AcRoundTripValue(ac, done, zeros, coefs, rest);
    }
  }

  lemma {:induction false} AcRoundTripZeros(ac: Coder, done: seq<int>, zeros: nat, coefs: seq<int>, rest: seq<bool>)
    requires ValidAc(ac) && AllFit(coefs) && Codable(ac.syms, coefs, zeros) && |done| + zeros + |coefs| == 64
    requires coefs != [] && coefs[0] != 0 && zeros >= 16
    ensures DecodeAc(ac, done, AcBits(ac, coefs, zeros) + rest)
         == Some(DecodedCoefs(done + Zeros(zeros) + coefs, rest))
    decreases |coefs|, zeros, 0
  {
    var next := AcBits(ac, coefs, zeros - 16);
    assert ac.encode(ZRL) + next + rest == ac.encode(ZRL) + (next + rest);
    assert AcSymbol(15, 0) == ZRL;
    DecodeOneSymbol(ac, done, 15, 0, next + rest);
    SixteenLess(zeros);
    AcRoundTrip(ac, done + Zeros(16), zeros - 16, coefs, rest);
    assert done + Zeros(16) + Zeros(zeros - 16) == done + Zeros(zeros);
  }

  lemma {:induction false} AcRoundTripValue(ac: Coder, done: seq<int>, zeros: nat, coefs: seq<int>, rest: seq<bool>)
    requires ValidAc(ac) && AllFit(coefs) && Codable(ac.syms, coefs, zeros) && |done| + zeros + |coefs| == 64
    requires coefs != [] && coefs[0] != 0 && zeros < 16
    ensures DecodeAc(ac, done, AcBits(ac, coefs, zeros) + rest)
         == Some(DecodedCoefs(done + Zeros(zeros) + coefs, rest))
    decreases |coefs|, zeros, 0
  {
    AcBitsOfValue(ac, coefs, zeros);
    ReadRunAndValue(ac, done, zeros, coefs[0], AcBits(ac, coefs[1..], 0), rest);
    AcRoundTrip(ac, done + Zeros(zeros) + [coefs[0]], 0, coefs[1..], rest);
    OneMoreDone(done, zeros, coefs);
  }

  /** Behind a coded run and value the decoder goes on with both done. */
  lemma ReadRunAndValue(ac: Coder, done: seq<int>, zeros: nat, v: int, next: seq<bool>, rest: seq<bool>)
    requires zeros < 16 && |done| + zeros < 64 && v != 0 && AcFits(v)
    requires Reads(ac, AcSymbol(zeros, BitLength(Abs(v))))
    ensures DecodeAc(ac, done, ac.encode(AcSymbol(zeros, BitLength(Abs(v)))) + (MagnitudeBits(v) + next) + rest)
         == DecodeAc(ac, done + Zeros(zeros) + [v], next + rest)
  {
    var size := BitLength(Abs(v));
    ConcatFour(ac.encode(AcSymbol(zeros, size)), MagnitudeBits(v), next, rest);
    DecodeOneSymbol(ac, done, zeros, size, MagnitudeBits(v) + (next + rest));
    AfterRunAndValue(ac, done, zeros, v, next + rest);
  }

  lemma OneMoreDone(done: seq<int>, zeros: nat, coefs: seq<int>)
    requires coefs != []
    ensures done + Zeros(zeros) + [coefs[0]] + Zeros(0) + coefs[1..] == done + Zeros(zeros) + coefs
  {
  }

  lemma SixteenLess(n: nat)
    requires n >= 16
    ensures (n - 16) % 16 == n % 16
  {}

  lemma DcRoundTrip(dc: Coder, diff: int, tail: seq<bool>)
    requires ValidDc(dc) && BitLength(Abs(diff)) <= 11
    ensures DecodeDc(dc, DcBits(dc, diff) + tail) == Some(DecodedInt(diff, tail))
  {
    var size: byte := BitLength(Abs(diff));
    assert DcBits(dc, diff) + tail == dc.encode(size) + (MagnitudeBits(diff) + tail);
    assert Reads(dc, size);
    ReceiveInverts(diff, tail);
  }

  /** A coded block followed by anything decodes to the block and leaves what follows. */
  lemma BlockRoundTrip(dc: Coder, ac: Coder, b: Block, pred: int, rest: seq<bool>)
    requires ValidDc(dc) && ValidAc(ac)
    requires AllFit(b[1..]) && BitLength(Abs(b[0] - pred)) <= 11 && Codable(ac.syms, b[1..], 0)
    ensures DecodeBlock(dc, ac, pred, BlockBits(dc, ac, b, pred) + rest) == Some(DecodedCoefs(b, rest))
  {
    var tail := AcBits(ac, b[1..], 0) + rest;
    assert BlockBits(dc, ac, b, pred) + rest == DcBits(dc, b[0] - pred) + tail;
    DcRoundTrip(dc, b[0] - pred, tail);
    AcRoundTrip(ac, [b[0]], 0, b[1..], rest);
    assert [b[0]] + Zeros(0) + b[1..] == b;
    DecodeInParts(dc, ac, pred, DcBits(dc, b[0] - pred) + tail, b[0] - pred, tail, DecodedCoefs(b, rest));
  }

  lemma DecodeInParts(dc: Coder, ac: Coder, pred: int, stream: seq<bool>, diff: int, tail: seq<bool>, r: DecodedCoefs)
    requires DecodeDc(dc, stream) == Some(DecodedInt(diff, tail)) && DecodeAc(ac, [pred + diff], tail) == Some(r)
    ensures DecodeBlock(dc, ac, pred, stream) == Some(r)
  {
  }

  // ----- What no stream can decode to

  lemma {:induction false} ZerosThenCodable(syms: set<byte>, n: nat, tail: seq<int>, zeros: nat)
    requires AllFit(tail)
    ensures AllFit(Zeros(n) + tail)
    ensures Codable(syms, Zeros(n) + tail, zeros) <==> Codable(syms, tail, zeros + n)
    decreases n
  {
    if n == 0 {
      assert Zeros(n) + tail == tail;
    } else {
      var all := Zeros(n) + tail;
      assert all[1..] == Zeros(n - 1) + tail;
      ZerosThenCodable(syms, n - 1, tail, zeros + 1);
    }
  }

  /** EXTEND yields a value of exactly the size it was given. */
  lemma ExtendHasSize(v: nat, t: nat)
    requires t > 0 && v < Pow2(t)
    ensures Extend(v, t) != 0 && BitLength(Abs(Extend(v, t))) == t
  {
    var e := Abs(Extend(v, t));
    assert Pow2(t) == 2 * Pow2(t - 1);
    assert Pow2(t - 1) <= e < Pow2(t);
    BitLengthBetween(e, t);
  }

  lemma BitLengthBetween(e: nat, t: nat)
    requires t > 0 && Pow2(t - 1) <= e < Pow2(t)
    ensures BitLength(e) == t
  {
    BitLengthBounds(e);
    BitLengthMonotone(e, t);
    if BitLength(e) < t {
      PowMonotone(BitLength(e), t - 1);
    }
  }

  /**
   * Whatever the stream, decoded coefficients only need symbols the coder has. `zeros`, a multiple
   * of sixteen, counts the zeros that end what is already done.
   */
  lemma {:induction false} DecodedIsCodable(ac: Coder, done: seq<int>, stream: seq<bool>, coefs: seq<int>, zeros: nat)
    requires ValidAc(ac) && |done| <= 64 && zeros % 16 == 0 && AllFit(coefs)
    requires DecodeAc(ac, done, stream).Some? && DecodeAc(ac, done, stream).value.coefs == done + coefs
    ensures Codable(ac.syms, coefs, zeros)
    decreases 64 - |done|
  {
    if |done| < 64 {
      var d := ac.decode(stream).value;
      var run, size := d.sym / 16, d.sym % 16;
      assert AcSymbol(run, size) == d.sym;
      if size == 0 && run != 15 {
        DecodedAfterEnd(ac.syms, done, coefs, zeros);
      } else if size == 0 {
        var tail := SplitAfter(ac, done, Zeros(16), d.rest, coefs);
        DecodedIsCodable(ac, done + Zeros(16), d.rest, tail, zeros + 16);
        ZerosThenCodable(ac.syms, 16, tail, zeros);
      } else {
        DecodedValueIsCodable(ac, done, run, size, d.rest, coefs, zeros);
      }
    } else {
      ResultLength(ac, done, stream);
    }
  }

  lemma {:induction false} DecodedValueIsCodable(ac: Coder, done: seq<int>, run: nat, size: nat, rest: seq<bool>,
                                                 coefs: seq<int>, zeros: nat)
    requires ValidAc(ac) && |done| < 64 && zeros % 16 == 0 && AllFit(coefs)
    requires run < 16 && 0 < size < 16 && AcSymbol(run, size) in ac.syms
    requires AfterSymbol(ac, done, run, size, rest).Some?
    requires AfterSymbol(ac, done, run, size, rest).value.coefs == done + coefs
    ensures Codable(ac.syms, coefs, zeros)
    decreases 64 - |done|, 0
  {
    var v := Receive(size, rest).value;
    ValueBound(rest[..size]);
    ExtendHasSize(Value(rest[..size]), size);
    var head := Zeros(run) + [v.value];
    assert done + Zeros(run) + [v.value] == done + head;
    var tail := SplitAfter(ac, done, head, v.rest, coefs);
    DecodedIsCodable(ac, done + head, v.rest, tail, 0);
    ValueThenCodable(ac.syms, run, v.value, tail, coefs, zeros);
  }

  lemma ValueThenCodable(syms: set<byte>, run: nat, v: int, tail: seq<int>, coefs: seq<int>, zeros: nat)
    requires coefs == Zeros(run) + [v] + tail && AllFit(coefs) && AllFit(tail) && Codable(syms, tail, 0)
    requires zeros % 16 == 0 && run < 16 && v != 0
    requires BitLength(Abs(v)) < 16 && AcSymbol(run, BitLength(Abs(v))) in syms
    ensures Codable(syms, coefs, zeros)
  {
    var more := [v] + tail;
    assert coefs == Zeros(run) + more;
    assert more[1..] == tail;
    assert AllFit(more) by {
      assert forall i :: 0 <= i < |more| ==> more[i] == coefs[run + i];
    }
    ZerosThenCodable(syms, run, more, zeros);
    SameRun(zeros, run);
  }

  lemma SameRun(zeros: nat, run: nat)
    requires zeros % 16 == 0 && run < 16
    ensures (zeros + run) % 16 == run
  {}

  lemma DecodedAfterEnd(syms: set<byte>, done: seq<int>, coefs: seq<int>, zeros: nat)
    requires |done| < 64 && done + Zeros(64 - |done|) == done + coefs && AllFit(coefs)
    ensures Codable(syms, coefs, zeros)
  {
    var n := 64 - |done|;
    assert coefs == (done + coefs)[|done|..] == Zeros(n) + [];
    ZerosThenCodable(syms, n, [], zeros);
  }

  /** The decoder only ever appends. */
  lemma {:induction false} ResultExtends(ac: Coder, done: seq<int>, stream: seq<bool>)
    requires |done| <= 64 && DecodeAc(ac, done, stream).Some?
    ensures done <= DecodeAc(ac, done, stream).value.coefs
    decreases 64 - |done|
  {
    if |done| < 64 {
      var d := ac.decode(stream).value;
      var run, size := d.sym / 16, d.sym % 16;
      if size == 0 && run == 15 {
        ResultExtends(ac, done + Zeros(16), d.rest);
      } else if size != 0 {
        var v := Receive(size, d.rest).value;
        ResultExtends(ac, done + Zeros(run) + [v.value], v.rest);
      }
    }
  }

  lemma ResultLength(ac: Coder, done: seq<int>, stream: seq<bool>)
    requires |done| == 64
    ensures DecodeAc(ac, done, stream) == Some(DecodedCoefs(done, stream))
  {}

  lemma SplitAfter(ac: Coder, done: seq<int>, head: seq<int>, stream: seq<bool>, coefs: seq<int>)
      returns (tail: seq<int>)
    requires |done| + |head| <= 64 && DecodeAc(ac, done + head, stream).Some?
    requires DecodeAc(ac, done + head, stream).value.coefs == done + coefs && AllFit(coefs)
    ensures coefs == head + tail && done + coefs == done + head + tail && AllFit(tail)
  {
    ResultExtends(ac, done + head, stream);
    HeadFirst(done, head, coefs);
    tail := coefs[|head|..];
  }

  lemma HeadFirst(done: seq<int>, head: seq<int>, coefs: seq<int>)
    requires done + head <= done + coefs
    ensures |head| <= |coefs|
    ensures coefs == head + coefs[|head|..] && done + coefs == done + head + coefs[|head|..]
  {
    var n := |head|;
    assert forall i :: 0 <= i < n ==> coefs[i] == (done + coefs)[|done| + i] == (done + head)[|done| + i] == head[i];
  }
}
