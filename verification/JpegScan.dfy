/**
 * A whole scan: blocks of the three components, interleaved as the encoder writes its 16x16 units,
 * packed, flushed and closed by a marker, for any valid choice of coders.
 */
module JpegScan {
  import opened Arithmetic
  import opened Bits
  import opened Options
  import opened JpegBlock
  import opened JpegBitWriter

  datatype Component = Luma | Cb | Cr

  datatype Unit = Unit(comp: Component, block: Block)

  /** The coders of the luminance and of the two chrominance components. */
  datatype Coders = Coders(dcLum: Coder, acLum: Coder, dcChr: Coder, acChr: Coder)

  function Dc(cs: Coders, c: Component): Coder {
    if c == Luma then cs.dcLum else cs.dcChr
  }

  function Ac(cs: Coders, c: Component): Coder {
    if c == Luma then cs.acLum else cs.acChr
  }

  ghost predicate ValidCoders(cs: Coders) {
    ValidDc(cs.dcLum) && ValidAc(cs.acLum) && ValidDc(cs.dcChr) && ValidAc(cs.acChr)
  }

  /** The last DC value of each component. */
  datatype Preds = Preds(y: int, cb: int, cr: int)

  function Pred(p: Preds, c: Component): int {
    match c
    case Luma => p.y
    case Cb => p.cb
    case Cr => p.cr
  }

  function Follow(p: Preds, c: Component, dc: int): Preds {
    match c
    case Luma => p.(y := dc)
    case Cb => p.(cb := dc)
    case Cr => p.(cr := dc)
  }

  // ----- Encoding and decoding on values

  /** AC values have at most 10 bits and DC differences at most 11. */
  predicate Fits(u: Unit, p: Preds) {
    AllFit(u.block[1..]) && BitLength(Abs(u.block[0] - Pred(p, u.comp))) <= 11
  }

  predicate AllUnitsFit(units: seq<Unit>, p: Preds)
    decreases |units|
  {
    units == [] || (Fits(units[0], p) && AllUnitsFit(units[1..], Follow(p, units[0].comp, units[0].block[0])))
  }

  function UnitBits(cs: Coders, u: Unit, p: Preds): seq<bool>
    requires Fits(u, p)
  {
    BlockBits(Dc(cs, u.comp), Ac(cs, u.comp), u.block, Pred(p, u.comp))
  }

  function ScanBits(cs: Coders, units: seq<Unit>, p: Preds): seq<bool>
    requires AllUnitsFit(units, p)
    decreases |units|
  {
    if units == [] then []
    else UnitBits(cs, units[0], p) + ScanBits(cs, units[1..], Follow(p, units[0].comp, units[0].block[0]))
  }

  /** Every symbol a unit needs has a code. */
  predicate UnitCodable(cs: Coders, u: Unit)
    requires AllFit(u.block[1..])
  {
    Codable(Ac(cs, u.comp).syms, u.block[1..], 0)
  }

  predicate AllCodable(cs: Coders, units: seq<Unit>, p: Preds)
    requires AllUnitsFit(units, p)
    decreases |units|
  {
    units == []
    || (UnitCodable(cs, units[0]) && AllCodable(cs, units[1..], Follow(p, units[0].comp, units[0].block[0])))
  }

  datatype DecodedScan = DecodedScan(blocks: seq<seq<int>>, rest: seq<bool>)

  function DecodeScan(cs: Coders, comps: seq<Component>, p: Preds, stream: seq<bool>): Option<DecodedScan>
    decreases |comps|
  {
    if comps == [] then Some(DecodedScan([], stream))
    else
      match DecodeBlock(Dc(cs, comps[0]), Ac(cs, comps[0]), Pred(p, comps[0]), stream)
      case None => None
      case Some(d) =>
        if d.coefs == [] then None
        else PrefixBlock(d.coefs, DecodeScan(cs, comps[1..], Follow(p, comps[0], d.coefs[0]), d.rest))
  }

  function PrefixBlock(b: seq<int>, tail: Option<DecodedScan>): Option<DecodedScan> {
    if tail.None? then None else Some(DecodedScan([b] + tail.value.blocks, tail.value.rest))
  }

  function Comps(units: seq<Unit>): (r: seq<Component>)
    ensures |r| == |units|
  {
    if units == [] then [] else [units[0].comp] + Comps(units[1..])
  }

  function Blocks(units: seq<Unit>): (r: seq<seq<int>>)
    ensures |r| == |units|
  {
    if units == [] then [] else [units[0].block] + Blocks(units[1..])
  }

  // ----- Decoding recovers the blocks exactly when every needed symbol has a code

  lemma DecodeFirst(cs: Coders, comps: seq<Component>, p: Preds, stream: seq<bool>, b: seq<int>, tail: seq<bool>)
    requires comps != [] && b != []
    requires DecodeBlock(Dc(cs, comps[0]), Ac(cs, comps[0]), Pred(p, comps[0]), stream) == Some(DecodedCoefs(b, tail))
    ensures DecodeScan(cs, comps, p, stream)
         == PrefixBlock(b, DecodeScan(cs, comps[1..], Follow(p, comps[0], b[0]), tail))
  {}

  lemma FirstUnitRoundTrip(cs: Coders, units: seq<Unit>, p: Preds, rest: seq<bool>)
    requires ValidCoders(cs) && AllUnitsFit(units, p) && units != [] && UnitCodable(cs, units[0])
    ensures var u := units[0]; var more := units[1..]; var p' := Follow(p, u.comp, u.block[0]);
            DecodeScan(cs, Comps(units), p, ScanBits(cs, units, p) + rest)
            == PrefixBlock(u.block, DecodeScan(cs, Comps(more), p', ScanBits(cs, more, p') + rest))
  {
    var u, more := units[0], units[1..];
    var p' := Follow(p, u.comp, u.block[0]);
    var tail := ScanBits(cs, more, p') + rest;
    assert ScanBits(cs, units, p) + rest == UnitBits(cs, u, p) + tail;
    BlockRoundTrip(Dc(cs, u.comp), Ac(cs, u.comp), u.block, Pred(p, u.comp), tail);
    assert Comps(units)[0] == u.comp && Comps(units)[1..] == Comps(more);
    DecodeFirst(cs, Comps(units), p, UnitBits(cs, u, p) + tail, u.block, tail);
  }

  lemma {:induction false} ScanRoundTrip(cs: Coders, units: seq<Unit>, p: Preds, rest: seq<bool>)
    requires ValidCoders(cs) && AllUnitsFit(units, p) && AllCodable(cs, units, p)
    ensures DecodeScan(cs, Comps(units), p, ScanBits(cs, units, p) + rest) == Some(DecodedScan(Blocks(units), rest))
    decreases |units|
  {
    if units == [] {
      assert [] + rest == rest;
    } else {
      FirstUnitRoundTrip(cs, units, p, rest);
      ScanRoundTrip(cs, units[1..], Follow(p, units[0].comp, units[0].block[0]), rest);
    }
  }

  lemma {:induction false} DecodedScanIsCodable(cs: Coders, units: seq<Unit>, p: Preds, stream: seq<bool>)
    requires ValidCoders(cs) && AllUnitsFit(units, p)
    requires var d := DecodeScan(cs, Comps(units), p, stream); d.Some? && d.value.blocks == Blocks(units)
    ensures AllCodable(cs, units, p)
    decreases |units|
  {
    if units != [] {
      var u, more := units[0], units[1..];
      assert Comps(units)[0] == u.comp && Comps(units)[1..] == Comps(more);
      assert Blocks(units)[0] == u.block && Blocks(units)[1..] == Blocks(more);
      var d := DecodeBlock(Dc(cs, u.comp), Ac(cs, u.comp), Pred(p, u.comp), stream).value;
      var r := DecodeScan(cs, Comps(more), Follow(p, u.comp, d.coefs[0]), d.rest).value;
      assert ([d.coefs] + r.blocks)[0] == d.coefs && ([d.coefs] + r.blocks)[1..] == r.blocks;
      DecodedBlockIsCodable(Dc(cs, u.comp), Ac(cs, u.comp), u.block, Pred(p, u.comp), stream);
      DecodedScanIsCodable(cs, more, Follow(p, u.comp, u.block[0]), d.rest);
    }
  }

  lemma DecodedBlockIsCodable(dc: Coder, ac: Coder, b: Block, pred: int, stream: seq<bool>)
    requires ValidAc(ac) && AllFit(b[1..])
    requires var d := DecodeBlock(dc, ac, pred, stream); d.Some? && d.value.coefs == b
    ensures Codable(ac.syms, b[1..], 0)
  {
    var v := DecodeDc(dc, stream).value;
    var first := [pred + v.value];
    ResultExtends(ac, first, v.rest);
    assert b == first + b[1..];
    DecodedIsCodable(ac, first, v.rest, b[1..], 0);
  }

  /** A T.81 decoder on the entropy-coded bytes and whatever marker follows them. */
  function DecodeBytes(cs: Coders, comps: seq<Component>, bytes: seq<byte>): Option<seq<seq<int>>> {
    match DecodeScan(cs, comps, Preds(0, 0, 0), Unpack(Unstuff(bytes)))
    case None => None
    case Some(d) => Some(d.blocks)
  }

  /**
   * Round trip: bytes that pack the coded scan, padded with ones and stuffed, decode to the same
   * blocks if and only if every symbol the blocks need has a code.
   */
  lemma BytesRoundTripIff(cs: Coders, units: seq<Unit>, bytes: seq<byte>, k: nat, marker: byte, after: seq<byte>)
    requires ValidCoders(cs) && AllUnitsFit(units, Preds(0, 0, 0)) && marker != 0
    requires Unpack(bytes) == ScanBits(cs, units, Preds(0, 0, 0)) + Ones(k)
    ensures DecodeBytes(cs, Comps(units), Stuff(bytes) + ([0xFF, marker] + after)) == Some(Blocks(units))
            <==> AllCodable(cs, units, Preds(0, 0, 0))
  {
    UnstuffStuff(bytes, marker, after);
    if AllCodable(cs, units, Preds(0, 0, 0)) {
      ScanRoundTrip(cs, units, Preds(0, 0, 0), Ones(k));
    }
    if DecodeBytes(cs, Comps(units), Stuff(bytes) + ([0xFF, marker] + after)) == Some(Blocks(units)) {
      DecodedScanIsCodable(cs, units, Preds(0, 0, 0), Unpack(bytes));
    }
  }
}
