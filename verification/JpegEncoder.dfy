/**
 * The entropy coder of the JPEG tool with its shipped tables: the imperative block and scan
 * encoders, and exactly which images they encode decodably.
 */
module JpegEncoder {
  import opened Arithmetic
  import opened Bits
  import opened Options
  import opened JpegHuffman
  import opened JpegTables
  import opened JpegBlock
  import opened JpegBitWriter
  import opened JpegScan

  // ----- The shipped tables as coders

  function CoderOf(t: Table): Coder
    requires ValidTable(t)
  {
    Coder(Symbols(t), (sym: byte) => SymbolBits(t, sym), stream => DecodeSymbol(t, stream))
  }

  lemma CoderIsValid(t: Table)
    requires ValidTable(t)
    ensures ValidCoder(CoderOf(t))
  {
    var c := CoderOf(t);
    forall sym: byte | sym in c.syms
      ensures Reads(c, sym)
    {
      forall rest
        ensures c.decode(c.encode(sym) + rest) == Some(DecodedSymbol(sym, rest))
      {
        DecodeInvertsSymbol(t, sym, rest);
      }
    }
    forall stream | c.decode(stream).Some?
      ensures c.decode(stream).value.sym in c.syms
    {
      DecodedSymbolHasCode(t, stream);
    }
  }

  lemma ValidDcCoder(t: Table)
    requires ValidTable(t) && forall s: byte :: s <= 11 ==> s in Symbols(t)
    ensures ValidDc(CoderOf(t))
  {
    CoderIsValid(t);
  }

  lemma ValidAcCoder(t: Table)
    requires ValidTable(t) && EOB in Symbols(t) && ZRL in Symbols(t)
    ensures ValidAc(CoderOf(t))
  {
    CoderIsValid(t);
  }

  function Shipped(): Coders {
    DcLumIsValid();
    AcLumIsValid();
    DcChrIsValid();
    AcChrIsValid();
    Coders(CoderOf(DcLum()), CoderOf(AcLum()), CoderOf(DcChr()), CoderOf(AcChr()))
  }

  lemma ShippedDcValid()
    ensures ValidTable(DcLum()) && ValidDc(CoderOf(DcLum())) && ValidTable(DcChr()) && ValidDc(CoderOf(DcChr()))
  {
    DcLumCoderValid(DcLum());
    DcChrCoderValid(DcChr());
  }

  lemma DcLumCoderValid(t: Table)
    requires t == DcLum()
    ensures ValidTable(t) && ValidDc(CoderOf(t))
  {
    DcCovers(0);
    forall s: byte | s <= 11
      ensures s in Symbols(t)
    {
      DcCovers(s);
    }
    ValidDcCoder(t);
  }

  lemma DcChrCoderValid(t: Table)
    requires t == DcChr()
    ensures ValidTable(t) && ValidDc(CoderOf(t))
  {
    DcCovers(0);
    forall s: byte | s <= 11
      ensures s in Symbols(t)
    {
      DcCovers(s);
    }
    ValidDcCoder(t);
  }

  lemma ShippedAcValid()
    ensures ValidTable(AcLum()) && ValidAc(CoderOf(AcLum())) && ValidTable(AcChr()) && ValidAc(CoderOf(AcChr()))
  {
    LumCovers(EOB);
    LumCovers(ZRL);
    ChrCovers(EOB);
    ChrCovers(ZRL);
    ValidAcCoder(AcLum());
    ValidAcCoder(AcChr());
  }

  lemma ShippedAreValid()
    ensures ValidCoders(Shipped())
  {
    ShippedDcValid();
    ShippedAcValid();
  }

  // ----- What the chrominance table cannot code

  /** No coefficient of nine or ten bits stands behind fifteen zeros, modulo sixteen. */
  predicate ChromaSafe(coefs: seq<int>, zeros: nat)
    decreases |coefs|
  {
    coefs == []
    || (if coefs[0] == 0 then ChromaSafe(coefs[1..], zeros + 1)
        else !(zeros % 16 == 15 && BitLength(Abs(coefs[0])) >= 9) && ChromaSafe(coefs[1..], 0))
  }

  lemma NeededSymbol(run: nat, size: nat)
    requires run < 16 && 1 <= size <= 10
    ensures AcSymbol(run, size) % 16 == size
    ensures AcSymbol(run, size) == 0xf9 || AcSymbol(run, size) == 0xfa <==> run == 15 && size >= 9
  {
    SplitSymbol(run, size);
  }

  lemma {:induction false} LumaIsCodable(syms: set<byte>, coefs: seq<int>, zeros: nat)
    requires AllFit(coefs)
    requires forall s: byte :: 1 <= s % 16 <= 10 ==> s in syms
    ensures Codable(syms, coefs, zeros)
    decreases |coefs|
  {
    if coefs != [] {
      assert AcFits(coefs[0]);
      if coefs[0] == 0 {
        LumaIsCodable(syms, coefs[1..], zeros + 1);
      } else {
        NeededSymbol(zeros % 16, BitLength(Abs(coefs[0])));
        LumaIsCodable(syms, coefs[1..], 0);
      }
    }
  }

  lemma {:induction false} ChromaCodableIffSafe(syms: set<byte>, coefs: seq<int>, zeros: nat)
    requires AllFit(coefs)
    requires forall s: byte :: 1 <= s % 16 <= 10 && s != 0xf9 && s != 0xfa ==> s in syms
    requires 0xf9 !in syms && 0xfa !in syms
    ensures Codable(syms, coefs, zeros) <==> ChromaSafe(coefs, zeros)
    decreases |coefs|
  {
    if coefs != [] {
      assert AcFits(coefs[0]);
      if coefs[0] == 0 {
        ChromaCodableIffSafe(syms, coefs[1..], zeros + 1);
      } else {
        NeededSymbol(zeros % 16, BitLength(Abs(coefs[0])));
        ChromaCodableIffSafe(syms, coefs[1..], 0);
      }
    }
  }

  /** The units an image consists of are safe when its chrominance blocks are. */
  predicate Safe(u: Unit) {
    u.comp == Luma || ChromaSafe(u.block[1..], 0)
  }

  lemma UnitCodableIffSafe(u: Unit)
    requires AllFit(u.block[1..])
    ensures UnitCodable(Shipped(), u) <==> Safe(u)
  {
    if u.comp == Luma {
      LumaUnitCodable(AcLum(), u.block[1..]);
    } else {
      ChromaUnitCodableIffSafe(AcChr(), u.block[1..]);
    }
  }

  lemma LumaUnitCodable(t: Table, coefs: seq<int>)
    requires t == AcLum() && AllFit(coefs)
    ensures ValidTable(t) && Codable(Symbols(t), coefs, 0)
  {
    forall s: byte | 1 <= s % 16 <= 10
      ensures ValidTable(t) && s in Symbols(t)
    {
      LumCovers(s);
    }
    LumCovers(EOB);
    LumaIsCodable(Symbols(t), coefs, 0);
  }

  lemma ChromaUnitCodableIffSafe(t: Table, coefs: seq<int>)
    requires t == AcChr() && AllFit(coefs)
    ensures ValidTable(t) && (Codable(Symbols(t), coefs, 0) <==> ChromaSafe(coefs, 0))
  {
    forall s: byte | 1 <= s % 16 <= 10 && s != 0xf9 && s != 0xfa
      ensures ValidTable(t) && s in Symbols(t)
    {
      ChrCovers(s);
    }
    ChrLacksTwo();
    ChromaCodableIffSafe(Symbols(t), coefs, 0);
  }

  predicate AllSafe(units: seq<Unit>) {
    forall i :: 0 <= i < |units| ==> Safe(units[i])
  }

  lemma {:induction false} AllCodableIffSafe(units: seq<Unit>, p: Preds)
    requires AllUnitsFit(units, p)
    ensures AllCodable(Shipped(), units, p) <==> AllSafe(units)
    decreases |units|
  {
    if units != [] {
      UnitCodableIffSafe(units[0]);
      AllCodableIffSafe(units[1..], Follow(p, units[0].comp, units[0].block[0]));
      assert units == [units[0]] + units[1..];
    }
  }

  // ----- The imperative encoder

  ghost predicate Codes(e: HuffEntry, bits: seq<bool>) {
    e.len <= 16 && e.code < Pow2(e.len) && bits == ToBits(e.code, e.len)
  }

  /** The lookup array holds the coder's codes. */
  ghost predicate Looks(ht: array<HuffEntry>, c: Coder)
    reads ht
  {
    ht.Length == 256 && forall s: byte :: Codes(ht[s], c.encode(s))
  }

  lemma {:induction false} EntryFits(t: Table, sym: byte)
    requires ValidTable(t)
    ensures Entry(t, sym).code < Pow2(Entry(t, sym).len) && Entry(t, sym).len <= 16
  {
    if sym in t.vals[..Total(t.counts)] {
      var j := EntryFound(t, Total(t.counts), sym);
      CodeFits(t.counts, j);
    } else {
      EntryMissing(t, Total(t.counts), sym);
      assert Pow2(0) == 1;
    }
  }

  method BuildLookup(t: Table) returns (ht: array<HuffEntry>)
    requires ValidTable(t)
    ensures fresh(ht) && Looks(ht, CoderOf(t))
  {
    ht := BuildHuffTable(t);
    forall s: byte
      ensures Codes(ht[s], CoderOf(t).encode(s))
    {
      EntryFits(t, s);
    }
  }

  /** The `while (tmp)` loop: how many bits a magnitude has. */
  method CountBits(v: nat) returns (nbits: nat)
    ensures nbits == BitLength(v)
  {
    nbits := 0;
    var tmp := v;
    while tmp != 0
      invariant nbits + BitLength(tmp) == BitLength(v)
    {
      nbits := nbits + 1;
      tmp := tmp / 2;
    }
  }

  method PutSymbol(w: BitWriter, ht: array<HuffEntry>, ghost c: Coder, sym: byte)
    requires w.Valid() && Looks(ht, c)
    modifies w
    ensures w.Valid() && w.base == old(w.base)
    ensures w.written == old(w.written) + c.encode(sym)
  {
    assert Codes(ht[sym], c.encode(sym));
    w.PutBits(ht[sym].code, ht[sym].len);
  }

  /** The appended bits of a value of `nbits` bits. */
  method PutValue(w: BitWriter, v: int, nbits: nat)
    requires w.Valid() && nbits == BitLength(Abs(v)) <= 11
    modifies w
    ensures w.Valid() && w.base == old(w.base)
    ensures w.written == old(w.written) + MagnitudeBits(v)
  {
    var val := if v >= 0 then v else v - 1;
    w.PutBits(val % Pow2(nbits), nbits);
  }

  /** `encode_block` from the quantised coefficients on; returns the DC value for the next block. */
  method EncodeBlock(w: BitWriter, coefs: Block, prevDc: int, dcHt: array<HuffEntry>, acHt: array<HuffEntry>,
                     ghost dc: Coder, ghost ac: Coder)
    returns (newDc: int)
    requires w.Valid() && Looks(dcHt, dc) && Looks(acHt, ac)
    requires AllFit(coefs[1..]) && BitLength(Abs(coefs[0] - prevDc)) <= 11
    modifies w
    ensures w.Valid() && w.base == old(w.base) && newDc == coefs[0]
    ensures w.written == old(w.written) + BlockBits(dc, ac, coefs, prevDc)
  {
    ghost var start := w.written;
    EncodeDc(w, coefs[0] - prevDc, dcHt, dc);
    EncodeAc(w, coefs, acHt, ac);
    BlockFollows(start, dc, ac, coefs, prevDc);
    newDc := coefs[0];
  }

  lemma BlockFollows(start: seq<bool>, dc: Coder, ac: Coder, b: Block, pred: int)
    requires AllFit(b[1..]) && BitLength(Abs(b[0] - pred)) <= 11
    ensures start + DcBits(dc, b[0] - pred) + AcBits(ac, b[1..], 0) == start + BlockBits(dc, ac, b, pred)
  {
    ConcatAssociates(start, DcBits(dc, b[0] - pred), AcBits(ac, b[1..], 0));
  }

  method EncodeDc(w: BitWriter, diff: int, dcHt: array<HuffEntry>, ghost dc: Coder)
    requires w.Valid() && Looks(dcHt, dc) && BitLength(Abs(diff)) <= 11
    modifies w
    ensures w.Valid() && w.base == old(w.base)
    ensures w.written == old(w.written) + DcBits(dc, diff)
  {
    var nbits := CountBits(Abs(diff));
    ghost var start := w.written;
    PutSymbol(w, dcHt, dc, nbits);
    ConcatAssociates(start, dc.encode(nbits), MagnitudeBits(diff));
    if nbits != 0 {
      PutValue(w, diff, nbits);
    } else {
      assert MagnitudeBits(diff) == [];
    }
  }

  /** The run-length loop over the AC coefficients. */
  method EncodeAc(w: BitWriter, coefs: Block, acHt: array<HuffEntry>, ghost c: Coder)
    requires w.Valid() && Looks(acHt, c) && AllFit(coefs[1..])
    modifies w
    ensures w.Valid() && w.base == old(w.base)
    ensures w.written == old(w.written) + AcBits(c, coefs[1..], 0)
  {
    ghost var goal := w.written + AcBits(c, coefs[1..], 0);
    var nzeros := 0;
    var i := 1;
    while i < 64
      invariant 1 <= i <= 64 && w.Valid() && w.base == old(w.base) && AllFit(coefs[i..])
      invariant w.written + AcBits(c, coefs[i..], nzeros) == goal
    {
      assert coefs[i..] == [coefs[i]] + coefs[i + 1..];
      assert AllFit(coefs[i + 1..]) && AcFits(coefs[i]);
      if coefs[i] == 0 {
        assert coefs[i..][1..] == coefs[i + 1..];
        nzeros := nzeros + 1;
      } else {
        nzeros := PutZeroRuns(w, nzeros, acHt, c, coefs[i..]);
        EncodeValue(w, coefs[i], nzeros, acHt, c, coefs[i + 1..]);
        nzeros := 0;
      }
      i := i + 1;
    }
    assert coefs[i..] == [];
    if nzeros > 0 {
      PutSymbol(w, acHt, c, EOB);
    } else {
      assert w.written + [] == w.written;
    }
  }

  /** The `while (nzeros >= 16)` loop before a nonzero coefficient. */
  method PutZeroRuns(w: BitWriter, zeros: nat, acHt: array<HuffEntry>, ghost c: Coder, ghost coefs: seq<int>)
    returns (nzeros: nat)
    requires w.Valid() && Looks(acHt, c) && AllFit(coefs) && coefs != [] && coefs[0] != 0
    modifies w
    ensures w.Valid() && w.base == old(w.base) && nzeros < 16
    ensures w.written + AcBits(c, coefs, nzeros) == old(w.written) + AcBits(c, coefs, zeros)
  {
    nzeros := zeros;
    while nzeros >= 16
      invariant w.Valid() && w.base == old(w.base)
      invariant w.written + AcBits(c, coefs, nzeros) == old(w.written) + AcBits(c, coefs, zeros)
    {
      ConcatAssociates(w.written, c.encode(ZRL), AcBits(c, coefs, nzeros - 16));
      PutSymbol(w, acHt, c, ZRL);
      nzeros := nzeros - 16;
    }
  }

  lemma FitBehind(v: int, more: seq<int>)
    requires AcFits(v) && AllFit(more)
    ensures AllFit([v] + more) && ([v] + more)[0] == v && ([v] + more)[1..] == more
  {
  }

  /** One nonzero coefficient behind fewer than sixteen zeros. */
  method EncodeValue(w: BitWriter, v: int, nzeros: nat, acHt: array<HuffEntry>, ghost c: Coder, ghost more: seq<int>)
    requires w.Valid() && Looks(acHt, c) && v != 0 && AcFits(v) && nzeros < 16 && AllFit(more)
    modifies w
    ensures w.Valid() && w.base == old(w.base)
    ensures AllFit([v] + more)
    ensures w.written + AcBits(c, more, 0) == old(w.written) + AcBits(c, [v] + more, nzeros)
  {
    var nbits := CountBits(Abs(v));
    PutSymbol(w, acHt, c, AcSymbol(nzeros, nbits));
    PutValue(w, v, nbits);
    FitBehind(v, more);
    AcBitsOfValue(c, [v] + more, nzeros);
    ConcatFour(old(w.written), c.encode(AcSymbol(nzeros, nbits)), MagnitudeBits(v), AcBits(c, more, 0));
  }

  // ----- The whole scan

  /** One 16x16 unit of the image: four luminance blocks and one block of each chrominance component. */
  datatype Mcu = Mcu(y0: Block, y1: Block, y2: Block, y3: Block, cb: Block, cr: Block)

  function McuUnits(m: Mcu): seq<Unit> {
    [Unit(Luma, m.y0), Unit(Luma, m.y1), Unit(Luma, m.y2), Unit(Luma, m.y3), Unit(Cb, m.cb), Unit(Cr, m.cr)]
  }

  function UnitsOf(mcus: seq<Mcu>): seq<Unit> {
    if mcus == [] then [] else McuUnits(mcus[0]) + UnitsOf(mcus[1..])
  }

  const START := Preds(0, 0, 0)

  /** The four lookup arrays. */
  datatype Lookups = Lookups(dcLum: array<HuffEntry>, acLum: array<HuffEntry>,
                             dcChr: array<HuffEntry>, acChr: array<HuffEntry>)
  {
    ghost predicate Valid(cs: Coders)
      reads dcLum, acLum, dcChr, acChr
    {
      Looks(dcLum, cs.dcLum) && Looks(acLum, cs.acLum) && Looks(dcChr, cs.dcChr) && Looks(acChr, cs.acChr)
    }
  }

  method BuildLookups() returns (tabs: Lookups)
    ensures tabs.Valid(Shipped())
    ensures fresh(tabs.dcLum) && fresh(tabs.acLum) && fresh(tabs.dcChr) && fresh(tabs.acChr)
  {
    DcLumIsValid();
    AcLumIsValid();
    DcChrIsValid();
    AcChrIsValid();
    var dcLum := BuildLookup(DcLum());
    var dcChr := BuildLookup(DcChr());
    var acLum := BuildLookup(AcLum());
    var acChr := BuildLookup(AcChr());
    tabs := Lookups(dcLum, acLum, dcChr, acChr);
  }

  /** Encodes the first of the units to come and returns the predictions for the next. */
  method EncodeUnit(w: BitWriter, tabs: Lookups, u: Unit, p: Preds, ghost cs: Coders, ghost units: seq<Unit>)
    returns (next: Preds)
    requires w.Valid() && tabs.Valid(cs) && units != [] && units[0] == u && AllUnitsFit(units, p)
    modifies w
    ensures w.Valid() && w.base == old(w.base)
    ensures next == Follow(p, u.comp, u.block[0]) && AllUnitsFit(units[1..], next)
    ensures w.written + ScanBits(cs, units[1..], next) == old(w.written) + ScanBits(cs, units, p)
  {
    ghost var start := w.written;
    var dc;
    if u.comp == Luma {
      dc := EncodeBlock(w, u.block, Pred(p, u.comp), tabs.dcLum, tabs.acLum, cs.dcLum, cs.acLum);
    } else {
      dc := EncodeBlock(w, u.block, Pred(p, u.comp), tabs.dcChr, tabs.acChr, cs.dcChr, cs.acChr);
    }
    next := Follow(p, u.comp, dc);
    ConcatAssociates(start, UnitBits(cs, u, p), ScanBits(cs, units[1..], next));
  }

  method EncodeMcu(w: BitWriter, tabs: Lookups, m: Mcu, p: Preds, ghost cs: Coders, ghost units: seq<Unit>)
    returns (next: Preds)
    requires w.Valid() && tabs.Valid(cs) && AllUnitsFit(McuUnits(m) + units, p)
    modifies w
    ensures w.Valid() && w.base == old(w.base)
    ensures AllUnitsFit(units, next)
    ensures w.written + ScanBits(cs, units, next) == old(w.written) + ScanBits(cs, McuUnits(m) + units, p)
  {
    ghost var all := McuUnits(m) + units;
    next := p;
    var ys := [m.y0, m.y1, m.y2, m.y3];
    for k := 0 to 4
      invariant w.Valid() && w.base == old(w.base) && AllUnitsFit(all[k..], next)
      invariant w.written + ScanBits(cs, all[k..], next) == old(w.written) + ScanBits(cs, all, p)
    {
      assert all[k..][1..] == all[k + 1..];
      next := EncodeUnit(w, tabs, Unit(Luma, ys[k]), next, cs, all[k..]);
    }
    assert all[4..][1..] == all[5..] && all[5..][1..] == units;
    next := EncodeUnit(w, tabs, Unit(Cb, m.cb), next, cs, all[4..]);
    next := EncodeUnit(w, tabs, Unit(Cr, m.cr), next, cs, all[5..]);
  }

  /** The unit loop, the flush and the end marker, for any lookup arrays. */
  method EncodeMcus(header: seq<byte>, mcus: seq<Mcu>, tabs: Lookups, ghost cs: Coders)
    returns (out: seq<byte>)
    requires AllUnitsFit(UnitsOf(mcus), START) && tabs.Valid(cs)
    ensures exists bytes, k :: CodedAs(header, out, cs, UnitsOf(mcus), bytes, k)
  {
    var w := new BitWriter(header);
    PutMcus(w, mcus, tabs, cs);
    w.FlushBits();
    out := w.buf + [0xFF, 0xD9];
    ghost var k :| 0 <= k < 8 && Unpack(w.bytes) == ScanBits(cs, UnitsOf(mcus), START) + Ones(k);
    assert CodedAs(header, out, cs, UnitsOf(mcus), w.bytes, k);
  }

  /** The loop over the units of the image. */
  method PutMcus(w: BitWriter, mcus: seq<Mcu>, tabs: Lookups, ghost cs: Coders)
    requires AllUnitsFit(UnitsOf(mcus), START) && tabs.Valid(cs) && w.Valid() && w.written == []
    modifies w
    ensures w.Valid() && w.base == old(w.base) && w.written == ScanBits(cs, UnitsOf(mcus), START)
  {
    var p := START;
    var m := 0;
    assert mcus[0..] == mcus;
    while m < |mcus|
      invariant 0 <= m <= |mcus| && w.Valid() && w.base == old(w.base) && tabs.Valid(cs)
      invariant AllUnitsFit(UnitsOf(mcus[m..]), p)
      invariant w.written + ScanBits(cs, UnitsOf(mcus[m..]), p) == ScanBits(cs, UnitsOf(mcus), START)
    {
      assert mcus[m..][1..] == mcus[m + 1..];
      p := EncodeMcu(w, tabs, mcus[m], p, cs, UnitsOf(mcus[m + 1..]));
      m := m + 1;
    }
    assert mcus[m..] == [] && w.written == w.written + [];
  }

  /** Behind the header stand the stuffed bytes of the scan's bits, filled up with `k` ones, and the end marker. */
  ghost predicate CodedAs(header: seq<byte>, out: seq<byte>, cs: Coders, units: seq<Unit>, bytes: seq<byte>, k: nat)
    requires AllUnitsFit(units, START)
  {
    out == header + Stuff(bytes) + [0xFF, 0xD9] && Unpack(bytes) == ScanBits(cs, units, START) + Ones(k) && k < 8
  }

  /**
   * The scan of `nv12_encode_jpeg`, from quantised blocks to the end marker. Behind the header the
   * output holds no marker before its own, and a T.81 decoder recovers every block if and only if
   * no chrominance coefficient of nine or ten bits follows fifteen zeros, modulo sixteen.
   */
  method EncodeScan(header: seq<byte>, mcus: seq<Mcu>) returns (out: seq<byte>)
    requires AllUnitsFit(UnitsOf(mcus), START)
    ensures MarkerOnlyAtEnd(header, out)
    ensures DecodeBytes(Shipped(), Comps(UnitsOf(mcus)), out[|header|..]) == Some(Blocks(UnitsOf(mcus)))
            <==> AllSafe(UnitsOf(mcus))
  {
    var tabs := BuildLookups();
    out := EncodeMcus(header, mcus, tabs, Shipped());
    ghost var bytes, k :| CodedAs(header, out, Shipped(), UnitsOf(mcus), bytes, k);
    OutputShape(header, bytes, out);
    DecodesIffSafe(UnitsOf(mcus), bytes, k);
  }

  /** The output starts with the header and ends with the only marker behind it. */
  predicate MarkerOnlyAtEnd(header: seq<byte>, out: seq<byte>) {
    && |header| + 2 <= |out| && out[..|header|] == header && out[|out| - 2..] == [0xFF, 0xD9]
    && forall i :: |header| <= i < |out| - 2 && out[i] == 0xFF ==> i + 1 < |out| - 2 && out[i + 1] == 0x00
  }

  lemma OutputShape(header: seq<byte>, bytes: seq<byte>, out: seq<byte>)
    requires out == header + Stuff(bytes) + [0xFF, 0xD9]
    ensures MarkerOnlyAtEnd(header, out)
    ensures out[|header|..] == Stuff(bytes) + ([0xFF, 0xD9] + [])
  {
    forall i | |header| <= i < |out| - 2 && out[i] == 0xFF
      ensures i + 1 < |out| - 2 && out[i + 1] == 0x00
    {
      assert out[i] == Stuff(bytes)[i - |header|];
      StuffedHasNoMarker(bytes, i - |header|);
    }
  }

  lemma DecodesIffSafe(units: seq<Unit>, bytes: seq<byte>, k: nat)
    requires AllUnitsFit(units, START) && Unpack(bytes) == ScanBits(Shipped(), units, START) + Ones(k)
    ensures DecodeBytes(Shipped(), Comps(units), Stuff(bytes) + ([0xFF, 0xD9] + [])) == Some(Blocks(units))
            <==> AllSafe(units)
  {
    ShippedAreValid();
    BytesRoundTripIff(Shipped(), units, bytes, k, 0xD9, []);
    AllCodableIffSafe(units, START);
  }

  // ----- The unsafe images are there

  lemma {:induction false} SafeBehindZeros(n: nat, tail: seq<int>, zeros: nat)
    ensures ChromaSafe(Zeros(n) + tail, zeros) <==> ChromaSafe(tail, zeros + n)
  {
    if n == 0 {
      assert Zeros(n) + tail == tail;
    } else {
      assert (Zeros(n) + tail)[1..] == Zeros(n - 1) + tail;
      SafeBehindZeros(n - 1, tail, zeros + 1);
    }
  }

  /** A chrominance block whose only coefficient, 256, stands behind fifteen zeros. */
  function LateBlock(): Block {
    Zeros(16) + ([256] + Zeros(47))
  }

  lemma NineBits(v: nat)
    requires v == 256
    ensures BitLength(v) == 9
  {
    assert BitLength(4) == 3;
    assert BitLength(32) == 6;
  }

  lemma LateTailIsUnsafe(tail: seq<int>, v: int)
    requires tail == Zeros(15) + ([v] + Zeros(47)) && v == 256
    ensures !ChromaSafe(tail, 0)
  {
    SafeBehindZeros(15, [v] + Zeros(47), 0);
    NineBits(v);
    assert ([v] + Zeros(47))[0] == v;
  }

  lemma LateBlockFits()
    ensures AllFit(LateBlock()[1..])
  {
    NineBits(256);
    forall i | 0 <= i < 63
      ensures AcFits(LateBlock()[1..][i])
    {
      assert LateBlock()[1..][i] == 0 || LateBlock()[1..][i] == 256;
    }
  }

  lemma LateBlockIsUnsafe()
    ensures AllFit(LateBlock()[1..]) && !Safe(Unit(Cb, LateBlock()))
  {
    LateBlockFits();
    assert LateBlock()[1..] == Zeros(15) + ([256] + Zeros(47));
    LateTailIsUnsafe(LateBlock()[1..], 256);
  }

  /** A one-unit image within the encoder's ranges that its own output does not decode to. */
  lemma UnsafeImage() returns (m: Mcu)
    ensures AllUnitsFit(McuUnits(m) + [], START) && !AllSafe(McuUnits(m))
  {
    var z: Block := Zeros(64);
    m := Mcu(z, z, z, z, LateBlock(), z);
    LateBlockIsUnsafe();
    var u := McuUnits(m) + [];
    assert u == McuUnits(m);
    assert AllFit(z[1..]) by {
      assert forall i :: 0 <= i < 63 ==> z[1..][i] == 0;
    }
    SixFit(u);
    assert !Safe(u[4]);
  }

  /** Blocks of which the first coefficient is zero fit if their other coefficients do. */
  lemma SixFit(u: seq<Unit>)
    requires |u| == 6 && forall i :: 0 <= i < 6 ==> AllFit(u[i].block[1..]) && u[i].block[0] == 0
    ensures AllUnitsFit(u, START)
  {
    OneMoreFits(u, 5);
    OneMoreFits(u, 4);
    OneMoreFits(u, 3);
    OneMoreFits(u, 2);
    OneMoreFits(u, 1);
    OneMoreFits(u, 0);
    assert u[0..] == u;
  }

  lemma OneMoreFits(u: seq<Unit>, i: nat)
    requires i < |u| && AllFit(u[i].block[1..]) && u[i].block[0] == 0
    requires i + 1 == |u| || AllUnitsFit(u[i + 1..], START)
    ensures AllUnitsFit(u[i..], START)
  {
    assert u[i..][1..] == u[i + 1..] && u[i..][0] == u[i];
  }
}
