/**
 * Canonical Huffman codes as ITU-T T.81 Annex C builds them, and the DECODE procedure of its
 * section F.2.2.3 as the partner that must undo them.
 *
 * `counts[L]` is the number of codes of length `L`, for `L` from 1 to 16; `counts[0]` is unused.
 */
module JpegHuffman {
  import opened Arithmetic
  import opened Bits
  import opened Options

  type Counts = c: seq<nat> | |c| == 17 witness [0, 0, 0, 0, 0, 0, 0, 0, 0, 0, 0, 0, 0, 0, 0, 0, 0]

  datatype Table = Table(counts: Counts, vals: seq<byte>)

  /** The code the construction has reached when it turns to length `L`. */
  function FirstCode(counts: Counts, L: nat): nat
    requires 1 <= L <= 17
  {
    if L == 1 then 0 else 2 * (FirstCode(counts, L - 1) + counts[L - 1])
  }

  /** How many codes are shorter than `L`. */
  function FirstIndex(counts: Counts, L: nat): nat
    requires 1 <= L <= 17
  {
    if L == 1 then 0 else FirstIndex(counts, L - 1) + counts[L - 1]
  }

  /** How many codes there are. */
  function Total(counts: Counts): nat {
    FirstIndex(counts, |counts|)
  }

  function KraftSum(counts: Counts, L: nat): nat
    requires L <= 16
  {
    if L == 0 then 0 else KraftSum(counts, L - 1) + counts[L] * Pow2(16 - L)
  }

  /** Kraft's inequality, scaled by 2^16. */
  predicate Kraft(counts: Counts) {
    KraftSum(counts, |counts| - 1) <= Pow2(|counts| - 1)
  }

  /** The symbol list may be longer than the codes, as C arrays can be, and may repeat a symbol. */
  predicate ValidTable(t: Table) {
    Kraft(t.counts) && Total(t.counts) <= |t.vals|
  }

  /** The symbols that have a code. */
  function Symbols(t: Table): set<byte>
    requires ValidTable(t)
  {
    set k | 0 <= k < Total(t.counts) :: t.vals[k]
  }

  // ----- Kraft's inequality keeps every code within its length

  lemma {:induction false} UsedSpace(counts: Counts, L: nat)
    requires 1 <= L <= 16
    ensures (FirstCode(counts, L) + counts[L]) * Pow2(16 - L) == KraftSum(counts, L)
  {
    var own := counts[L] * Pow2(16 - L);
    if L == 1 {
      assert KraftSum(counts, 1) == KraftSum(counts, 0) + own;
    } else {
      UsedSpace(counts, L - 1);
      var before := FirstCode(counts, L - 1) + counts[L - 1];
      Distribute(2 * before, counts[L], Pow2(16 - L));
      Regroup(before, Pow2(16 - L));
      assert Pow2(17 - L) == 2 * Pow2(16 - L);
    }
  }

  lemma Regroup(a: nat, p: nat)
    ensures (2 * a) * p == a * (2 * p)
  {}

  lemma {:induction false} KraftSumGrows(counts: Counts, L: nat)
    requires L <= 16
    ensures KraftSum(counts, L) <= KraftSum(counts, |counts| - 1)
    decreases 16 - L
  {
    if L < 16 {
      KraftSumGrows(counts, L + 1);
    }
  }

  lemma CodesFit(counts: Counts, L: nat)
    requires Kraft(counts) && 1 <= L <= 16
    ensures FirstCode(counts, L) + counts[L] <= Pow2(L)
  {
    UsedSpace(counts, L);
    KraftSumGrows(counts, L);
    PowAdd(L, 16 - L);
    CancelFactor(FirstCode(counts, L) + counts[L], Pow2(L), Pow2(16 - L));
  }

  lemma CancelFactor(a: nat, b: nat, p: nat)
    requires p > 0 && a * p <= b * p
    ensures a <= b
  {}

  // ----- The code of the k-th symbol

  /** The length whose block of codes holds index `k`. */
  function LengthOf(counts: Counts, k: nat): (L: nat)
    requires k < Total(counts)
    ensures 1 <= L <= 16
    ensures FirstIndex(counts, L) <= k < FirstIndex(counts, L + 1)
  {
    SearchLength(counts, k, 16)
  }

  function SearchLength(counts: Counts, k: nat, L: nat): (r: nat)
    requires 1 <= L <= 16 && k < FirstIndex(counts, L + 1)
    ensures 1 <= r <= L
    ensures FirstIndex(counts, r) <= k < FirstIndex(counts, r + 1)
  {
    if FirstIndex(counts, L) <= k then L else SearchLength(counts, k, L - 1)
  }

  function CodeOf(counts: Counts, k: nat): nat
    requires k < Total(counts)
  {
    var L := LengthOf(counts, k);
    FirstCode(counts, L) + k - FirstIndex(counts, L)
  }

  function CodeBits(counts: Counts, k: nat): seq<bool>
    requires k < Total(counts)
  {
    ToBits(CodeOf(counts, k), LengthOf(counts, k))
  }

  // ----- DECODE

  datatype Decoded = Decoded(index: nat, rest: seq<bool>)

  /** The largest code of length `L`, or -1 when there is none. */
  function MaxCode(counts: Counts, L: nat): int
    requires 1 <= L <= 16
  {
    if counts[L] == 0 then -1 else FirstCode(counts, L) + counts[L] - 1
  }

  /** The loop of figure F.16, with `code` made of the `L` bits read so far. */
  function Search(counts: Counts, L: nat, code: nat, stream: seq<bool>): Option<Decoded>
    requires 1 <= L <= 16
    decreases 16 - L
  {
    if code <= MaxCode(counts, L) then
      var j := FirstIndex(counts, L) + code - FirstCode(counts, L);
      if 0 <= j then Some(Decoded(j, stream)) else None
    else if L == 16 || stream == [] then None
    else Search(counts, L + 1, 2 * code + (if stream[0] then 1 else 0), stream[1..])
  }

  /** The procedure of figure F.16 from the first bit on. */
  function DecodeIndex(counts: Counts, stream: seq<bool>): Option<Decoded> {
    if stream == [] then None else Search(counts, |stream[..1]|, if stream[0] then 1 else 0, stream[1..])
  }

  /** Codes of length `L` start at or above the space that length `i` and shorter have used. */
  lemma {:induction false} LongerCodesAreAbove(counts: Counts, i: nat, L: nat)
    requires 1 <= i < L <= 16
    ensures (FirstCode(counts, i) + counts[i]) * Pow2(L - i) <= FirstCode(counts, L)
    decreases L
  {
    if i + 1 < L {
      LongerCodesAreAbove(counts, i, L - 1);
      Doubled(FirstCode(counts, i) + counts[i], Pow2(L - 1 - i), FirstCode(counts, L - 1), counts[L - 1]);
      assert Pow2(L - i) == 2 * Pow2(L - 1 - i);
    } else {
      assert Pow2(1) == 2 * Pow2(0) == 2;
    }
  }

  lemma Doubled(x: nat, p: nat, first: nat, count: nat)
    requires x * p <= first
    ensures x * (2 * p) <= 2 * (first + count)
  {
    assert x * (2 * p) == 2 * (x * p);
  }

  /** Reading the code of `k` bit by bit, the procedure passes every shorter length and stops at `k`. */
  lemma {:induction false} SearchFinds(counts: Counts, L: nat, k: nat, i: nat, high: nat, low: nat, rest: seq<bool>)
    requires 1 <= i <= L <= 16 && low < Pow2(L - i)
    requires HasCode(counts, L, k, high * Pow2(L - i) + low)
    ensures Search(counts, i, high, ToBits(low, L - i) + rest) == Some(Decoded(k, rest))
    decreases L - i
  {
    var n := L - i;
    if n == 0 {
      assert Pow2(0) == 1;
      SearchStops(counts, L, k, high, rest);
      assert ToBits(low, n) + rest == rest;
    } else {
      ShorterAreBelow(counts, L, k, i, high, low);
      var bit, low' := OneBitOn(high, low, n);
      SearchFinds(counts, L, k, i + 1, 2 * high + bit, low', rest);
      FirstBit(bit == 1, ToBits(low', n - 1), rest);
      SearchPasses(counts, i, high, bit, ToBits(low, n) + rest);
    }
  }

  /** The first of the remaining bits goes over to the bits already read. */
  lemma OneBitOn(high: nat, low: nat, n: nat) returns (bit: nat, low': nat)
    requires n > 0 && low < Pow2(n)
    ensures bit < 2 && low' < Pow2(n - 1) && high * Pow2(n) + low == (2 * high + bit) * Pow2(n - 1) + low'
    ensures ToBits(low, n) == [bit == 1] + ToBits(low', n - 1)
  {
    bit, low' := TopBit(low, n);
    NextHigh(high, bit, low', Pow2(n - 1));
    assert Pow2(n) == 2 * Pow2(n - 1);
  }

  /** Symbol `k` has `code`, of length `L`. */
  predicate HasCode(counts: Counts, L: nat, k: nat, code: nat)
    requires 1 <= L <= 16
  {
    FirstIndex(counts, L) <= k < FirstIndex(counts, L + 1) && code == FirstCode(counts, L) + k - FirstIndex(counts, L)
  }

  lemma SearchStops(counts: Counts, L: nat, k: nat, code: nat, rest: seq<bool>)
    requires 1 <= L <= 16 && HasCode(counts, L, k, code)
    ensures Search(counts, L, code, rest) == Some(Decoded(k, rest))
  {
    assert counts[L] == FirstIndex(counts, L + 1) - FirstIndex(counts, L);
  }

  lemma ShorterAreBelow(counts: Counts, L: nat, k: nat, i: nat, high: nat, low: nat)
    requires 1 <= i < L <= 16 && low < Pow2(L - i)
    requires HasCode(counts, L, k, high * Pow2(L - i) + low)
    ensures MaxCode(counts, i) < high
  {
    LongerCodesAreAbove(counts, i, L);
    AboveMeansAbove(FirstCode(counts, i) + counts[i], high, low, Pow2(L - i));
  }

  lemma SearchPasses(counts: Counts, i: nat, high: nat, bit: nat, stream: seq<bool>)
    requires 1 <= i < 16 && MaxCode(counts, i) < high && bit < 2 && stream != [] && stream[0] == (bit == 1)
    ensures Search(counts, i, high, stream) == Search(counts, i + 1, 2 * high + bit, stream[1..])
  {
  }

  lemma FirstBit(bit: bool, bits: seq<bool>, rest: seq<bool>)
    ensures ([bit] + bits + rest)[0] == bit && ([bit] + bits + rest)[1..] == bits + rest
  {
  }

  lemma AboveMeansAbove(used: nat, high: nat, low: nat, p: nat)
    requires used * p <= high * p + low && low < p
    ensures used <= high
  {
    if used > high {
      MulMonotone(high + 1, used, p);
    }
  }

  lemma NextHigh(high: nat, bit: nat, low: nat, p: nat)
    ensures high * (2 * p) + (bit * p + low) == (2 * high + bit) * p + low
  {}

  /** The first of `n` bits, and the value of the others. */
  lemma TopBit(v: nat, n: nat) returns (bit: nat, rest: nat)
    requires n > 0 && v < Pow2(n)
    ensures bit < 2 && rest < Pow2(n - 1) && v == bit * Pow2(n - 1) + rest
    ensures ToBits(v, n) == [bit == 1] + ToBits(rest, n - 1)
  {
    var p := Pow2(n - 1);
    bit := if v >= p then 1 else 0;
    rest := v - bit * p;
    BitsSplit(bit, rest, 1, n - 1);
    assert ToBits(bit, 1) == ToBits(bit / 2, 0) + [bit % 2 == 1] == [bit == 1];
  }

  lemma CodeFits(counts: Counts, k: nat)
    requires Kraft(counts) && k < Total(counts)
    ensures CodeOf(counts, k) < Pow2(LengthOf(counts, k)) <= 0x1_0000
  {
    var L := LengthOf(counts, k);
    CodesFit(counts, L);
    assert counts[L] == FirstIndex(counts, L + 1) - FirstIndex(counts, L);
    PowMonotone(L, 16);
    SmallPowers();
  }

  lemma {:induction false} PowMonotone(m: nat, n: nat)
    requires m <= n
    ensures Pow2(m) <= Pow2(n)
  {
    if m < n {
      PowMonotone(m, n - 1);
    }
  }

  /** DECODE undoes the construction: on the code of `k`, whatever follows it, it returns `k`. */
  lemma DecodeInvertsCode(counts: Counts, k: nat, rest: seq<bool>)
    requires Kraft(counts) && k < Total(counts)
    ensures DecodeIndex(counts, CodeBits(counts, k) + rest) == Some(Decoded(k, rest))
  {
    CodeFits(counts, k);
    DecodeReads(counts, LengthOf(counts, k), k, CodeOf(counts, k), rest);
  }

  lemma DecodeReads(counts: Counts, L: nat, k: nat, code: nat, rest: seq<bool>)
    requires 1 <= L <= 16 && HasCode(counts, L, k, code) && code < Pow2(L)
    ensures DecodeIndex(counts, ToBits(code, L) + rest) == Some(Decoded(k, rest))
  {
    var bit, low := TopBit(code, L);
    var i := 1;
    FirstBit(bit == 1, ToBits(low, L - 1), rest);
    DecodeStarts(counts, i, bit, ToBits(code, L) + rest);
    SearchFinds(counts, L, k, i, bit, low, rest);
  }

  lemma DecodeStarts(counts: Counts, i: nat, bit: nat, stream: seq<bool>)
    requires i == 1 && bit < 2 && stream != [] && stream[0] == (bit == 1)
    ensures DecodeIndex(counts, stream) == Search(counts, i, bit, stream[1..])
  {
  }

  /** Each code fits its length, and none is a prefix of another. */
  lemma CodesArePrefixFree(counts: Counts, j: nat, k: nat)
    requires Kraft(counts) && j < Total(counts) && k < Total(counts) && j != k
    ensures CodeOf(counts, k) < Pow2(LengthOf(counts, k))
    ensures !(CodeBits(counts, j) <= CodeBits(counts, k))
  {
    CodeFits(counts, k);
    var x, y := CodeBits(counts, j), CodeBits(counts, k);
    if x <= y {
      assert y == x + y[|x|..] && y == y + [];
      DecodeInvertsCode(counts, j, y[|x|..]);
      DecodeInvertsCode(counts, k, []);
    }
  }

  // ----- The lookup table of the encoder

  datatype HuffEntry = HuffEntry(code: word, len: nat)

  /** The entry of the `k`-th code; codes of valid tables fit the 16 bits they are stored in. */
  function EntryOf(counts: Counts, k: nat): HuffEntry
    requires k < Total(counts)
  {
    HuffEntry(Wrap(CodeOf(counts, k)), LengthOf(counts, k))
  }

  /** A symbol's entry after the first `k` were filled in: the last one written, or zero bits. */
  function EntryAt(t: Table, k: nat, sym: byte): HuffEntry
    requires k <= Total(t.counts) <= |t.vals|
  {
    if k == 0 then HuffEntry(0, 0)
    else if t.vals[k - 1] == sym then EntryOf(t.counts, k - 1)
    else EntryAt(t, k - 1, sym)
  }

  function Entry(t: Table, sym: byte): HuffEntry
    requires ValidTable(t)
  {
    EntryAt(t, Total(t.counts), sym)
  }

  lemma {:induction false} EntryFound(t: Table, k: nat, sym: byte) returns (j: nat)
    requires k <= Total(t.counts) <= |t.vals| && sym in t.vals[..k]
    ensures j < k && t.vals[j] == sym && EntryAt(t, k, sym) == EntryOf(t.counts, j)
  {
    if t.vals[k - 1] == sym {
      j := k - 1;
    } else {
      assert t.vals[..k] == t.vals[..k - 1] + [t.vals[k - 1]];
      j := EntryFound(t, k - 1, sym);
    }
  }

  lemma {:induction false} EntryMissing(t: Table, k: nat, sym: byte)
    requires k <= Total(t.counts) <= |t.vals| && sym !in t.vals[..k]
    ensures EntryAt(t, k, sym) == HuffEntry(0, 0)
  {
    if k != 0 {
      assert t.vals[..k] == t.vals[..k - 1] + [t.vals[k - 1]];
      EntryMissing(t, k - 1, sym);
    }
  }

  function SymbolBits(t: Table, sym: byte): seq<bool>
    requires ValidTable(t)
  {
    ToBits(Entry(t, sym).code, Entry(t, sym).len)
  }

  datatype DecodedSymbol = DecodedSymbol(sym: byte, rest: seq<bool>)

  function DecodeSymbol(t: Table, stream: seq<bool>): Option<DecodedSymbol>
    requires ValidTable(t)
  {
    match DecodeIndex(t.counts, stream)
    case None => None
    case Some(d) =>
      if d.index < Total(t.counts) then Some(DecodedSymbol(t.vals[d.index], d.rest)) else None
  }

  /** Every symbol with a code is read back, whatever follows; a repeated symbol has several codes. */
  lemma DecodeInvertsSymbol(t: Table, sym: byte, rest: seq<bool>)
    requires ValidTable(t) && sym in Symbols(t)
    ensures DecodeSymbol(t, SymbolBits(t, sym) + rest) == Some(DecodedSymbol(sym, rest))
  {
    var j := EntryFound(t, Total(t.counts), sym);
    CodeFits(t.counts, j);
    assert SymbolBits(t, sym) == CodeBits(t.counts, j);
    DecodeInvertsCode(t.counts, j, rest);
  }

  lemma DecodedSymbolHasCode(t: Table, stream: seq<bool>)
    requires ValidTable(t) && DecodeSymbol(t, stream).Some?
    ensures DecodeSymbol(t, stream).value.sym in Symbols(t)
  {
    var k := DecodeIndex(t.counts, stream).value.index;
    assert 0 <= k < Total(t.counts) && t.vals[k] in Symbols(t);
  }

  /** Codes of different symbols: each fits its length and neither is a prefix of the other. */
  lemma SymbolsArePrefixFree(t: Table, x: byte, y: byte)
    requires ValidTable(t) && x in Symbols(t) && y in Symbols(t) && x != y
    ensures Entry(t, x).code < Pow2(Entry(t, x).len) && 1 <= Entry(t, x).len <= 16
    ensures !(SymbolBits(t, x) <= SymbolBits(t, y))
  {
    var j := EntryFound(t, Total(t.counts), x);
    var k := EntryFound(t, Total(t.counts), y);
    CodeFits(t.counts, j);
    CodeFits(t.counts, k);
    CodesArePrefixFree(t.counts, j, k);
  }

  /** `build_hufftable`: the running 16-bit code counter fills each symbol's entry. */
  method BuildHuffTable(t: Table) returns (ht: array<HuffEntry>)
    requires ValidTable(t)
    ensures fresh(ht) && ht.Length == 256
    ensures forall sym: byte :: ht[sym] == Entry(t, sym)
  {
    ht := new HuffEntry[256](i => HuffEntry(0, 0));
    FillAll(t, ht);
    AllFilled(t, ht[..]);
  }

  lemma AllFilled(t: Table, ht: seq<HuffEntry>)
    requires ValidTable(t) && ht == Filled(t, Total(t.counts))
    ensures forall sym: byte :: ht[sym] == Entry(t, sym)
  {
    forall sym: byte
      ensures ht[sym] == Entry(t, sym)
    {
      FilledAt(t, Total(t.counts), sym);
    }
  }

  /** The outer loop: the lengths one by one. */
  method FillAll(t: Table, ht: array<HuffEntry>)
    requires Total(t.counts) <= |t.vals| && ht.Length == 256 && ht[..] == Filled(t, 0)
    modifies ht
    ensures ht[..] == Filled(t, Total(t.counts))
  {
    var code: word := 0;
    var k := 0;
    var i := 1;
    while i <= 16
      invariant 1 <= i <= 17
      invariant k == FirstIndex(t.counts, i) <= Total(t.counts)
      invariant code == Wrap(FirstCode(t.counts, i))
      invariant ht[..] == Filled(t, k)
    {
      code, k := FillLength(t, ht, i, code, k);
      WrapDouble(FirstCode(t.counts, i) + t.counts[i]);
      code := Wrap(2 * code);
      i := i + 1;
    }
  }

  /** The inner loop: the symbols whose codes have length `i`. */
  method FillLength(t: Table, ht: array<HuffEntry>, i: nat, code0: word, k0: nat) returns (code: word, k: nat)
    requires Total(t.counts) <= |t.vals| && ht.Length == 256 && 1 <= i <= 16
    requires k0 == FirstIndex(t.counts, i) <= Total(t.counts) && code0 == Wrap(FirstCode(t.counts, i))
    requires ht[..] == Filled(t, k0)
    modifies ht
    ensures k == FirstIndex(t.counts, i + 1) <= Total(t.counts)
    ensures code == Wrap(FirstCode(t.counts, i) + t.counts[i])
    ensures ht[..] == Filled(t, k)
  {
    code, k := code0, k0;
    IndexGrows(t.counts, i + 1);
    var j := 0;
    while j < t.counts[i]
      invariant 0 <= j <= t.counts[i]
      invariant k == k0 + j <= Total(t.counts)
      invariant code == Wrap(FirstCode(t.counts, i) + j)
      invariant ht[..] == Filled(t, k)
    {
      code := FillOne(t, ht, i, j, code, k);
      k := k + 1;
      j := j + 1;
    }
    assert j == t.counts[i];
  }

  /** The `j`-th code of a length goes to its value, and the next one is a step further. */
  method FillOne(t: Table, ht: array<HuffEntry>, i: nat, j: nat, code0: word, k: nat) returns (code: word)
    requires Total(t.counts) <= |t.vals| && ht.Length == 256 && 1 <= i <= 16 && j < t.counts[i]
    requires k == FirstIndex(t.counts, i) + j < Total(t.counts) && code0 == Wrap(FirstCode(t.counts, i) + j)
    requires ht[..] == Filled(t, k)
    modifies ht
    ensures code == Wrap(FirstCode(t.counts, i) + (j + 1)) && ht[..] == Filled(t, k + 1)
  {
    AtIndex(t.counts, i, j);
    StoreEntry(t, ht, k, HuffEntry(code0, i));
    WrapNext(FirstCode(t.counts, i) + j);
    code := Wrap(code0 + 1);
  }

  method StoreEntry(t: Table, ht: array<HuffEntry>, k: nat, e: HuffEntry)
    requires k < Total(t.counts) <= |t.vals| && ht.Length == 256
    requires ht[..] == Filled(t, k) && e == EntryOf(t.counts, k)
    modifies ht
    ensures ht[..] == Filled(t, k + 1)
  {
    ht[t.vals[k]] := e;
    assert ht[..] == Filled(t, k)[t.vals[k] := e];
  }

  /** A value kept in a `uint16_t`. */
  function Wrap(x: nat): word {
    if x < 0x1_0000 then x else Wrap(x - 0x1_0000)
  }

  lemma {:induction false} WrapNext(x: nat)
    ensures Wrap(Wrap(x) + 1) == Wrap(x + 1)
  {
    if x >= 0x1_0000 {
      WrapNext(x - 0x1_0000);
    }
  }

  lemma {:induction false} WrapDouble(x: nat)
    ensures Wrap(2 * Wrap(x)) == Wrap(2 * x)
  {
    if x >= 0x1_0000 {
      WrapDouble(x - 0x1_0000);
      assert Wrap(2 * x) == Wrap(2 * x - 0x1_0000);
    }
  }

  /** The table after the first `k` symbols have been entered. */
  ghost function Filled(t: Table, k: nat): (ht: seq<HuffEntry>)
    requires k <= Total(t.counts) <= |t.vals|
    ensures |ht| == 256
  {
    if k == 0 then seq(256, i => HuffEntry(0, 0)) else Filled(t, k - 1)[t.vals[k - 1] := EntryOf(t.counts, k - 1)]
  }

  lemma {:induction false} FilledAt(t: Table, k: nat, sym: byte)
    requires k <= Total(t.counts) <= |t.vals|
    ensures Filled(t, k)[sym] == EntryAt(t, k, sym)
  {
    if k != 0 {
      FilledAt(t, k - 1, sym);
    }
  }

  lemma {:induction false} IndexGrows(counts: Counts, L: nat)
    requires 1 <= L <= 17
    ensures FirstIndex(counts, L) <= Total(counts)
    decreases 17 - L
  {
    if L < 17 {
      IndexGrows(counts, L + 1);
    }
  }

  lemma AtIndex(counts: Counts, L: nat, j: nat)
    requires 1 <= L <= 16 && j < counts[L]
    ensures var k := FirstIndex(counts, L) + j;
            && k < Total(counts)
            && LengthOf(counts, k) == L && CodeOf(counts, k) == FirstCode(counts, L) + j
  {
    var k := FirstIndex(counts, L) + j;
    IndexGrows(counts, L + 1);
    LengthUnique(counts, k, L);
  }

  lemma LengthUnique(counts: Counts, k: nat, L: nat)
    requires 1 <= L <= 16 && FirstIndex(counts, L) <= k < FirstIndex(counts, L + 1) <= Total(counts)
    ensures LengthOf(counts, k) == L
  {
    var r := LengthOf(counts, k);
    if r < L {
      IndexMonotone(counts, r + 1, L);
    } else if L < r {
      IndexMonotone(counts, L + 1, r);
    }
  }

  lemma {:induction false} IndexMonotone(counts: Counts, a: nat, b: nat)
    requires 1 <= a <= b <= 17
    ensures FirstIndex(counts, a) <= FirstIndex(counts, b)
    decreases b
  {
    if a < b {
      IndexMonotone(counts, a, b - 1);
    }
  }
}
