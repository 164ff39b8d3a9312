/**
 * The bit writer of the JPEG encoder: a 32-bit accumulator that spills whole bytes, each 0xFF
 * followed by a stuffed zero. Its partner is what a decoder does first, `Unstuff` and `Unpack`.
 */
module JpegBitWriter {
  import opened Bits

  function StuffByte(b: byte): seq<byte> {
    if b == 0xFF then [0xFF, 0x00] else [b]
  }

  function Stuff(bytes: seq<byte>): seq<byte> {
    if bytes == [] then [] else Stuff(bytes[..|bytes| - 1]) + StuffByte(bytes[|bytes| - 1])
  }

  /** The NEXTBYTE procedure of section F.2.2.5: drop the zero after 0xFF, stop at a marker. */
  function Unstuff(bytes: seq<byte>): seq<byte> {
    if bytes == [] then []
    else if bytes[0] != 0xFF then [bytes[0]] + Unstuff(bytes[1..])
    else if |bytes| > 1 && bytes[1] == 0x00 then [0xFF] + Unstuff(bytes[2..])
    else []
  }

  lemma UnstuffStuff(bytes: seq<byte>, marker: byte, rest: seq<byte>)
    requires marker != 0x00
    ensures Unstuff(Stuff(bytes) + ([0xFF, marker] + rest)) == bytes
  {
    UnstuffOnto(bytes, [0xFF, marker] + rest);
    assert bytes + [] == bytes;
  }

  lemma {:induction false} UnstuffOnto(bytes: seq<byte>, tail: seq<byte>)
    ensures Unstuff(Stuff(bytes) + tail) == bytes + Unstuff(tail)
    decreases |bytes|
  {
    if bytes == [] {
      assert Stuff(bytes) + tail == tail;
    } else {
      var n := |bytes| - 1;
      var last := StuffByte(bytes[n]);
      UnstuffOnto(bytes[..n], last + tail);
      assert Stuff(bytes) + tail == Stuff(bytes[..n]) + (last + tail);
      UnstuffOne(bytes[n], tail);
      assert bytes + Unstuff(tail) == bytes[..n] + ([bytes[n]] + Unstuff(tail));
    }
  }

  lemma UnstuffOne(b: byte, tail: seq<byte>)
    ensures Unstuff(StuffByte(b) + tail) == [b] + Unstuff(tail)
  {
    var last := StuffByte(b);
    assert (last + tail)[|last|..] == tail;
  }

  /** In stuffed data every 0xFF is followed by a zero: no marker can appear inside the scan. */
  lemma {:induction false} StuffedHasNoMarker(bytes: seq<byte>, i: nat)
    requires i < |Stuff(bytes)| && Stuff(bytes)[i] == 0xFF
    ensures i + 1 < |Stuff(bytes)| && Stuff(bytes)[i + 1] == 0x00
  {
    var head := Stuff(bytes[..|bytes| - 1]);
    if i < |head| {
      StuffedHasNoMarker(bytes[..|bytes| - 1], i);
    }
  }

  lemma StuffAppend(bytes: seq<byte>, b: byte)
    ensures Stuff(bytes + [b]) == Stuff(bytes) + StuffByte(b)
  {
    assert (bytes + [b])[..|bytes|] == bytes;
  }

  lemma AppendStuffed(base: seq<byte>, bytes: seq<byte>, b: byte)
    ensures Accounted(base, bytes + [b], base + Stuff(bytes) + [b] + (if b == 0xFF then [0x00] else []))
  {
    StuffAppend(bytes, b);
    var zero: seq<byte> := if b == 0xFF then [0x00] else [];
    assert StuffByte(b) == [b] + zero;
    ConcatAssociates(base, Stuff(bytes), [b] + zero);
    ConcatAssociates(base + Stuff(bytes), [b], zero);
  }

  lemma UnpackAppend(bytes: seq<byte>, b: byte)
    ensures Unpack(bytes + [b]) == Unpack(bytes) + ToBits(b, 8)
  {
    assert (bytes + [b])[..|bytes|] == bytes;
  }

  function Ones(n: nat): (s: seq<bool>)
    ensures |s| == n && forall i :: 0 <= i < n ==> s[i]
  {
    seq(n, i => true)
  }

  // ----- The writer

  class BitWriter {
    var buf: seq<byte>
    var bitbuf: nat
    var bitcnt: nat
    ghost var base: seq<byte>      // what was in the buffer before the scan
    ghost var bytes: seq<byte>     // bytes spilled since, before stuffing
    ghost var written: seq<bool>   // all the bits put so far

    ghost predicate Valid()
      reads this
    {
      bitcnt < 8 && Accounted(base, bytes, buf) && Held(written, bytes, bitbuf, bitcnt)
    }

    constructor (header: seq<byte>)
      ensures Valid() && base == buf == header && written == []
    {
      buf, bitbuf, bitcnt := header, 0, 0;
      base, bytes, written := header, [], [];
    }

    /** Takes the top byte of the pending bits out of the accumulator. */
    method Spill()
      requires 8 <= bitcnt && Accounted(base, bytes, buf) && Held(written, bytes, bitbuf, bitcnt)
      modifies this`buf, this`bitcnt, this`bytes
      ensures bitcnt == old(bitcnt) - 8 && Accounted(base, bytes, buf) && Held(written, bytes, bitbuf, bitcnt)
    {
      var b := TopByte(bitbuf, bitcnt, bytes, written);
      Emit(b);
      bytes := bytes + [b];
      bitcnt := bitcnt - 8;
    }

    /** A byte, and the zero that a 0xFF needs behind it. */
    method Emit(b: byte)
      requires Accounted(base, bytes, buf)
      modifies this`buf
      ensures Accounted(base, bytes + [b], buf)
    {
      AppendStuffed(base, bytes, b);
      buf := buf + [b];
      if b == 0xFF {
        buf := buf + [0x00];
      }
    }

    /** `bw_put_bits`: the code's bits follow everything put before. */
    method PutBits(code: nat, len: nat)
      requires Valid() && len <= 16 && code < Pow2(len)
      modifies this
      ensures Valid() && base == old(base)
      ensures written == old(written) + ToBits(code, len)
    {
      bitbuf := ShiftIn(bitbuf, code, len, bitcnt, bytes, written);
      bitcnt := bitcnt + len;
      written := written + ToBits(code, len);
      while bitcnt >= 8
        invariant Accounted(base, bytes, buf) && Held(written, bytes, bitbuf, bitcnt)
        invariant base == old(base) && written == old(written) + ToBits(code, len)
      {
        Spill();
      }
    }

    /** `bw_flush_bits`: the scan ends on a byte boundary, padded with ones (section F.1.2.3). */
    method FlushBits()
      requires Valid()
      modifies this
      ensures base == old(base) && buf == base + Stuff(bytes)
      ensures exists k :: 0 <= k < 8 && Unpack(bytes) == old(written) + Ones(k)
    {
      if bitcnt > 0 {
        SevenOnes();
        SmallPowers();
        PutBits(0x7F, 7);
        CutOnes(Unpack(bytes), ToBits(bitbuf, bitcnt), old(written));
        bitcnt := 0;
      } else {
        assert Unpack(bytes) == written + Ones(0);
      }
    }
  }

  /** The buffer is what was there before, then the spilled bytes, stuffed. */
  ghost predicate Accounted(base: seq<byte>, bytes: seq<byte>, buf: seq<byte>) {
    buf == base + Stuff(bytes)
  }

  /** The spilled bytes and the low bits of the accumulator are the bits put so far. */
  ghost predicate Held(written: seq<bool>, bytes: seq<byte>, bitbuf: nat, bitcnt: nat) {
    written == Unpack(bytes) + ToBits(bitbuf, bitcnt)
  }

  /** `bitbuf << len | code` in 32 bits; the code has no more than `len` bits. */
  method ShiftIn(bitbuf: nat, code: nat, len: nat, ghost bitcnt: nat, ghost bytes: seq<byte>, ghost written: seq<bool>)
    returns (r: nat)
    requires bitcnt < 8 && len <= 16 && code < Pow2(len) && Held(written, bytes, bitbuf, bitcnt)
    ensures r < 0x1_0000_0000
    ensures Held(written + ToBits(code, len), bytes, r, bitcnt + len)
  {
    ShiftedBits(bitbuf, code, bitcnt, len);
    HeldLonger(written, bytes, ToBits(bitbuf, bitcnt), ToBits(code, len));
    r := InWord(Shifted(bitbuf, code, len), bitcnt + len);
  }

  function Shifted(bitbuf: nat, code: nat, len: nat): nat {
    bitbuf * Pow2(len) + code
  }

  lemma ShiftedBits(bitbuf: nat, code: nat, bitcnt: nat, len: nat)
    requires code < Pow2(len)
    ensures ToBits(Shifted(bitbuf, code, len), bitcnt + len) == ToBits(bitbuf, bitcnt) + ToBits(code, len)
  {
    BitsSplit(bitbuf, code, bitcnt, len);
  }

  /** What 32 bits keep of `wide`, its last `n` bits among them. */
  method InWord(wide: nat, ghost n: nat) returns (r: nat)
    requires n <= 32
    ensures r < 0x1_0000_0000 && ToBits(r, n) == ToBits(wide, n)
  {
    r := wide % 0x1_0000_0000;
    Low32(wide, n);
  }

  lemma HeldLonger(written: seq<bool>, bytes: seq<byte>, pending: seq<bool>, more: seq<bool>)
    requires written == Unpack(bytes) + pending
    ensures written + more == Unpack(bytes) + (pending + more)
  {
  }

  /** `(uint8_t)(bitbuf >> (bitcnt - 8))`: the oldest eight of the pending bits. */
  method TopByte(bitbuf: nat, bitcnt: nat, ghost bytes: seq<byte>, ghost written: seq<bool>) returns (b: byte)
    requires 8 <= bitcnt && Held(written, bytes, bitbuf, bitcnt)
    ensures Held(written, bytes + [b], bitbuf, bitcnt - 8)
  {
    b := ShiftRight(bitbuf, bitcnt - 8) % 0x100;
    SpillKeepsBits(bytes, bitbuf, bitcnt, b);
  }

  lemma SpillKeepsBits(bytes: seq<byte>, bitbuf: nat, bitcnt: nat, b: byte)
    requires 8 <= bitcnt && b == ShiftRight(bitbuf, bitcnt - 8) % 0x100
    ensures Unpack(bytes + [b]) + ToBits(bitbuf, bitcnt - 8) == Unpack(bytes) + ToBits(bitbuf, bitcnt)
  {
    HighBits(bitbuf, 8, bitcnt - 8);
    LowByte(ShiftRight(bitbuf, bitcnt - 8));
    UnpackAppend(bytes, b);
    ConcatAssociates(Unpack(bytes), ToBits(b, 8), ToBits(bitbuf, bitcnt - 8));
  }

  lemma ConcatAssociates<T>(x: seq<T>, y: seq<T>, z: seq<T>)
    ensures x + y + z == x + (y + z)
  {}

  lemma {:induction false} ValueOfOnes(n: nat)
    ensures Value(Ones(n)) == Pow2(n) - 1
  {
    if n != 0 {
      assert Ones(n)[..n - 1] == Ones(n - 1);
      ValueOfOnes(n - 1);
    }
  }

  lemma SevenOnes()
    ensures ToBits(0x7F, 7) == Ones(7)
  {
    BitsOfValue(Ones(7));
    ValueOfOnes(7);
    SmallPowers();
  }

  /** Of seven appended ones, those left in the accumulator can be dropped. */
  lemma CutOnes(done: seq<bool>, left: seq<bool>, before: seq<bool>)
    requires done + left == before + Ones(7) && |left| < 8
    ensures exists k :: 0 <= k < 8 && done == before + Ones(k)
  {
    var k := 7 - |left|;
    assert done == (done + left)[..|done|];
    assert done == before + Ones(k);
  }
}
