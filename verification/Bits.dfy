/** Naturals as big-endian bit strings: the common ground of the checksum and the entropy coder. */
module Bits {

  type byte = x: int | 0 <= x < 0x100
  type word = x: int | 0 <= x < 0x1_0000
  type uint32 = x: int | 0 <= x < 0x1_0000_0000

  function Pow2(n: nat): (r: nat)
    ensures r > 0
  {
    if n == 0 then 1 else 2 * Pow2(n - 1)
  }

  /** The low `n` bits of `v`, most significant first. */
  function ToBits(v: nat, n: nat): (bits: seq<bool>)
    ensures |bits| == n
  {
    if n == 0 then [] else ToBits(v / 2, n - 1) + [v % 2 == 1]
  }

  function Value(bits: seq<bool>): nat {
    if bits == [] then 0 else 2 * Value(bits[..|bits| - 1]) + (if bits[|bits| - 1] then 1 else 0)
  }

  /** The bits of a byte string, most significant first. */
  function Unpack(bytes: seq<byte>): (bits: seq<bool>)
    ensures |bits| == 8 * |bytes|
  {
    if bytes == [] then [] else Unpack(bytes[..|bytes| - 1]) + ToBits(bytes[|bytes| - 1], 8)
  }

  lemma {:induction false} ValueBound(bits: seq<bool>)
    ensures Value(bits) < Pow2(|bits|)
  {
    if bits != [] {
      ValueBound(bits[..|bits| - 1]);
    }
  }

  lemma {:induction false} ValueOfBits(v: nat, n: nat)
    requires v < Pow2(n)
    ensures Value(ToBits(v, n)) == v
  {
    if n != 0 {
      ValueOfBits(v / 2, n - 1);
      assert ToBits(v, n)[..n - 1] == ToBits(v / 2, n - 1);
    }
  }

  lemma {:induction false} BitsOfValue(bits: seq<bool>)
    ensures ToBits(Value(bits), |bits|) == bits
  {
    if bits != [] {
      BitsOfValue(bits[..|bits| - 1]);
      assert bits == bits[..|bits| - 1] + [bits[|bits| - 1]];
    }
  }

  lemma {:induction false} PowAdd(m: nat, n: nat)
    ensures Pow2(m + n) == Pow2(m) * Pow2(n)
  {
    if m != 0 {
      PowAdd(m - 1, n);
    }
  }

  lemma SmallPowers()
    ensures Pow2(7) == 0x80 && Pow2(8) == 0x100 && Pow2(16) == 0x1_0000
  {
    assert Pow2(2) == 4 && Pow2(4) == 16 && Pow2(6) == 64 && Pow2(8) == 256;
    PowAdd(8, 8);
  }

  /** A value made of a high and a low part is written as the one followed by the other. */
  lemma {:induction false} BitsSplit(high: nat, low: nat, m: nat, n: nat)
    requires low < Pow2(n)
    ensures ToBits(high * Pow2(n) + low, m + n) == ToBits(high, m) + ToBits(low, n)
  {
    if n == 0 {
      assert high * Pow2(0) + low == high;
      assert ToBits(high, m) + [] == ToBits(high, m);
    } else {
      var v := high * Pow2(n) + low;
      HalfOf(high, Pow2(n - 1), low);
      BitsSplit(high, low / 2, m, n - 1);
      assert ToBits(v, m + n) == ToBits(v / 2, m + n - 1) + [v % 2 == 1];
    }
  }

  lemma HalfOf(a: nat, p: nat, b: nat)
    ensures (a * (2 * p) + b) / 2 == a * p + b / 2
    ensures (a * (2 * p) + b) % 2 == b % 2
  {
    assert a * (2 * p) == 2 * (a * p);
  }

  /** Only the low `n` bits matter. */
  lemma {:induction false} BitsLow(high: nat, low: nat, n: nat)
    ensures ToBits(high * Pow2(n) + low, n) == ToBits(low, n)
  {
    if n != 0 {
      HalfOf(high, Pow2(n - 1), low);
      BitsLow(high, low / 2, n - 1);
    }
  }

  /** `v >> n`. */
  function ShiftRight(v: nat, n: nat): nat {
    if n == 0 then v else ShiftRight(v / 2, n - 1)
  }

  lemma {:induction false} HighBits(v: nat, m: nat, n: nat)
    ensures ToBits(v, m + n) == ToBits(ShiftRight(v, n), m) + ToBits(v, n)
  {
    if n == 0 {
      assert ToBits(v, m) + [] == ToBits(v, m);
    } else {
      HighBits(v / 2, m, n - 1);
      assert ToBits(v, m + n) == ToBits(v / 2, m + n - 1) + [v % 2 == 1];
    }
  }

  lemma LowByte(v: nat)
    ensures ToBits(v % 0x100, 8) == ToBits(v, 8)
  {
    SmallPowers();
    BitsLow(v / 0x100, v % 0x100, 8);
    assert v == v / 0x100 * 0x100 + v % 0x100;
  }

  lemma BitsLowOfWide(high: nat, low: nat, n: nat, wide: nat)
    requires n <= wide
    ensures ToBits(high * Pow2(wide) + low, n) == ToBits(low, n)
  {
    PowAdd(wide - n, n);
    MulAssociates(high, Pow2(wide - n), Pow2(n));
    BitsLow(high * Pow2(wide - n), low, n);
  }

  lemma MulAssociates(a: nat, b: nat, c: nat)
    ensures a * (b * c) == a * b * c
  {}

  lemma Pow2Of32()
    ensures Pow2(32) == 0x1_0000_0000
  {
    SmallPowers();
    PowAdd(16, 16);
  }

  /** Cutting a value to 32 bits keeps its low bits. */
  lemma Low32(v: nat, n: nat)
    requires n <= 32
    ensures ToBits(v % 0x1_0000_0000, n) == ToBits(v, n)
  {
    Pow2Of32();
    BitsLowOfWide(v / 0x1_0000_0000, v % 0x1_0000_0000, n, 32);
  }
}
