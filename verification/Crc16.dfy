/**
 * CRC-16 with polynomial 0x1021 and initial register 0xFFFF, the checksum shared by the host
 * link frames and by the CTFB factory record.
 *
 * The 16-bit register is held as its bits, most significant first, so that the C operators read
 * directly: `crc & 0x8000` is `c[0]`, `crc << 1` drops the first bit, `^` is pointwise.
 */
module Crc16 {
  import opened Bits

  type Register = c: seq<bool> | |c| == 16 witness Constant(16, false)

  const INIT: Register := Constant(16, true)

  /** 0x1021 has ones at weights 12, 5 and 0. */
  const POLY: Register :=
    [false, false, false, true, false, false, false, false, false, false, true, false, false, false, false, true]

  function Constant(n: nat, b: bool): (s: seq<bool>)
    ensures |s| == n && forall i :: 0 <= i < n ==> s[i] == b
  {
    seq(n, i => b)
  }

  /** The register whose only possible one is at index `p`. */
  function Unit(p: nat, b: bool): (c: Register)
    requires p < 16
    ensures forall i :: 0 <= i < 16 ==> c[i] == (i == p && b)
  {
    Constant(p, false) + [b] + Constant(15 - p, false)
  }

  function Xor(a: seq<bool>, b: seq<bool>): (c: seq<bool>)
    requires |a| == |b|
    ensures |c| == |a|
    ensures forall i :: 0 <= i < |a| ==> c[i] == (a[i] != b[i])
  {
    seq(|a|, i requires 0 <= i < |a| => a[i] != b[i])
  }

  /** One turn of the inner loop: shift left, then subtract the polynomial if a one fell out. */
  function BitStep(c: Register): Register {
    var shifted := c[1..] + [false];
    if c[0] then Xor(shifted, POLY) else shifted
  }

  function BitSteps(n: nat, c: Register): Register {
    if n == 0 then c else BitStep(BitSteps(n - 1, c))
  }

  /** `b << 8` as register bits. */
  function HighByte(b: byte): Register {
    Widen(ToBits(b, 8))
  }

  function ByteStep(c: Register, b: byte): Register {
    BitSteps(8, Xor(c, HighByte(b)))
  }

  function Run(c: Register, data: seq<byte>): Register {
    if data == [] then c else ByteStep(Run(c, data[..|data| - 1]), data[|data| - 1])
  }

  function RegisterValue(c: Register): word {
    ValueBound(c);
    SmallPowers();
    Value(c)
  }

  function Crc(data: seq<byte>): word
  {
    RegisterValue(Run(INIT, data))
  }

  /** The table-free loop of both C implementations. */
  method Compute(data: seq<byte>) returns (crc: word)
    ensures crc == Crc(data)
  {
    var c: Register := INIT;
    var i := 0;
    while i < |data|
      invariant 0 <= i <= |data|
      invariant c == Run(INIT, data[..i])
    {
      assert data[..i + 1][..i] == data[..i];
      c := Xor(c, HighByte(data[i]));
      ghost var c0 := c;
      var j := 0;
      while j < 8
        invariant 0 <= j <= 8
        invariant c == BitSteps(j, c0)
      {
        if c[0] {
          c := Xor(c[1..] + [false], POLY);
        } else {
          c := c[1..] + [false];
        }
        j := j + 1;
      }
      i := i + 1;
    }
    assert data[..i] == data;
    crc := RegisterValue(c);
  }

  // ----- The same register fed one message bit at a time

  function SerialStep(c: Register, b: bool): Register {
    var shifted := c[1..] + [false];
    if c[0] != b then Xor(shifted, POLY) else shifted
  }

  function Serial(c: Register, bits: seq<bool>): Register {
    if bits == [] then c else SerialStep(Serial(c, bits[..|bits| - 1]), bits[|bits| - 1])
  }

  function Widen(bits: seq<bool>): Register
    requires |bits| <= 16
  {
    bits + Constant(16 - |bits|, false)
  }

  /** Pushing `k` bits serially is xoring them in first and then shifting `k` times. */
  lemma {:induction false} SerialIsXorThenShift(c: Register, bits: seq<bool>)
    requires |bits| <= 16
    ensures Serial(c, bits) == BitSteps(|bits|, Xor(c, Widen(bits)))
  {
    if bits != [] {
      var k := |bits| - 1;
      var head, last := bits[..k], bits[k];
      SerialIsXorThenShift(c, head);
      BitStepsLinear(k, Xor(c, Widen(head)), Unit(k, last));
      ShiftUnit(k, k, last);
      assert Xor(Xor(c, Widen(head)), Unit(k, last)) == Xor(c, Widen(bits));
      LastBitIn(Serial(c, head), last);
    } else {
      assert Xor(c, Widen(bits)) == c;
    }
  }

  lemma LastBitIn(c: Register, b: bool)
    ensures SerialStep(c, b) == BitStep(Xor(c, Unit(0, b)))
  {}

  lemma {:induction false} ShiftUnit(n: nat, p: nat, b: bool)
    requires n <= p < 16
    ensures BitSteps(n, Unit(p, b)) == Unit(p - n, b)
  {
    if n != 0 {
      ShiftUnit(n - 1, p, b);
    }
  }

  /** The C loop computes the serial register: the bytewise form refines the bitwise one. */
  lemma {:induction false} BytewiseIsSerial(c: Register, data: seq<byte>)
    ensures Run(c, data) == Serial(c, Unpack(data))
  {
    if data != [] {
      var head, b := data[..|data| - 1], data[|data| - 1];
      BytewiseIsSerial(c, head);
      SerialConcat(c, Unpack(head), ToBits(b, 8));
      SerialIsXorThenShift(Run(c, head), ToBits(b, 8));
    }
  }

  lemma {:induction false} SerialConcat(c: Register, x: seq<bool>, y: seq<bool>)
    ensures Serial(c, x + y) == Serial(Serial(c, x), y)
  {
    if y == [] {
      assert x + y == x;
    } else {
      var head := y[..|y| - 1];
      assert (x + y)[..|x + y| - 1] == x + head;
      SerialConcat(c, x, head);
    }
  }

  // ----- Linearity

  lemma BitStepLinear(a: Register, b: Register)
    ensures BitStep(Xor(a, b)) == Xor(BitStep(a), BitStep(b))
  {}

  lemma {:induction false} BitStepsLinear(n: nat, a: Register, b: Register)
    ensures BitSteps(n, Xor(a, b)) == Xor(BitSteps(n, a), BitSteps(n, b))
  {
    if n != 0 {
      BitStepsLinear(n - 1, a, b);
      BitStepLinear(BitSteps(n - 1, a), BitSteps(n - 1, b));
    }
  }

  lemma SerialStepLinear(a: Register, x: bool, b: Register, y: bool)
    ensures SerialStep(Xor(a, b), x != y) == Xor(SerialStep(a, x), SerialStep(b, y))
  {}

  /** The checksum is affine: what two messages do to the register differs by what their difference does. */
  lemma {:induction false} SerialLinear(a: Register, x: seq<bool>, b: Register, y: seq<bool>)
    requires |x| == |y|
    ensures Serial(Xor(a, b), Xor(x, y)) == Xor(Serial(a, x), Serial(b, y))
  {
    if x != [] {
      var n := |x| - 1;
      SerialLinear(a, x[..n], b, y[..n]);
      assert Xor(x, y)[..n] == Xor(x[..n], y[..n]);
      SerialStepLinear(Serial(a, x[..n]), x[n], Serial(b, y[..n]), y[n]);
    }
  }

  // ----- Which corruptions are detected

  ghost predicate AllFalse(s: seq<bool>) {
    forall i :: 0 <= i < |s| ==> !s[i]
  }

  /**
   * Running the register backwards: if pushing `d` leaves a register that is zero from index `k`
   * on, then before the push it held `d` itself, followed by the first `k` bits of the result.
   */
  lemma {:induction false} Backwards(c: Register, d: seq<bool>, k: nat)
    requires |d| + k <= 16
    requires AllFalse(Serial(c, d)[k..])
    ensures c == Widen(d + Serial(c, d)[..k])
  {
    if d != [] {
      var n := |d| - 1;
      var before, after := Serial(c, d[..n]), Serial(c, d);
      UndoSerialStep(before, d[n], k);
      Backwards(c, d[..n], k + 1);
      assert d[..n] + before[..k + 1] == d + after[..k];
    }
  }

  lemma UndoSerialStep(c: Register, b: bool, k: nat)
    requires k < 16
    requires AllFalse(SerialStep(c, b)[k..])
    ensures c[0] == b
    ensures AllFalse(c[k + 1..])
    ensures c[1..k + 1] == SerialStep(c, b)[..k]
  {
    assert SerialStep(c, b)[15] == (c[0] != b);
    assert SerialStep(c, b)[k..][15 - k] == SerialStep(c, b)[15];
    forall i | k < i < 16
      ensures !c[i]
    {
      assert SerialStep(c, b)[k..][i - 1 - k] == c[i];
    }
  }

  /** A register that is not zero stays so while equal message bits are pushed. */
  lemma {:induction false} NonzeroStays(c: Register, n: nat)
    requires !AllFalse(c)
    ensures !AllFalse(Serial(c, Constant(n, false)))
  {
    if n != 0 {
      assert Constant(n, false)[..n - 1] == Constant(n - 1, false);
      NonzeroStays(c, n - 1);
      var before := Serial(c, Constant(n - 1, false));
      if AllFalse(SerialStep(before, false)) {
        UndoSerialStep(before, false, 0);
        assert AllFalse(before);
      }
    }
  }

  /** Two equal-length messages collide exactly when their difference runs a zero register to zero. */
  lemma {:induction false} CollisionIffDifferenceVanishes(x: seq<byte>, y: seq<byte>)
    requires |x| == |y|
    ensures Crc(x) == Crc(y) <==> AllFalse(Serial(Constant(16, false), Xor(Unpack(x), Unpack(y))))
  {
    var rx, ry := Run(INIT, x), Run(INIT, y);
    BytewiseIsSerial(INIT, x);
    BytewiseIsSerial(INIT, y);
    SerialLinear(INIT, Unpack(x), INIT, Unpack(y));
    assert Xor(INIT, INIT) == Constant(16, false);
    BitsOfValue(rx);
    BitsOfValue(ry);
    assert AllFalse(Xor(rx, ry)) <==> rx == ry by {
      assert forall i :: 0 <= i < 16 ==> (Xor(rx, ry)[i] <==> rx[i] != ry[i]);
    }
  }

  lemma {:induction false} ZeroStays(n: nat)
    ensures Serial(Constant(16, false), Constant(n, false)) == Constant(16, false)
  {
    if n != 0 {
      assert Constant(n, false)[..n - 1] == Constant(n - 1, false);
      ZeroStays(n - 1);
    }
  }

  lemma {:induction false} UnpackInjective(x: seq<byte>, y: seq<byte>)
    requires Unpack(x) == Unpack(y)
    ensures x == y
  {
    assert |x| == |y|;
    if x != [] {
      var n := |x| - 1;
      var xs, ys := Unpack(x), Unpack(y);
      assert xs[..8 * n] == Unpack(x[..n]) && ys[..8 * n] == Unpack(y[..n]);
      assert xs[8 * n..] == ToBits(x[n], 8) && ys[8 * n..] == ToBits(y[n], 8);
      UnpackInjective(x[..n], y[..n]);
      SmallPowers();
      ValueOfBits(x[n], 8);
      ValueOfBits(y[n], 8);
      assert x == x[..n] + [x[n]] && y == y[..n] + [y[n]];
    }
  }

  lemma {:induction false} ShortPatternVanishes(w: seq<bool>)
    requires |w| <= 16 && AllFalse(Serial(Constant(16, false), w))
    ensures AllFalse(w)
  {
    var zero := Constant(16, false);
    Backwards(zero, w, 0);
    assert w + Serial(zero, w)[..0] == w;
    assert w == zero[..|w|];
  }

  /** A nonzero pattern of at most 16 bits, wherever it stands, leaves the register nonzero. */
  lemma {:induction false} ShortPatternShows(p: nat, w: seq<bool>, n: nat)
    requires |w| <= 16 && !AllFalse(w)
    ensures !AllFalse(Serial(Constant(16, false), Constant(p, false) + w + Constant(n, false)))
  {
    var zero := Constant(16, false);
    SerialConcat(zero, Constant(p, false), w);
    SerialConcat(zero, Constant(p, false) + w, Constant(n, false));
    ZeroStays(p);
    if AllFalse(Serial(zero, w)) {
      ShortPatternVanishes(w);
    } else {
      NonzeroStays(Serial(zero, w), n);
    }
  }

  /** Every error burst of at most 16 bits, at any bit alignment, changes the checksum. */
  lemma {:induction false} BurstDetected(x: seq<byte>, y: seq<byte>, p: nat, q: nat)
    requires |x| == |y| && x != y
    requires p <= q <= 8 * |x| && q - p <= 16
    requires Unpack(x)[..p] == Unpack(y)[..p]
    requires Unpack(x)[q..] == Unpack(y)[q..]
    ensures Crc(x) != Crc(y)
  {
    var xs, ys := Unpack(x), Unpack(y);
    var w := Xor(xs, ys)[p..q];
    SplitDifference(xs, ys, p, q);
    if AllFalse(w) {
      assert xs == xs[..p] + xs[p..q] + xs[q..] && ys == ys[..p] + ys[p..q] + ys[q..];
      assert xs[p..q] == ys[p..q] by {
        assert forall i :: 0 <= i < q - p ==> (w[i] <==> xs[p..q][i] != ys[p..q][i]);
      }
      UnpackInjective(x, y);
    } else {
      ShortPatternShows(p, w, |xs| - q);
      CollisionIffDifferenceVanishes(x, y);
    }
  }

  // ----- Odd numbers of errors

  function OnesIn(s: seq<bool>): nat {
    if s == [] then 0 else OnesIn(s[..|s| - 1]) + (if s[|s| - 1] then 1 else 0)
  }

  predicate Odd(s: seq<bool>) {
    OnesIn(s) % 2 == 1
  }

  lemma OddLast(front: seq<bool>, b: bool)
    ensures Odd(front + [b]) == (Odd(front) != b)
  {
    assert (front + [b])[..|front|] == front;
  }

  lemma {:induction false} OddFirst(b: bool, rest: seq<bool>)
    ensures Odd([b] + rest) == (Odd(rest) != b)
  {
    if rest == [] {
      assert [b] + rest == [] + [b];
      OddLast([], b);
    } else {
      var n := |rest| - 1;
      OddFirst(b, rest[..n]);
      assert [b] + rest == [b] + rest[..n] + [rest[n]] && rest == rest[..n] + [rest[n]];
      OddLast([b] + rest[..n], rest[n]);
      OddLast(rest[..n], rest[n]);
    }
  }

  lemma {:induction false} OddXor(x: seq<bool>, y: seq<bool>)
    requires |x| == |y|
    ensures Odd(Xor(x, y)) == (Odd(x) != Odd(y))
  {
    if x != [] {
      var n := |x| - 1;
      OddXor(x[..n], y[..n]);
      assert Xor(x, y) == Xor(x[..n], y[..n]) + [x[n] != y[n]];
      assert x == x[..n] + [x[n]] && y == y[..n] + [y[n]];
      OddLast(Xor(x[..n], y[..n]), x[n] != y[n]);
      OddLast(x[..n], x[n]);
      OddLast(y[..n], y[n]);
    }
  }

  lemma {:induction false} NoOnes(n: nat)
    ensures OnesIn(Constant(n, false)) == 0
  {
    if n != 0 {
      assert Constant(n, false)[..n - 1] == Constant(n - 1, false);
      NoOnes(n - 1);
    }
  }

  lemma ZeroIsEven(c: Register)
    ensures AllFalse(c) ==> !Odd(c)
  {
    if AllFalse(c) {
      assert c == Constant(16, false);
      NoOnes(16);
    }
  }

  /** The polynomial has three ones besides the one that falls out. */
  lemma PolyIsOdd()
    ensures Odd(POLY)
  {
    var a, b, c := Constant(3, false), Constant(6, false), Constant(4, false);
    assert POLY == a + [true] + b + [true] + c + [true];
    OddZeros(a + [true], 6);
    OddZeros(a + [true] + b + [true], 4);
    OddLast(a, true);
    OddLast(a + [true] + b, true);
    OddLast(a + [true] + b + [true] + c, true);
    NoOnes(3);
  }

  lemma {:induction false} OddZeros(s: seq<bool>, n: nat)
    ensures Odd(s + Constant(n, false)) == Odd(s)
  {
    if n == 0 {
      assert s + Constant(0, false) == s;
    } else {
      OddZeros(s, n - 1);
      assert s + Constant(n, false) == s + Constant(n - 1, false) + [false];
      OddLast(s + Constant(n - 1, false), false);
    }
  }

  /** One more message bit that is a one changes the parity of the register. */
  lemma OddStep(c: Register, b: bool)
    ensures Odd(SerialStep(c, b)) == (Odd(c) != b)
  {
    var shifted := c[1..] + [false];
    assert c == [c[0]] + c[1..];
    OddFirst(c[0], c[1..]);
    OddLast(c[1..], false);
    OddXor(shifted, POLY);
    PolyIsOdd();
  }

  /** The parity of the register is that of its start and the message together. */
  lemma {:induction false} OddSerial(c: Register, bits: seq<bool>)
    ensures Odd(Serial(c, bits)) == (Odd(c) != Odd(bits))
  {
    if bits != [] {
      var n := |bits| - 1;
      OddSerial(c, bits[..n]);
      OddStep(Serial(c, bits[..n]), bits[n]);
      assert bits == bits[..n] + [bits[n]];
      OddLast(bits[..n], bits[n]);
    }
  }

  /** Messages of one length that differ in an odd number of bits, wherever they stand, have different checksums. */
  lemma OddErrorsDetected(x: seq<byte>, y: seq<byte>)
    requires |x| == |y| && Odd(Xor(Unpack(x), Unpack(y)))
    ensures Crc(x) != Crc(y)
  {
    var d, zero := Xor(Unpack(x), Unpack(y)), Constant(16, false);
    OddSerial(zero, d);
    NoOnes(16);
    ZeroIsEven(Serial(zero, d));
    CollisionIffDifferenceVanishes(x, y);
  }

  lemma SplitDifference(xs: seq<bool>, ys: seq<bool>, p: nat, q: nat)
    requires |xs| == |ys| && p <= q <= |xs|
    requires xs[..p] == ys[..p] && xs[q..] == ys[q..]
    ensures Xor(xs, ys) == Constant(p, false) + Xor(xs, ys)[p..q] + Constant(|xs| - q, false)
  {
    var d := Xor(xs, ys);
    assert forall i :: 0 <= i < p ==> xs[i] == xs[..p][i] == ys[..p][i] == ys[i];
    assert forall i :: q <= i < |xs| ==> xs[i] == xs[q..][i - q] == ys[q..][i - q] == ys[i];
    assert forall i :: p <= i < q ==> d[p..q][i - p] == d[i];
  }

  lemma {:induction false} UnpackConcat(x: seq<byte>, y: seq<byte>)
    ensures Unpack(x + y) == Unpack(x) + Unpack(y)
  {
    if y == [] {
      assert x + y == x;
    } else {
      var n := |y| - 1;
      assert (x + y)[..|x| + n] == x + y[..n];
      UnpackConcat(x, y[..n]);
    }
  }

  /** Messages that differ in one byte, or in two adjacent bytes, never share a checksum. */
  lemma AdjacentBytesDetected(head: seq<byte>, u: seq<byte>, v: seq<byte>, tail: seq<byte>)
    requires |u| == |v| <= 2 && u != v
    ensures Crc(head + u + tail) != Crc(head + v + tail)
  {
    var x, y := head + u + tail, head + v + tail;
    UnpackConcat(head + u, tail);
    UnpackConcat(head + v, tail);
    UnpackConcat(head, u);
    UnpackConcat(head, v);
    var p := 8 * |head|;
    var q := p + 8 * |u|;
    assert Unpack(x)[..p] == Unpack(head) == Unpack(y)[..p];
    assert Unpack(x)[q..] == Unpack(tail) == Unpack(y)[q..];
    assert x[|head|..|head| + |u|] == u && y[|head|..|head| + |u|] == v;
    BurstDetected(x, y, p, q);
  }
}
