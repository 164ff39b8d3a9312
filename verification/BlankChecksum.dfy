/**
 * The checksum of an erased payload, 112 bytes of 0xFF, is not the 0xFFFF that an erased checksum field holds, so
 * an erased slot never passes for a record. The register is followed as a 16-bit vector, on which the 896 steps
 * can be evaluated.
 */
module BlankChecksum {
  import opened Bits
  import opened Crc16

  /** One more message bit that is a one. */
  function Step(v: bv16): bv16 {
    if v & 0x8000 != 0 then v << 1 else (v << 1) ^ 0x1021
  }

  /** One more message byte 0xFF, and seven and 28 of them. */
  function Byte(v: bv16): bv16 { Step(Step(Step(Step(Step(Step(Step(Step(v)))))))) }
  function Seven(v: bv16): bv16 { Byte(Byte(Byte(Byte(Byte(Byte(Byte(v))))))) }
  function Quarter(v: bv16): bv16 { Seven(Seven(Seven(Seven(v)))) }

  function BitsOf(v: bv16): Register {
    [v & 0x8000 != 0, v & 0x4000 != 0, v & 0x2000 != 0, v & 0x1000 != 0,
     v & 0x0800 != 0, v & 0x0400 != 0, v & 0x0200 != 0, v & 0x0100 != 0,
     v & 0x0080 != 0, v & 0x0040 != 0, v & 0x0020 != 0, v & 0x0010 != 0,
     v & 0x0008 != 0, v & 0x0004 != 0, v & 0x0002 != 0, v & 0x0001 != 0]
  }

  lemma ShiftBits(v: bv16)
    ensures BitsOf(v << 1) == BitsOf(v)[1..] + [false]
  {
  }

  lemma PolyOnes(i: nat)
    requires i < 16
    ensures POLY[i] == (i == 3 || i == 10 || i == 15)
  {
  }

  lemma FlipPoly(c: Register)
    ensures Xor(c, POLY) ==
      [c[0], c[1], c[2], !c[3], c[4], c[5], c[6], c[7], c[8], c[9], !c[10], c[11], c[12], c[13], c[14], !c[15]]
  {
    var flipped :=
      [c[0], c[1], c[2], !c[3], c[4], c[5], c[6], c[7], c[8], c[9], !c[10], c[11], c[12], c[13], c[14], !c[15]];
    FlipAt(c, POLY, flipped);
  }

  lemma FlipAt(c: Register, poly: Register, flipped: Register)
    requires poly == POLY
    requires forall i :: 0 <= i < 16 && i != 3 && i != 10 && i != 15 ==> flipped[i] == c[i]
    requires flipped[3] == !c[3] && flipped[10] == !c[10] && flipped[15] == !c[15]
    ensures Xor(c, poly) == flipped
  {
    forall i | 0 <= i < 16
      ensures Xor(c, poly)[i] == flipped[i]
    {
      PolyOnes(i);
    }
  }

  lemma PolyBits(v: bv16)
    ensures BitsOf(v ^ 0x1021) ==
      [v & 0x8000 != 0, v & 0x4000 != 0, v & 0x2000 != 0, v & 0x1000 == 0,
       v & 0x0800 != 0, v & 0x0400 != 0, v & 0x0200 != 0, v & 0x0100 != 0,
       v & 0x0080 != 0, v & 0x0040 != 0, v & 0x0020 == 0, v & 0x0010 != 0,
       v & 0x0008 != 0, v & 0x0004 != 0, v & 0x0002 != 0, v & 0x0001 == 0]
  {
  }

  lemma XorPolyBits(v: bv16)
    ensures Xor(BitsOf(v), POLY) == BitsOf(v ^ 0x1021)
  {
    FlipPoly(BitsOf(v));
    PolyBits(v);
  }

  /** The shared shape of a register step, on registers alone. */
  lemma StepShape(top: bool, c: Register, shifted: Register, flipped: Register)
    requires c[0] == top && shifted == c[1..] + [false] && flipped == Xor(shifted, POLY)
    ensures SerialStep(c, true) == if top then shifted else flipped
  {
  }

  lemma FirstBit(v: bv16)
    ensures BitsOf(v)[0] == (v & 0x8000 != 0)
  {
  }

  lemma StepBits(v: bv16)
    ensures SerialStep(BitsOf(v), true) == BitsOf(Step(v))
  {
    var top := v & 0x8000 != 0;
    assert BitsOf(Step(v)) == if top then BitsOf(v << 1) else BitsOf((v << 1) ^ 0x1021);
    StepShape(top, BitsOf(v), BitsOf(v << 1), BitsOf((v << 1) ^ 0x1021)) by {
      FirstBit(v);
      ShiftBits(v);
      XorPolyBits(v << 1);
    }
  }

  lemma SerialCons(c: Register, b: bool, bits: seq<bool>)
    ensures Serial(c, [b] + bits) == Serial(SerialStep(c, b), bits)
  {
    SerialConcat(c, [b], bits);
    assert [b][..0] == [];
    assert Serial(c, [b]) == SerialStep(Serial(c, []), b);
  }

  function Iterate(f: bv16 -> bv16, n: nat, v: bv16): bv16
    decreases n
  {
    if n == 0 then v else Iterate(f, n - 1, f(v))
  }

  lemma {:induction false} IterateSum(f: bv16 -> bv16, m: nat, n: nat, v: bv16)
    ensures Iterate(f, m + n, v) == Iterate(f, n, Iterate(f, m, v))
    decreases m
  {
    if m != 0 {
      IterateSum(f, m - 1, n, f(v));
    }
  }

  /** Feeding ones one at a time, for any way `step` of following the register through `bits`. */
  lemma {:induction false} SerialOnes(bits: bv16 -> Register, step: bv16 -> bv16, n: nat, v: bv16)
    requires forall u :: SerialStep(bits(u), true) == bits(step(u))
    ensures Serial(bits(v), Constant(n, true)) == bits(Iterate(step, n, v))
    decreases n
  {
    if n == 0 {
      assert Constant(n, true) == [];
    } else {
      assert Constant(n, true) == [true] + Constant(n - 1, true);
      SerialCons(bits(v), true, Constant(n - 1, true));
      SerialOnes(bits, step, n - 1, step(v));
    }
  }

  lemma OnesByte()
    ensures ToBits(0xFF, 8) == Constant(8, true)
  {
  }

  lemma ByteBits(v: bv16)
    ensures ByteStep(BitsOf(v), 0xFF) == BitsOf(Byte(v))
  {
    SerialIsXorThenShift(BitsOf(v), ToBits(0xFF, 8));
    OnesByte();
    forall u {
      StepBits(u);
    }
    SerialOnes(BitsOf, Step, 8, v);
    assert Iterate(Step, 8, v) == Byte(v);
  }

  function Blank(n: nat): (bytes: seq<byte>)
    ensures |bytes| == n && forall i :: 0 <= i < n ==> bytes[i] == 0xFF
  {
    seq(n, i => 0xFF)
  }

  lemma {:induction false} BlankBytes(bits: bv16 -> Register, step: bv16 -> bv16, n: nat, v: bv16)
    requires forall u :: ByteStep(bits(u), 0xFF) == bits(step(u))
    ensures Run(bits(v), Blank(n)) == bits(Iterate(step, n, v))
  {
    if n != 0 {
      BlankBytes(bits, step, n - 1, v);
      assert Blank(n)[..n - 1] == Blank(n - 1);
      IterateSum(step, n - 1, 1, v);
      assert Iterate(step, 1, Iterate(step, n - 1, v)) == step(Iterate(step, n - 1, v));
    }
  }

  lemma IterateSeven(f: bv16 -> bv16, seven: bv16 -> bv16, v: bv16)
    requires forall u :: seven(u) == f(f(f(f(f(f(f(u)))))))
    ensures Iterate(f, 7, v) == seven(v)
  {
  }

  lemma IterateFour(f: bv16 -> bv16, g: bv16 -> bv16, n: nat, v: bv16)
    requires forall u :: Iterate(f, n, u) == g(u)
    ensures Iterate(f, 4 * n, v) == g(g(g(g(v))))
  {
    IterateSum(f, n, 3 * n, v);
    IterateSum(f, n, 2 * n, g(v));
    IterateSum(f, n, n, g(g(v)));
  }

  lemma BlankRun(bits: bv16 -> Register, byte: bv16 -> bv16, seven: bv16 -> bv16, n: nat, k: nat, v: bv16)
    requires k == 7 && n == 4 * k
    requires forall u :: ByteStep(bits(u), 0xFF) == bits(byte(u))
    requires forall u :: seven(u) == byte(byte(byte(byte(byte(byte(byte(u)))))))
    ensures Run(bits(v), Blank(n)) == bits(seven(seven(seven(seven(v)))))
  {
    BlankBytes(bits, byte, n, v);
    forall u
      ensures Iterate(byte, k, u) == seven(u)
    {
      IterateSeven(byte, seven, u);
    }
    IterateFour(byte, seven, k, v);
  }

  lemma QuarterRun(v: bv16)
    ensures Run(BitsOf(v), Blank(28)) == BitsOf(Quarter(v))
  {
    forall u
      ensures ByteStep(BitsOf(u), 0xFF) == BitsOf(Byte(u))
    {
      ByteBits(u);
    }
    BlankRun(BitsOf, Byte, Seven, 28, 7, v);
  }

  lemma {:induction false} RunConcat(c: Register, x: seq<byte>, y: seq<byte>)
    ensures Run(c, x + y) == Run(Run(c, x), y)
    decreases y
  {
    if y == [] {
      assert x + y == x;
    } else {
      var k := |y| - 1;
      assert (x + y)[..|x + y| - 1] == x + y[..k];
      RunConcat(c, x, y[..k]);
    }
  }

  /** A further quarter of the erased payload, from one value of the register to the next. */
  lemma NextQuarter(done: nat, v: bv16, w: bv16)
    requires Run(INIT, Blank(done)) == BitsOf(v) && Quarter(v) == w
    ensures Run(INIT, Blank(done + 28)) == BitsOf(w)
  {
    QuarterRun(v);
    RunConcat(INIT, Blank(done), Blank(28));
    assert Blank(done) + Blank(28) == Blank(done + 28);
  }

  lemma FirstQuarter()
    ensures Run(INIT, Blank(28)) == BitsOf(0xF322)
  {
    assert Blank(0) == [] && BitsOf(0xFFFF) == INIT;
    NextQuarter(0, 0xFFFF, 0xF322);
  }

  lemma SecondQuarter()
    ensures Run(INIT, Blank(56)) == BitsOf(0xE313)
  {
    FirstQuarter();
    NextQuarter(28, 0xF322, 0xE313);
  }

  lemma ThirdQuarter()
    ensures Run(INIT, Blank(84)) == BitsOf(0x55B4)
  {
    SecondQuarter();
    NextQuarter(56, 0xE313, 0x55B4);
  }

  lemma FourthQuarter()
    ensures Run(INIT, Blank(112)) == BitsOf(0xB943)
  {
    ThirdQuarter();
    NextQuarter(84, 0x55B4, 0xB943);
  }

  lemma AllOnes(v: bv16)
    requires forall i :: 0 <= i < 16 ==> BitsOf(v)[i]
    ensures v == 0xFFFF
  {
    assert BitsOf(v)[0] && BitsOf(v)[1] && BitsOf(v)[2] && BitsOf(v)[3] && BitsOf(v)[4] && BitsOf(v)[5] && BitsOf(v)[6]
      && BitsOf(v)[7] && BitsOf(v)[8] && BitsOf(v)[9] && BitsOf(v)[10] && BitsOf(v)[11]
      && BitsOf(v)[12] && BitsOf(v)[13]
      && BitsOf(v)[14] && BitsOf(v)[15];
  }

  lemma {:induction false} ValueOfOnes(n: nat)
    ensures Value(Constant(n, true)) == Pow2(n) - 1
  {
    if n != 0 {
      ValueOfOnes(n - 1);
      assert Constant(n, true)[..n - 1] == Constant(n - 1, true);
    }
  }

  lemma OnlyOnes(c: Register)
    requires RegisterValue(c) == 0xFFFF
    ensures c == Constant(16, true)
  {
    BitsOfValue(c);
    BitsOfValue(Constant(16, true));
    ValueOfOnes(16);
    SmallPowers();
  }

  /** The erased checksum field does not match the erased payload. */
  lemma BlankDoesNotMatch()
    ensures Crc(Blank(112)) != 0xFFFF
  {
    FourthQuarter();
    if Crc(Blank(112)) == 0xFFFF {
      OnlyOnes(Run(INIT, Blank(112)));
      AllOnes(0xB943);
    }
  }
}
