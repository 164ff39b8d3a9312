/** The operations on the factory record as they work on the 256 bytes of storage, and what a caller gets from them. */
module CtfbStore {
  import opened Bits
  import opened HexDigits
  import opened Options
  import opened BlankChecksum
  import opened Ctfb
  import opened CtfbSafety

  /** A C string: no byte of it is zero. */
  type Text = s: seq<byte> | 0 !in s witness []

  // ---------------------------------------------------------------------------------------------
  // Hardware addresses in text form.

  predicate IsSpace(c: byte) {
    c == 0x20 || 9 <= c <= 13
  }

  predicate IsHex(c: byte) {
    HexValue(c) >= 0
  }

  /**
   * The scan conversion of a hexadecimal number at most two characters wide: leading space does not count, a sign
   * does, and a bare prefix "0x" is no number.
   */
  function ScanHex(s: seq<byte>): Option<(int, seq<byte>)> {
    if s == [] then None
    else if IsSpace(s[0]) then ScanHex(s[1..])
    else if s[0] == 0x2B || s[0] == 0x2D then
      if |s| >= 2 && IsHex(s[1]) then Some((if s[0] == 0x2D then -HexValue(s[1]) else HexValue(s[1]), s[2..])) else None
    else if !IsHex(s[0]) then None
    else if |s| >= 2 && s[0] == 0x30 && (s[1] == 0x78 || s[1] == 0x58) then None
    else if |s| >= 2 && IsHex(s[1]) then Some((16 * HexValue(s[0]) + HexValue(s[1]), s[2..]))
    else Some((HexValue(s[0]), s[1..]))
  }

  /** `n` numbers with a colon between any two; what comes behind them is not looked at. */
  function ScanOctets(s: seq<byte>, n: nat): Option<seq<int>>
    requires n > 0
    decreases n
  {
    match ScanHex(s)
    case None => None
    case Some(vs) =>
      if n == 1 then Some([vs.0])
      else if vs.1 == [] || vs.1[0] != 0x3A then None
      else match ScanOctets(vs.1[1..], n - 1)
        case None => None
        case Some(rest) => Some([vs.0] + rest)
  }

  predicate AreOctets(values: seq<int>) {
    forall i :: 0 <= i < |values| ==> 0 <= values[i] <= 255
  }

  function ParseMac(s: Text): Option<seq<byte>> {
    if |s| != 17 then None
    else match ScanOctets(s, 6)
      case None => None
      case Some(values) => if AreOctets(values) then Some(values) else None
  }

  /** Encoding a value for its field. */
  function Encoded(f: Field, v: Text): Result<seq<byte>> {
    if f.Mac? then
      (match ParseMac(v) case None => Err(InvalidArg) case Some(raw) => Ok(raw))
    else if |v| > Length(f) then Err(InvalidSize)
    else Ok(v + Blank(Length(f) - |v|))
  }

  lemma {:induction false} ScanCount(s: seq<byte>, n: nat)
    requires n > 0
    ensures ScanOctets(s, n).Some? ==> |ScanOctets(s, n).value| == n
    decreases n
  {
    if n > 1 && ScanHex(s).Some? && ScanHex(s).value.1 != [] {
      ScanCount(ScanHex(s).value.1[1..], n - 1);
    }
  }

  lemma EncodedLength(f: Field, v: Text)
    ensures Encoded(f, v).Ok? ==> |Encoded(f, v).value| == Length(f)
  {
    if f.Mac? && |v| == 17 {
      ScanCount(v, 6);
    }
  }

  // ---------------------------------------------------------------------------------------------
  // Which values come back as they were given.

  predicate IsLowerHex(c: byte) {
    0x30 <= c <= 0x39 || 0x61 <= c <= 0x66
  }

  /** `n` pairs of lower-case digits with colons between them. */
  predicate Pairs(s: seq<byte>, n: nat)
    requires n > 0
    decreases n
  {
    && |s| == 3 * n - 1 && IsLowerHex(s[0]) && IsLowerHex(s[1])
    && (n > 1 ==> s[2] == 0x3A && Pairs(s[3..], n - 1))
  }

  function PairsText(octets: seq<byte>): seq<byte>
    requires octets != []
  {
    if |octets| == 1 then HexPair(octets[0]) else HexPair(octets[0]) + [0x3A] + PairsText(octets[1..])
  }

  lemma HexPairReads(b: byte)
    ensures IsLowerHex(HexPair(b)[0]) && IsLowerHex(HexPair(b)[1])
    ensures 16 * HexValue(HexPair(b)[0]) + HexValue(HexPair(b)[1]) == b
  {
  }

  lemma LowerHexPrints(c: byte, d: byte)
    requires IsLowerHex(c) && IsLowerHex(d)
    ensures 0 <= 16 * HexValue(c) + HexValue(d) <= 255
    ensures HexPair(16 * HexValue(c) + HexValue(d)) == [c, d]
  {
    var x, y := HexValue(c), HexValue(d);
    assert (16 * x + y) / 16 == x && (16 * x + y) % 16 == y;
  }

  lemma {:induction false} PairsOfText(octets: seq<byte>)
    requires octets != []
    ensures Pairs(PairsText(octets), |octets|)
    decreases octets
  {
    HexPairReads(octets[0]);
    if |octets| > 1 {
      PairsOfText(octets[1..]);
      assert PairsText(octets)[3..] == PairsText(octets[1..]);
    }
  }

  lemma {:induction false} PairsScan(s: seq<byte>, n: nat)
    requires n > 0 && Pairs(s, n)
    ensures var r := ScanOctets(s, n);
      r.Some? && |r.value| == n && AreOctets(r.value) && PairsText(r.value) == s
    decreases n
  {
    LowerHexPrints(s[0], s[1]);
    assert ScanHex(s) == Some((16 * HexValue(s[0]) + HexValue(s[1]), s[2..]));
    if n == 1 {
      assert s == [s[0], s[1]];
    } else {
      PairsScan(s[3..], n - 1);
      assert s[2..][1..] == s[3..];
      var rest := ScanOctets(s[3..], n - 1).value;
      var all := [16 * HexValue(s[0]) + HexValue(s[1])] + rest;
      assert ScanOctets(s, n) == Some(all);
      assert all[1..] == rest;
      assert s == [s[0], s[1]] + [0x3A] + s[3..];
    }
  }

  lemma MacTextIsPairs(raw: seq<byte>)
    requires |raw| == 6
    ensures MacText(raw) == PairsText(raw)
  {
    assert raw[1..][1..] == raw[2..] && raw[2..][1..] == raw[3..] && raw[3..][1..] == raw[4..]
      && raw[4..][1..] == raw[5..];
    assert PairsText(raw[5..]) == HexPair(raw[5]);
    assert PairsText(raw[4..]) == HexPair(raw[4]) + [0x3A] + PairsText(raw[5..]);
    assert PairsText(raw[3..]) == HexPair(raw[3]) + [0x3A] + PairsText(raw[4..]);
    assert PairsText(raw[2..]) == HexPair(raw[2]) + [0x3A] + PairsText(raw[3..]);
    assert PairsText(raw[1..]) == HexPair(raw[1]) + [0x3A] + PairsText(raw[2..]);
  }

  /** An address comes back as given exactly when it is in the canonical form. */
  lemma MacComesBackIff(v: Text)
    requires ParseMac(v).Some?
    ensures |ParseMac(v).value| == 6 && (MacText(ParseMac(v).value) == v <==> Pairs(v, 6))
  {
    var raw := ParseMac(v).value;
    ScanCount(v, 6);
    MacTextIsPairs(raw);
    if Pairs(v, 6) {
      PairsScan(v, 6);
    } else {
      PairsOfText(raw);
    }
  }

  lemma {:induction false} TrimmedFilled(v: Text, n: nat)
    ensures Trimmed(v + Blank(n)) == Trimmed(v)
    decreases n
  {
    if n == 0 {
      assert v + Blank(n) == v;
    } else {
      assert (v + Blank(n))[..|v| + n - 1] == v + Blank(n - 1);
      TrimmedFilled(v, n - 1);
    }
  }

  lemma {:induction false} TrimmedShrinks(raw: seq<byte>)
    ensures |Trimmed(raw)| <= |raw|
  {
    if raw != [] {
      TrimmedShrinks(raw[..|raw| - 1]);
    }
  }

  /**
   * Values that come back as they were given: text that does not end in the filling byte, and canonical addresses
   * that do not start with the octet ff.
   */
  predicate Faithful(f: Field, v: Text) {
    if f.Mac? then Pairs(v, 6) && v[..2] != [0x66, 0x66] else v == [] || v[|v| - 1] != 0xFF
  }

  lemma FirstOctet(v: Text)
    requires ParseMac(v).Some? && Pairs(v, 6)
    ensures |ParseMac(v).value| == 6 && (ParseMac(v).value[0] == 0xFF <==> v[..2] == [0x66, 0x66])
  {
    PairsScan(v, 6);
    LowerHexPrints(v[0], v[1]);
    var raw := ParseMac(v).value;
    assert PairsText(raw) == HexPair(raw[0]) + [0x3A] + PairsText(raw[1..]);
    assert v[..2] == HexPair(raw[0]);
    HexPairReads(raw[0]);
  }

  lemma ComesBackIff(f: Field, v: Text)
    requires Encoded(f, v).Ok?
    ensures |Encoded(f, v).value| == Length(f)
    ensures TextOf(f, Encoded(f, v).value) == v <==> Faithful(f, v)
  {
    EncodedLength(f, v);
    if f.Mac? {
      MacComesBackIff(v);
      if Pairs(v, 6) {
        FirstOctet(v);
      }
    } else {
      TrimmedFilled(v, Length(f) - |v|);
      if v != [] && v[|v| - 1] == 0xFF {
        TrimmedShrinks(v[..|v| - 1]);
      }
    }
  }

  function Erased(): Slots {
    Slots(Blank(128), Blank(128))
  }

  /**
   * Setting a field in any store: as long as there is a higher number the field then reads as the value given,
   * exactly for the faithful values, every other field reads as before, exactly if the address was flagged rightly,
   * the number goes up by one and the other slot is in use. After the highest number nothing changes.
   */
  lemma SetThenGet(m: Slots, f: Field, v: Text, g: Field)
    requires Encoded(f, v).Ok?
    ensures |Encoded(f, v).value| == Length(f)
    ensures var before, after := ActiveOf(m), ActiveOf(Written(m, f, Encoded(f, v).value));
      if Countable(m) then
        && after.Some?
        && (FieldText(after.value.data, f) == v <==> Faithful(f, v))
        && (g != f ==> (FieldText(after.value.data, g) == Told(before, g)
                        <==> (g.Mac? && before.Some? ==> FlagsOk(before.value.data))))
        && (before.Some? ==>
            SeqOf(after.value.data) == SeqOf(before.value.data) + 1 && after.value.inA != before.value.inA)
      else after == before
  {
    ComesBackIff(f, v);
    var raw := Encoded(f, v).value;
    WriteTakesEffect(m, f, raw);
    OnlyThatFieldChanges(ActiveOf(m), f, raw, f);
    OnlyThatFieldChanges(ActiveOf(m), f, raw, g);
  }

  /**
   * After any history from an erased store in which no erasure was cut off, setting a field changes that field
   * alone, if there is a higher number.
   */
  lemma SetChangesOneField(ops: seq<Op>, f: Field, v: Text, g: Field)
    requires History(Erased(), ops) && ErasuresComplete(ops) && Encoded(f, v).Ok?
    ensures |Encoded(f, v).value| == Length(f)
    ensures var m := Replay(Erased(), ops);
      var before, after := ActiveOf(m), ActiveOf(Written(m, f, Encoded(f, v).value));
      && (g != f ==> Told(after, g) == Told(before, g))
      && (Countable(m) ==> (Told(after, f) == v <==> Faithful(f, v)))
  {
    ErasedIsSound();
    HistoryKeepsSound(Erased(), ops);
    SetThenGet(Replay(Erased(), ops), f, v, g);
  }

  /** An address in the canonical form that starts with the octet ff is accepted, and reads back as empty. */
  lemma AddressReadsEmpty(m: Slots, v: Text)
    requires Countable(m) && Pairs(v, 6) && v[..2] == [0x66, 0x66]
    ensures Encoded(Mac, v).Ok? && |Encoded(Mac, v).value| == Length(Mac)
    ensures Told(ActiveOf(Written(m, Mac, Encoded(Mac, v).value)), Mac) == []
  {
    PairsScan(v, 6);
    FirstOctet(v);
    var raw := Encoded(Mac, v).value;
    WriteTakesEffect(m, Mac, raw);
    OnlyThatFieldChanges(ActiveOf(m), Mac, raw, Mac);
  }

  /** "ff:00:00:00:00:01" is such an address. */
  lemma AddressThatReadsEmpty(m: Slots) returns (v: Text)
    requires Countable(m)
    ensures Encoded(Mac, v).Ok? && |Encoded(Mac, v).value| == Length(Mac)
    ensures Told(ActiveOf(Written(m, Mac, Encoded(Mac, v).value)), Mac) == []
    ensures v == [0x66, 0x66, 0x3A, 0x30, 0x30, 0x3A, 0x30, 0x30, 0x3A, 0x30, 0x30, 0x3A, 0x30, 0x30, 0x3A, 0x30, 0x31]
  {
    v := [0x66, 0x66, 0x3A, 0x30, 0x30, 0x3A, 0x30, 0x30, 0x3A, 0x30, 0x30, 0x3A, 0x30, 0x30, 0x3A, 0x30, 0x31];
    IsAddress(v);
    AddressReadsEmpty(m, v);
  }

  lemma IsAddress(v: Text)
    requires v == [0x66, 0x66, 0x3A, 0x30, 0x30, 0x3A, 0x30, 0x30, 0x3A, 0x30, 0x30, 0x3A, 0x30, 0x30, 0x3A, 0x30, 0x31]
    ensures Pairs(v, 6) && v[..2] == [0x66, 0x66]
  {
    ZeroPairs(v[3..]);
  }

  lemma ZeroPairs(s: seq<byte>)
    requires s == [0x30, 0x30, 0x3A, 0x30, 0x30, 0x3A, 0x30, 0x30, 0x3A, 0x30, 0x30, 0x3A, 0x30, 0x31]
    ensures Pairs(s, 5)
  {
    assert s[3..][3..] == s[6..] && s[6..][3..] == s[9..] && s[9..][3..] == s[12..];
    assert Pairs(s[12..], 1);
    assert Pairs(s[9..], 2);
    assert Pairs(s[6..], 3);
    assert Pairs(s[3..], 4);
  }
}
