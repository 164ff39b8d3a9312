/**
 * The CTFB factory record: two slots of 128 bytes, each with a header and a checksum over the bytes behind it. A
 * change writes the slot that is not in use; reading picks the valid slot with the higher sequence number.
 */
module Ctfb {
  import opened Bits
  import opened Crc16
  import opened HexDigits
  import opened Options
  import opened BlankChecksum

  type Slot = s: seq<byte> | |s| == 128 witness Blank(128)

  datatype Error = NotReady | NotFound | InvalidArg | InvalidSize | Corrupt | Storage

  datatype Result<+T> = Ok(value: T) | Err(error: Error)

  const MAGIC: seq<byte> := [0x43, 0x54, 0x46, 0x42]

  // ---------------------------------------------------------------------------------------------
  // Slots.

  function Rd16(s: Slot, i: nat): word
    requires i + 2 <= 128
  {
    (s[i] as int) + 0x100 * s[i + 1] as int
  }

  function Rd32(s: Slot, i: nat): uint32
    requires i + 4 <= 128
  {
    (s[i] as int) + 0x100 * (s[i + 1] as int) + 0x1_0000 * (s[i + 2] as int) + 0x100_0000 * (s[i + 3] as int)
  }

  function Wr16(v: word): seq<byte> {
    [v % 0x100, v / 0x100]
  }

  function Wr32(v: uint32): seq<byte> {
    [v % 0x100, v / 0x100 % 0x100, v / 0x1_0000 % 0x100, v / 0x100_0000]
  }

  /** The bytes the checksum covers. */
  function Payload(s: Slot): (p: seq<byte>)
    ensures |p| == 112
  {
    s[16..]
  }

  predicate Marked(s: Slot) {
    s[..4] == MAGIC && s[4] == 1
  }

  predicate Checks(s: Slot) {
    Rd16(s, 6) == Crc(Payload(s))
  }

  predicate SlotValid(s: Slot) {
    Marked(s) && Checks(s)
  }

  function SeqOf(s: Slot): uint32 {
    Rd32(s, 8)
  }

  datatype Slots = Slots(a: Slot, b: Slot) {
    function Get(inA: bool): Slot {
      if inA then a else b
    }

    function With(inA: bool, s: Slot): Slots {
      if inA then this.(a := s) else this.(b := s)
    }
  }

  /** The slot in use. */
  datatype Active = Active(inA: bool, data: Slot)

  /** Picks the slot in use; `okA` and `okB` tell whether the slots could be read. */
  function ReadActive(m: Slots, okA: bool, okB: bool): Result<Active> {
    if !okA && !okB then Err(NotReady)
    else
      var va, vb := okA && SlotValid(m.a), okB && SlotValid(m.b);
      if va && (!vb || SeqOf(m.a) >= SeqOf(m.b)) then Ok(Active(true, m.a))
      else if vb then Ok(Active(false, m.b))
      else Err(NotFound)
  }

  /** No record at all is where programming starts. */
  function Usable(r: Result<Active>): Option<Active> {
    match r case Ok(a) => Some(a) case Err(_) => None
  }

  // ---------------------------------------------------------------------------------------------
  // Fields.

  datatype Field = Mac | Sn | Pn | Batch | HwRev

  function Offset(f: Field): nat {
    match f case Mac => 16 case Sn => 24 case Pn => 56 case Batch => 72 case HwRev => 80
  }

  function Length(f: Field): nat {
    match f case Mac => 6 case Sn => 32 case Pn => 16 case Batch => 8 case HwRev => 8
  }

  function FieldBytes(s: Slot, f: Field): (b: seq<byte>)
    ensures |b| == Length(f)
  {
    s[Offset(f)..Offset(f) + Length(f)]
  }

  function Put(s: Slot, f: Field, raw: seq<byte>): Slot
    requires |raw| == Length(f)
  {
    s[..Offset(f)] + raw + s[Offset(f) + Length(f)..]
  }

  /** Text without the filling behind it. */
  function Trimmed(raw: seq<byte>): seq<byte> {
    if raw != [] && (raw[|raw| - 1] == 0xFF || raw[|raw| - 1] == 0) then Trimmed(raw[..|raw| - 1]) else raw
  }

  function HexPair(b: byte): seq<byte> {
    [HexDigit(b / 16), HexDigit(b % 16)]
  }

  /** Six octets in lower case, with colons. */
  function MacText(raw: seq<byte>): seq<byte>
    requires |raw| == 6
  {
    HexPair(raw[0]) + [0x3A] + HexPair(raw[1]) + [0x3A] + HexPair(raw[2]) + [0x3A]
    + HexPair(raw[3]) + [0x3A] + HexPair(raw[4]) + [0x3A] + HexPair(raw[5])
  }

  predicate MacFlag(s: Slot) {
    s[5] / 2 % 2 == 1
  }

  /** What a reader is told about a field; an address that is not flagged valid reads as empty. */
  function FieldText(s: Slot, f: Field): seq<byte> {
    if f.Mac? then (if MacFlag(s) then MacText(FieldBytes(s, Mac)) else [])
    else Trimmed(FieldBytes(s, f))
  }

  /** Everything the record says about the device. */
  datatype Info = Info(mac: seq<byte>, sn: seq<byte>, pn: seq<byte>, batch: seq<byte>, hwRev: seq<byte>)

  function InfoOf(s: Slot): Info {
    Info(FieldText(s, Mac), FieldText(s, Sn), FieldText(s, Pn), FieldText(s, Batch), FieldText(s, HwRev))
  }

  function ReadInfo(m: Slots): Result<Info> {
    match ReadActive(m, true, true)
    case Ok(a) => Ok(InfoOf(a.data))
    case Err(e) => Err(e)
  }

  // ---------------------------------------------------------------------------------------------
  // New records.

  function Flags(s: Slot): byte {
    if s[16] != 0xFF then 3 else 1
  }

  /** A header with checksum and sequence number in front of the payload of `s`. */
  function Sealed(s: Slot, number: uint32): (r: Slot) {
    MAGIC + [1, Flags(s)] + Wr16(Crc(Payload(s))) + Wr32(number) + Blank(4) + Payload(s)
  }

  /** Sequence numbers wrap around at 2^32. */
  function NextSeq(number: uint32): uint32 {
    if number == 0xFFFF_FFFF then 0 else number + 1
  }

  function NewRecord(active: Option<Active>, f: Field, raw: seq<byte>): Slot
    requires |raw| == Length(f)
  {
    match active
    case None => Sealed(Put(Blank(128), f, raw), 1)
    case Some(a) => Sealed(Put(a.data, f, raw), NextSeq(SeqOf(a.data)))
  }

  /** The slot a change is written to. */
  function TargetIsA(active: Option<Active>): bool {
    active.None? || !active.value.inA
  }

  /** A slot write cut off after `k` bytes. */
  function Torn(next: Slot, stale: Slot, k: nat): Slot
    requires k <= 128
  {
    next[..k] + stale[k..]
  }

  lemma SealedParts(s: Slot, number: uint32)
    ensures Marked(Sealed(s, number)) && Checks(Sealed(s, number))
    ensures SeqOf(Sealed(s, number)) == number && Sealed(s, number)[5] == Flags(s)
    ensures Payload(Sealed(s, number)) == Payload(s)
  {
    var r := Sealed(s, number);
    assert r[..4] == MAGIC;
    assert r[4] == 1 && r[5] == Flags(s);
    assert r[6..8] == Wr16(Crc(Payload(s)));
    assert r[8..12] == Wr32(number);
    assert r[16..] == Payload(s);
    Digits16(Crc(Payload(s)));
    Digits32(number);
    assert r[6] == r[6..8][0] && r[7] == r[6..8][1];
    assert r[8] == r[8..12][0] && r[9] == r[8..12][1] && r[10] == r[8..12][2] && r[11] == r[8..12][3];
  }

  lemma Digits16(v: word)
    ensures v % 0x100 + 0x100 * (v / 0x100) == v
  {
  }

  lemma Digits32(v: uint32)
    ensures v % 0x100 + 0x100 * (v / 0x100 % 0x100)
      + 0x1_0000 * (v / 0x1_0000 % 0x100) + 0x100_0000 * (v / 0x100_0000) == v
  {
    var a, b, c := v / 0x100, v / 0x1_0000, v / 0x100_0000;
    assert v == 0x100 * a + v % 0x100;
    assert a == 0x100 * b + a % 0x100;
    assert b == 0x100 * c + b % 0x100;
  }
}
