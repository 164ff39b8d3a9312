/** What changes to the factory record keep, also when a slot write is cut off at any byte. */
module CtfbSafety {
  import opened Arithmetic
  import opened Bits
  import opened Crc16
  import opened Options
  import opened BlankChecksum
  import opened Ctfb

  const LAST_SEQ := 0xFFFF_FFFF

  /** A slot whose checksum matches is a record; anything else fails its checksum. */
  predicate SlotOk(s: Slot) {
    Checks(s) ==> Marked(s)
  }

  predicate FlagsOk(s: Slot) {
    MacFlag(s) <==> s[16] != 0xFF
  }

  function ActiveOf(m: Slots): Option<Active> {
    match ReadActive(m, true, true)
    case Ok(a) => Some(a)
    case Err(_) => None
  }

  predicate Sound(m: Slots) {
    && SlotOk(m.a) && SlotOk(m.b)
    && (ActiveOf(m).Some? ==> FlagsOk(ActiveOf(m).value.data))
  }

  /** There is a higher sequence number left. */
  predicate Countable(m: Slots) {
    ActiveOf(m).Some? ==> SeqOf(ActiveOf(m).value.data) < LAST_SEQ
  }

  lemma ErasedIsSound()
    ensures Sound(Slots(Blank(128), Blank(128))) && ActiveOf(Slots(Blank(128), Blank(128))) == None
  {
    var s: Slot := Blank(128);
    assert Payload(s) == Blank(112);
    BlankDoesNotMatch();
    assert Rd16(s, 6) == 0xFFFF;
    assert !Checks(s);
  }

  // ---------------------------------------------------------------------------------------------
  // Cut writes.

  /**
   * The mixed slot passes its checksum by accident: its checksum field is half written and fits the stale payload,
   * or it is the new one and fits a payload that is not.
   */
  predicate Collides(next: Slot, stale: Slot, k: nat)
    requires k <= 128
  {
    var t := Torn(next, stale, k);
    || (k == 7 && !Checks(stale) && Checks(t))
    || (k >= 8 && Crc(Payload(t)) == Crc(Payload(next)) && Payload(t) != Payload(next))
  }

  lemma TornHeader(next: Slot, stale: Slot, k: nat)
    requires k <= 128
    ensures var t := Torn(next, stale, k);
      && (Marked(next) && (k >= 5 || Marked(stale)) ==> Marked(t))
      && (k >= 6 ==> t[5] == next[5])
      && (k >= 8 ==> Rd16(t, 6) == Rd16(next, 6))
      && (k <= 6 ==> Rd16(t, 6) == Rd16(stale, 6))
  {
    var t := Torn(next, stale, k);
    assert forall i :: 0 <= i < 128 ==> t[i] == if i < k then next[i] else stale[i];
    if Marked(next) && (k >= 5 || Marked(stale)) {
      assert next[..4][0] == next[0] && next[..4][1] == next[1] && next[..4][2] == next[2] && next[..4][3] == next[3];
      if k < 4 {
        assert stale[..4][0] == stale[0] && stale[..4][1] == stale[1];
        assert stale[..4][2] == stale[2] && stale[..4][3] == stale[3];
      }
      assert t[..4] == MAGIC;
    }
  }

  lemma TornTail(next: Slot, stale: Slot, k: nat)
    requires k <= 8
    ensures Payload(Torn(next, stale, k)) == Payload(stale) && SeqOf(Torn(next, stale, k)) == SeqOf(stale)
  {
    var t := Torn(next, stale, k);
    assert t[k..] == stale[k..];
    assert t[8..] == t[k..][8 - k..] && stale[8..] == stale[k..][8 - k..];
    assert t[16..] == t[8..][8..] && stale[16..] == stale[8..][8..];
    assert forall i :: 0 <= i < 4 ==> t[8 + i] == t[8..][i] && stale[8 + i] == stale[8..][i];
  }

  /** A mixed slot is no record, or it is the new one but for its number, or it still counts as the stale one. */
  lemma TornOutcome(next: Slot, stale: Slot, k: nat)
    requires k <= 128 && SlotValid(next) && SlotOk(stale) && !Collides(next, stale, k)
    ensures var t := Torn(next, stale, k);
      && SlotOk(t)
      && (SlotValid(t) ==>
            || (Payload(t) == Payload(next) && t[5] == next[5])
            || (SlotValid(stale) && SeqOf(t) == SeqOf(stale)))
  {
    TornHeader(next, stale, k);
    if k <= 8 {
      TornTail(next, stale, k);
    }
  }

  lemma FieldInPayload(s: Slot, f: Field)
    ensures FieldBytes(s, f) == Payload(s)[Offset(f) - 16..Offset(f) - 16 + Length(f)] && s[16] == Payload(s)[0]
  {
    SliceOfPayload(s, Offset(f), Offset(f) + Length(f));
  }

  lemma SliceOfPayload(s: Slot, i: nat, j: nat)
    requires 16 <= i <= j <= 128
    ensures s[i..j] == Payload(s)[i - 16..j - 16]
  {
    forall k | 0 <= k < j - i
      ensures s[i..j][k] == Payload(s)[i - 16..j - 16][k]
    {
      assert s[i..j][k] == s[i + k] == Payload(s)[i - 16 + k];
    }
  }

  /** Fields are read from the flags and the payload alone. */
  lemma SameInfo(s: Slot, t: Slot)
    requires Payload(s) == Payload(t) && s[5] == t[5]
    ensures InfoOf(s) == InfoOf(t) && (FlagsOk(s) <==> FlagsOk(t))
  {
    forall f: Field
      ensures FieldBytes(s, f) == FieldBytes(t, f)
    {
      FieldInPayload(s, f);
      FieldInPayload(t, f);
    }
    FieldInPayload(s, Mac);
    FieldInPayload(t, Mac);
  }

  lemma NewRecordValid(active: Option<Active>, f: Field, raw: seq<byte>)
    requires |raw| == Length(f)
    ensures var next := NewRecord(active, f, raw);
      && SlotValid(next) && FlagsOk(next)
      && (active.None? ==> SeqOf(next) == 1)
      && (active.Some? ==> SeqOf(next) == NextSeq(SeqOf(active.value.data)))
  {
    match active {
      case None => SealedValid(Put(Blank(128), f, raw), 1);
      case Some(a) =>
        SealedValid(Put(a.data, f, raw), NextSeq(SeqOf(a.data)));
    }
  }

  lemma SealedValid(base: Slot, number: uint32)
    ensures SlotValid(Sealed(base, number)) && FlagsOk(Sealed(base, number)) && SeqOf(Sealed(base, number)) == number
  {
    var next := Sealed(base, number);
    SealedParts(base, number);
    assert next[16] == Payload(next)[0] && Payload(base)[0] == base[16];
  }

  function Written(m: Slots, f: Field, raw: seq<byte>): Slots
    requires |raw| == Length(f)
  {
    m.With(TargetIsA(ActiveOf(m)), NewRecord(ActiveOf(m), f, raw))
  }

  function CutOff(m: Slots, f: Field, raw: seq<byte>, k: nat): Slots
    requires |raw| == Length(f) && k <= 128
  {
    var target := TargetIsA(ActiveOf(m));
    m.With(target, Torn(NewRecord(ActiveOf(m), f, raw), m.Get(target), k))
  }

  /** The same by a set that can read only some of the slots; `okA` and `okB` tell which. */
  function CutSeen(m: Slots, okA: bool, okB: bool, f: Field, raw: seq<byte>, k: nat): Slots
    requires |raw| == Length(f) && k <= 128
  {
    var seen := Usable(ReadActive(m, okA, okB));
    m.With(TargetIsA(seen), Torn(NewRecord(seen, f, raw), m.Get(TargetIsA(seen)), k))
  }

  predicate NoAccident(m: Slots, f: Field, raw: seq<byte>, k: nat)
    requires |raw| == Length(f) && k <= 128
  {
    !Collides(NewRecord(ActiveOf(m), f, raw), m.Get(TargetIsA(ActiveOf(m))), k)
  }

  /** A valid record in the slot that is not in use, with number `number`, would be the one in use. */
  predicate Wins(active: Option<Active>, number: uint32) {
    active.None? || number > SeqOf(active.value.data) || (number == SeqOf(active.value.data) && !active.value.inA)
  }

  /** Which slot is in use once the target holds `t`. */
  lemma Choice(m: Slots, t: Slot)
    ensures var active := ActiveOf(m);
      var target := TargetIsA(active);
      ActiveOf(m.With(target, t)) == if SlotValid(t) && Wins(active, SeqOf(t)) then Some(Active(target, t)) else active
    ensures var active := ActiveOf(m);
      SlotValid(m.Get(TargetIsA(active))) ==> !Wins(active, SeqOf(m.Get(TargetIsA(active))))
  {
  }

  /** The store shows the old record or the new one after a change that is cut off. */
  predicate OldOrNew(m: Slots, f: Field, raw: seq<byte>, k: nat)
    requires |raw| == Length(f) && k <= 128
  {
    var seen := ReadInfo(CutOff(m, f, raw, k));
    seen == ReadInfo(m) || seen == Ok(InfoOf(NewRecord(ActiveOf(m), f, raw)))
  }

  /**
   * A change cut off after any number of bytes leaves every field as it was or makes every field new, unless the
   * mixed slot passes its checksum by accident.
   */
  lemma CutWriteIsAtomic(m: Slots, f: Field, raw: seq<byte>, k: nat)
    requires SlotOk(m.Get(TargetIsA(ActiveOf(m)))) && |raw| == Length(f) && k <= 128 && NoAccident(m, f, raw, k)
    ensures OldOrNew(m, f, raw, k)
    ensures Sound(m) ==> Sound(CutOff(m, f, raw, k))
  {
    var active := ActiveOf(m);
    var stale := m.Get(TargetIsA(active));
    var next := NewRecord(active, f, raw);
    var t := Torn(next, stale, k);
    NewRecordValid(active, f, raw);
    TornOutcome(next, stale, k);
    Choice(m, t);
    if Payload(t) == Payload(next) && t[5] == next[5] {
      SameInfo(t, next);
    }
  }

  /**
   * A complete change puts the other slot in use, with the next number and the new record, exactly as long as there
   * is a higher number; after the highest one it changes nothing that is read.
   */
  lemma WriteTakesEffect(m: Slots, f: Field, raw: seq<byte>)
    requires |raw| == Length(f)
    ensures var active := ActiveOf(m);
      var next := NewRecord(active, f, raw);
      var after := ActiveOf(Written(m, f, raw));
      && (after == Some(Active(TargetIsA(active), next)) <==> Countable(m))
      && (!Countable(m) ==> after == active)
      && (Countable(m) ==> SeqOf(next) == if active.None? then 1 else SeqOf(active.value.data) + 1)
    ensures Sound(m) ==> Sound(Written(m, f, raw))
  {
    NewRecordValid(ActiveOf(m), f, raw);
    Choice(m, NewRecord(ActiveOf(m), f, raw));
  }

  /** Bytes put over part of a sequence stand there, and everything beside them is as it was. */
  lemma OverwrittenParts(s: seq<byte>, o: nat, raw: seq<byte>, p: nat, q: nat)
    requires o + |raw| <= |s| && p <= q <= |s|
    ensures var t := s[..o] + raw + s[o + |raw|..];
      && |t| == |s| && t[o..o + |raw|] == raw
      && (q <= o || o + |raw| <= p ==> t[p..q] == s[p..q])
  {
    var t := s[..o] + raw + s[o + |raw|..];
    if q <= o || o + |raw| <= p {
      assert forall i :: p <= i < q ==> t[i] == s[i];
    }
  }

  lemma PutParts(s: Slot, f: Field, raw: seq<byte>, g: Field)
    requires |raw| == Length(f)
    ensures FieldBytes(Put(s, f, raw), g) == if g == f then raw else FieldBytes(s, g)
    ensures f != Mac ==> Put(s, f, raw)[16] == s[16]
  {
    OverwrittenParts(s, Offset(f), raw, Offset(g), Offset(g) + Length(g));
    if f != Mac {
      OverwrittenParts(s, Offset(f), raw, 16, 17);
      assert Put(s, f, raw)[16..17][0] == s[16..17][0];
    }
  }

  lemma SealedFields(base: Slot, number: uint32, g: Field)
    ensures FieldBytes(Sealed(base, number), g) == FieldBytes(base, g) && Sealed(base, number)[16] == base[16]
  {
    var next := Sealed(base, number);
    SealedParts(base, number);
    FieldInPayload(next, g);
    FieldInPayload(base, g);
  }

  lemma {:induction false} TrimmedBlank(n: nat)
    ensures Trimmed(Blank(n)) == []
  {
    if n != 0 {
      assert Blank(n)[..n - 1] == Blank(n - 1);
      TrimmedBlank(n - 1);
    }
  }

  /** The text of a field whose bytes are `raw` in a record with the right flags. */
  function TextOf(f: Field, raw: seq<byte>): seq<byte>
    requires |raw| == Length(f)
  {
    if f.Mac? then (if raw[0] != 0xFF then MacText(raw) else []) else Trimmed(raw)
  }

  lemma FlaggedText(s: Slot, g: Field)
    requires FlagsOk(s)
    ensures FieldText(s, g) == TextOf(g, FieldBytes(s, g))
  {
    assert FieldBytes(s, Mac)[0] == s[16];
  }

  lemma FieldsAfter(prior: Slot, f: Field, raw: seq<byte>, number: uint32, g: Field)
    requires |raw| == Length(f)
    ensures FieldText(Sealed(Put(prior, f, raw), number), g) == TextOf(g, if g == f then raw else FieldBytes(prior, g))
  {
    var base := Put(prior, f, raw);
    SealedValid(base, number);
    SealedFields(base, number, g);
    PutParts(prior, f, raw, g);
    FlaggedText(Sealed(base, number), g);
  }

  /** What a reader is told about a field, or would be told if there were no record. */
  function Told(active: Option<Active>, g: Field): seq<byte> {
    if active.None? then [] else FieldText(active.value.data, g)
  }

  /**
   * In a new record the field reads as what was written. Every other field reads as before, the address exactly if
   * it was flagged rightly.
   */
  lemma OnlyThatFieldChanges(active: Option<Active>, f: Field, raw: seq<byte>, g: Field)
    requires |raw| == Length(f)
    ensures var text := FieldText(NewRecord(active, f, raw), g);
      if g == f then text == TextOf(f, raw)
      else (text == Told(active, g) <==> (g.Mac? && active.Some? ==> FlagsOk(active.value.data)))
  {
    if active.None? {
      FieldsAfterBlank(f, raw, g);
    } else {
      FieldsAfterRecord(active.value.data, f, raw, NextSeq(SeqOf(active.value.data)), g);
    }
  }

  lemma FieldsAfterRecord(prior: Slot, f: Field, raw: seq<byte>, number: uint32, g: Field)
    requires |raw| == Length(f)
    ensures var text := FieldText(Sealed(Put(prior, f, raw), number), g);
      if g == f then text == TextOf(f, raw) else (text == FieldText(prior, g) <==> (g.Mac? ==> FlagsOk(prior)))
  {
    FieldsAfter(prior, f, raw, number, g);
    if g.Mac? {
      assert FieldBytes(prior, Mac)[0] == prior[16];
      assert |MacText(FieldBytes(prior, Mac))| == 17;
    }
  }

  lemma FieldsAfterBlank(f: Field, raw: seq<byte>, g: Field)
    requires |raw| == Length(f)
    ensures FieldText(Sealed(Put(Blank(128), f, raw), 1), g) == if g == f then TextOf(f, raw) else []
  {
    FieldsAfter(Blank(128), f, raw, 1, g);
    if g != f {
      assert FieldBytes(Blank(128), g) == Blank(Length(g));
      TrimmedBlank(Length(g));
    }
  }

  // ---------------------------------------------------------------------------------------------
  // Whole histories.

  datatype Op =
    | Erase
    | CutErase(k: nat)
    | Change(f: Field, raw: seq<byte>)
    | CutChange(f: Field, raw: seq<byte>, k: nat)

  /** An erasure of the whole storage in one write that is cut off after `k` bytes. */
  function CutErased(m: Slots, k: nat): Slots
    requires k <= 256
  {
    Slots(Torn(Blank(128), m.a, if k < 128 then k else 128), Torn(Blank(128), m.b, if k < 128 then 0 else k - 128))
  }

  /** A change fits its field and, when it is cut off, meets no accident. */
  predicate Fits(m: Slots, op: Op) {
    match op
    case Erase => true
    case CutErase(k) => k <= 256
    case Change(f, raw) => |raw| == Length(f)
    case CutChange(f, raw, k) => |raw| == Length(f) && k <= 128 && NoAccident(m, f, raw, k)
  }

  function Do(m: Slots, op: Op): Slots
    requires Fits(m, op)
  {
    match op
    case Erase => Slots(Blank(128), Blank(128))
    case CutErase(k) => CutErased(m, k)
    case Change(f, raw) => Written(m, f, raw)
    case CutChange(f, raw, k) => CutOff(m, f, raw, k)
  }

  predicate History(m: Slots, ops: seq<Op>)
    decreases ops
  {
    ops == [] || (Fits(m, ops[0]) && History(Do(m, ops[0]), ops[1..]))
  }

  function Replay(m: Slots, ops: seq<Op>): Slots
    requires History(m, ops)
    decreases ops
  {
    if ops == [] then m else Replay(Do(m, ops[0]), ops[1..])
  }

  /** No erasure was cut off. */
  predicate ErasuresComplete(ops: seq<Op>) {
    forall i :: 0 <= i < |ops| ==> !ops[i].CutErase?
  }

  lemma {:induction false} HistoryKeepsSound(m: Slots, ops: seq<Op>)
    requires Sound(m) && History(m, ops) && ErasuresComplete(ops)
    ensures Sound(Replay(m, ops))
    decreases ops
  {
    if ops != [] {
      match ops[0] {
        case Erase => ErasedIsSound();
        case Change(f, raw) => WriteTakesEffect(m, f, raw);
        case CutChange(f, raw, k) => CutWriteIsAtomic(m, f, raw, k);
      }
      HistoryKeepsSound(Do(m, ops[0]), ops[1..]);
    }
  }

  lemma MixedDigits(low: nat, high: nat, low': nat, high': nat, base: nat)
    requires low < base && low' < base && low' + base * high' <= low + base * high
    ensures low + base * high' <= low + base * high
  {
    if high < high' {
      MulMonotone(high + 1, high', base);
      Distribute(high, 1, base);
    } else {
      MulMonotone(high', high, base);
    }
  }

  /** A cut-off number is never above the intended one if the stale one is not. */
  lemma CutNumberIsNotAbove(next: Slot, stale: Slot, k: nat)
    requires k <= 128 && SeqOf(stale) <= SeqOf(next)
    ensures SeqOf(Torn(next, stale, k)) <= SeqOf(next)
  {
    var t := Torn(next, stale, k);
    var a, b, c, d := next[8] as int, next[9] as int, next[10] as int, next[11] as int;
    var a', b', c', d' := stale[8] as int, stale[9] as int, stale[10] as int, stale[11] as int;
    if k <= 8 {
      TornTail(next, stale, k);
    } else if k == 9 {
      assert t[8] == next[8] && t[9] == stale[9] && t[10] == stale[10] && t[11] == stale[11];
      MixedDigits(a, b + 0x100 * c + 0x1_0000 * d, a', b' + 0x100 * c' + 0x1_0000 * d', 0x100);
    } else if k == 10 {
      assert t[8] == next[8] && t[9] == next[9] && t[10] == stale[10] && t[11] == stale[11];
      MixedDigits(a + 0x100 * b, c + 0x100 * d, a' + 0x100 * b', c' + 0x100 * d', 0x1_0000);
    } else if k == 11 {
      assert t[8] == next[8] && t[9] == next[9] && t[10] == next[10] && t[11] == stale[11];
      MixedDigits(a + 0x100 * b + 0x1_0000 * c, d, a' + 0x100 * b' + 0x1_0000 * c', d', 0x100_0000);
    } else {
      assert t[8] == next[8] && t[9] == next[9] && t[10] == next[10] && t[11] == next[11];
    }
  }

  /** Nothing can collide when the new payload differs from the stale one in two neighbouring bytes at most. */
  lemma SmallChangeNeverCollides(next: Slot, stale: Slot, k: nat, at: nat)
    requires k <= 128 && SlotValid(next) && SlotValid(stale) && 16 <= at <= 126
    requires forall i :: 16 <= i < 128 && i != at && i != at + 1 ==> next[i] == stale[i]
    ensures !Collides(next, stale, k)
  {
    var t := Torn(next, stale, k);
    var head, tail := next[16..at], next[at + 2..];
    var u, v := next[at..at + 2], t[at..at + 2];
    assert Payload(next) == head + u + tail;
    assert Payload(t) == head + v + tail by {
      assert forall i :: 16 <= i < 128 && i != at && i != at + 1 ==> t[i] == next[i];
    }
    if u != v {
      AdjacentBytesDetected(head, u, v, tail);
    }
  }
}
