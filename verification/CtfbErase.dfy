/**
 * Power-fail safety of the factory record when erasures may be cut off as well. An erasure that stops within the
 * header of a record leaves a sleeping one: its checksum still matches and only its mark is gone. The next change
 * writes the mark back first, and if it stops there the erased record is in use again.
 */
module CtfbErase {
  import opened Bits
  import opened Options
  import opened BlankChecksum
  import opened Ctfb
  import opened CtfbSafety
  import opened CtfbStore

  function Target(m: Slots): Slot {
    m.Get(TargetIsA(ActiveOf(m)))
  }

  /** What an erasure cut off in a slot leaves there: a sleeping record within the header, else only by accident. */
  lemma CutEraseLeaves(s: Slot, k: nat)
    requires SlotOk(s) && k <= 128
    ensures var t := Torn(Blank(128), s, k);
      SlotOk(t) <==> k == 0 || (if k <= 6 then !SlotValid(s) else !Checks(t))
  {
    var t := Torn(Blank(128), s, k);
    if k == 0 {
      assert t == s;
    } else {
      assert t[..4][0] == 0xFF;
      if k <= 6 {
        TornTail(Blank(128), s, k);
        TornHeader(Blank(128), s, k);
      }
    }
  }

  /** The target holds a record without its mark that would be in use if it had one. */
  predicate Sleeper(m: Slots) {
    Checks(Target(m)) && !Marked(Target(m)) && Wins(ActiveOf(m), SeqOf(Target(m)))
  }

  /** The slot with its mark. */
  function Woken(s: Slot): Slot {
    MAGIC + [1] + s[5..]
  }

  /** The sleeping record tells a reader exactly what the one in use does, an address included. */
  predicate Alike(m: Slots) {
    && ActiveOf(m).Some? && FlagsOk(ActiveOf(m).value.data)
    && InfoOf(Woken(Target(m))) == InfoOf(ActiveOf(m).value.data) && InfoOf(Woken(Target(m))).mac != []
  }

  /** Every change that is cut off without an accident leaves the old record or the new one to be read. */
  ghost predicate CutsAreAtomic(m: Slots) {
    forall f, raw: seq<byte>, k: nat ::
      |raw| == Length(f) && k <= 128 && NoAccident(m, f, raw, k) ==> OldOrNew(m, f, raw, k)
  }

  // ---------------------------------------------------------------------------------------------
  // What a cut change makes of a sleeping record.

  lemma WokenParts(s: Slot)
    ensures Marked(Woken(s)) && Payload(Woken(s)) == Payload(s) && SeqOf(Woken(s)) == SeqOf(s)
    ensures Woken(s)[5] == s[5] && (Checks(Woken(s)) <==> Checks(s))
  {
    var t := Woken(s);
    assert t[..4] == MAGIC;
    assert t[5..] == s[5..];
    assert forall i :: 5 <= i < 128 ==> t[i] == t[5..][i - 5] == s[i];
    assert t[16..] == t[5..][11..] && s[16..] == s[5..][11..];
  }

  /** The record again, or with the flags of the new one, or the new one. */
  lemma TornSleeper(next: Slot, stale: Slot, k: nat)
    requires k <= 128 && SlotValid(next) && Checks(stale) && !Collides(next, stale, k)
      && SlotValid(Torn(next, stale, k))
    ensures var t := Torn(next, stale, k);
      if k <= 5 then t == Woken(stale)
      else if k < 8 then t[5] == next[5] && Payload(t) == Payload(stale) && SeqOf(t) == SeqOf(stale)
      else t[5] == next[5] && Payload(t) == Payload(next)
  {
    var t := Torn(next, stale, k);
    TornHeader(next, stale, k);
    if k <= 8 {
      TornTail(next, stale, k);
    }
    if k <= 5 {
      assert t[..5] == MAGIC + [1];
      assert t == t[..5] + t[5..] && t[5..] == stale[5..];
    }
  }

  lemma WakesAtFive(next: Slot, stale: Slot)
    requires SlotValid(next) && Checks(stale)
    ensures Torn(next, stale, 5) == Woken(stale) && SlotValid(Woken(stale))
  {
    WokenParts(stale);
    assert next[..5] == MAGIC + [1];
  }

  lemma WakesAtSix(next: Slot, stale: Slot)
    requires SlotValid(next) && Checks(stale)
    ensures var t := Torn(next, stale, 6);
      SlotValid(t) && t[5] == next[5] && Payload(t) == Payload(stale) && SeqOf(t) == SeqOf(stale)
  {
    TornHeader(next, stale, 6);
    TornTail(next, stale, 6);
  }

  // ---------------------------------------------------------------------------------------------
  // No harm without a sleeping record.

  lemma MacTextLength(raw: seq<byte>)
    requires |raw| == 6
    ensures |MacText(raw)| == 17 && MacText(raw)[..2] == HexPair(raw[0])
  {
  }

  /** The texts of a record depend on its payload and, for the address, on one flag. */
  lemma SamePayload(s: Slot, t: Slot, g: Field)
    requires Payload(s) == Payload(t)
    ensures FieldBytes(s, g) == FieldBytes(t, g) && s[16] == t[16]
    ensures g != Mac || MacFlag(s) == MacFlag(t) ==> FieldText(s, g) == FieldText(t, g)
  {
    FieldInPayload(s, g);
    FieldInPayload(t, g);
  }

  lemma SameTexts(s: Slot, t: Slot)
    requires forall g: Field :: FieldText(s, g) == FieldText(t, g)
    ensures InfoOf(s) == InfoOf(t)
  {
    assert FieldText(s, Mac) == FieldText(t, Mac) && FieldText(s, Sn) == FieldText(t, Sn);
    assert FieldText(s, Pn) == FieldText(t, Pn) && FieldText(s, Batch) == FieldText(t, Batch);
    assert FieldText(s, HwRev) == FieldText(t, HwRev);
  }

  lemma TextsOfInfo(s: Slot, t: Slot, g: Field)
    requires InfoOf(s) == InfoOf(t)
    ensures FieldText(s, g) == FieldText(t, g)
  {
  }

  /** A sleeping record with the flags of the new one, if it tells what the one in use does: old or new again. */
  lemma AlikeWithNewFlags(a: Active, stale: Slot, t: Slot, f: Field, raw: seq<byte>)
    requires |raw| == Length(f) && FlagsOk(a.data) && InfoOf(stale) == InfoOf(a.data) && InfoOf(stale).mac != []
    requires Payload(t) == Payload(stale) && t[5] == NewRecord(Some(a), f, raw)[5]
    ensures InfoOf(t) == InfoOf(a.data) || InfoOf(t) == InfoOf(NewRecord(Some(a), f, raw))
  {
    var next := NewRecord(Some(a), f, raw);
    NewRecordValid(Some(a), f, raw);
    if MacFlag(next) {
      forall g: Field
        ensures FieldText(t, g) == FieldText(a.data, g)
      {
        SamePayload(t, stale, g);
        TextsOfInfo(stale, a.data, g);
      }
      SameTexts(t, a.data);
    } else {
      FlagCleared(a, f, raw);
      forall g: Field
        ensures FieldText(t, g) == FieldText(next, g)
      {
        SamePayload(t, stale, g);
        TextsOfInfo(stale, a.data, g);
        OnlyThatFieldChanges(Some(a), f, raw, g);
      }
      SameTexts(t, next);
    }
  }

  /** Only a new address can clear the flag of a record that rightly has it. */
  lemma FlagCleared(a: Active, f: Field, raw: seq<byte>)
    requires |raw| == Length(f) && FlagsOk(a.data) && MacFlag(a.data) && !MacFlag(NewRecord(Some(a), f, raw))
    ensures f == Mac
  {
    NewRecordValid(Some(a), f, raw);
    SealedFields(Put(a.data, f, raw), NextSeq(SeqOf(a.data)), Mac);
    PutParts(a.data, f, raw, Mac);
  }

  lemma HarmlessSleeper(m: Slots, f: Field, raw: seq<byte>, k: nat)
    requires |raw| == Length(f) && k <= 128 && NoAccident(m, f, raw, k)
    requires Checks(Target(m)) && (Sleeper(m) ==> Alike(m))
    ensures OldOrNew(m, f, raw, k)
  {
    var active := ActiveOf(m);
    var next := NewRecord(active, f, raw);
    var t := Torn(next, Target(m), k);
    Choice(m, t);
    if SlotValid(t) && Wins(active, SeqOf(t)) {
      NewRecordValid(active, f, raw);
      TornSleeper(next, Target(m), k);
      if k >= 8 {
        SameInfo(t, next);
      } else {
        WokenParts(Target(m));
        Choice(m, Target(m));
        assert Sleeper(m);
        if k > 5 {
          AlikeWithNewFlags(active.value, Woken(Target(m)), t, f, raw);
        }
      }
    }
  }

  // ---------------------------------------------------------------------------------------------
  // Harm with one.

  /** A serial number of one digit. */
  function Digit(c: byte): (raw: seq<byte>)
    ensures |raw| == Length(Sn)
  {
    [c] + Blank(31)
  }

  lemma DigitText(c: byte)
    requires c != 0 && c != 0xFF
    ensures TextOf(Sn, Digit(c)) == [c]
  {
    TrimmedFilled([c], 31);
  }

  /** A digit that is not the given text. */
  function Unlike(text: seq<byte>): byte {
    if text == [0x30] then 0x31 else 0x30
  }

  /** A change cut off within the flags shows neither the old nor the new record. */
  lemma ShowsNeither(m: Slots, f: Field, raw: seq<byte>, k: nat, t: Slot)
    requires |raw| == Length(f) && k <= 6 && t == Torn(NewRecord(ActiveOf(m), f, raw), Target(m), k)
    requires SlotValid(t) && Wins(ActiveOf(m), SeqOf(t))
    requires ReadInfo(m) != Ok(InfoOf(t)) && InfoOf(t) != InfoOf(NewRecord(ActiveOf(m), f, raw))
    ensures !CutsAreAtomic(m)
  {
    Choice(m, t);
    assert NoAccident(m, f, raw, k) && !OldOrNew(m, f, raw, k);
  }

  lemma WakesForeign(m: Slots)
    requires Sleeper(m) && ReadInfo(m) != Ok(InfoOf(Woken(Target(m))))
    ensures !CutsAreAtomic(m)
  {
    var active := ActiveOf(m);
    var woken := Woken(Target(m));
    var c := Unlike(FieldText(woken, Sn));
    NewRecordValid(active, Sn, Digit(c));
    WakesAtFive(NewRecord(active, Sn, Digit(c)), Target(m));
    WokenParts(Target(m));
    DigitText(c);
    OnlyThatFieldChanges(active, Sn, Digit(c), Sn);
    ShowsNeither(m, Sn, Digit(c), 5, woken);
  }

  /** A flagged address that starts with another octet reads otherwise, and not as empty. */
  lemma OtherAddress(t: Slot, raw: seq<byte>)
    requires |raw| == 6 && MacFlag(t) && raw[0] != t[16]
    ensures FieldText(t, Mac) != MacText(raw) && FieldText(t, Mac) != []
  {
    var shown := FieldBytes(t, Mac);
    assert shown[0] == t[16];
    MacTextLength(raw);
    MacTextLength(shown);
    HexPairReads(raw[0]);
    HexPairReads(shown[0]);
  }

  lemma WakesUnaddressed(m: Slots)
    requires Sleeper(m) && ReadInfo(m) == Ok(InfoOf(Woken(Target(m)))) && InfoOf(Woken(Target(m))).mac == []
    ensures !CutsAreAtomic(m)
  {
    var active := ActiveOf(m);
    var stale := Target(m);
    var raw: seq<byte> := [if stale[16] == 0 then 1 else 0, 0, 0, 0, 0, 0];
    var t := Torn(NewRecord(active, Mac, raw), stale, 6);
    NewRecordValid(active, Mac, raw);
    OnlyThatFieldChanges(active, Mac, raw, Mac);
    WakesAtSix(NewRecord(active, Mac, raw), stale);
    SamePayload(t, stale, Mac);
    AddressFlags(active, raw);
    OtherAddress(t, raw);
    ShowsNeither(m, Mac, raw, 6, t);
  }

  lemma AddressFlags(active: Option<Active>, raw: seq<byte>)
    requires |raw| == 6 && raw[0] != 0xFF
    ensures MacFlag(NewRecord(active, Mac, raw))
  {
    NewRecordValid(active, Mac, raw);
    OnlyThatFieldChanges(active, Mac, raw, Mac);
    MacTextLength(raw);
  }

  lemma WakesMisflagged(m: Slots)
    requires Sleeper(m) && ReadInfo(m) == Ok(InfoOf(Woken(Target(m)))) && InfoOf(Woken(Target(m))).mac != []
    requires !FlagsOk(ActiveOf(m).value.data)
    ensures !CutsAreAtomic(m)
  {
    var active := ActiveOf(m);
    var stale := Target(m);
    var woken := Woken(stale);
    var c := Unlike(FieldText(woken, Sn));
    var next := NewRecord(active, Sn, Digit(c));
    var t := Torn(next, stale, 6);
    NewRecordValid(active, Sn, Digit(c));
    WakesAtSix(next, stale);
    WokenParts(stale);
    SamePayload(t, woken, Sn);
    DigitText(c);
    OnlyThatFieldChanges(active, Sn, Digit(c), Sn);
    SealedFields(Put(active.value.data, Sn, Digit(c)), NextSeq(SeqOf(active.value.data)), Mac);
    PutParts(active.value.data, Sn, Digit(c), Mac);
    assert !MacFlag(next);
    ShowsNeither(m, Sn, Digit(c), 6, t);
  }

  /**
   * In any store whatever, every change that is cut off leaves the old record or the new one, accidents aside,
   * exactly unless the target holds a sleeping record that would be in use and tells something else.
   */
  lemma AtomicIff(m: Slots)
    ensures CutsAreAtomic(m) <==> (Sleeper(m) ==> Alike(m))
  {
    if Sleeper(m) && !Alike(m) {
      if ReadInfo(m) != Ok(InfoOf(Woken(Target(m)))) {
        WakesForeign(m);
      } else if InfoOf(Woken(Target(m))).mac == [] {
        WakesUnaddressed(m);
      } else {
        WakesMisflagged(m);
      }
    } else {
      forall f, raw: seq<byte>, k: nat | |raw| == Length(f) && k <= 128 && NoAccident(m, f, raw, k)
        ensures OldOrNew(m, f, raw, k)
      {
        if SlotOk(Target(m)) {
          CutWriteIsAtomic(m, f, raw, k);
        } else {
          HarmlessSleeper(m, f, raw, k);
        }
      }
    }
  }

  /**
   * After any history of erasures and changes, complete or cut off, from an erased store: the next change that is cut
   * off leaves the old record or the new one exactly unless a sleeping record tells something else; and if no erasure
   * was cut off there is none.
   */
  lemma PowerFailSafe(ops: seq<Op>)
    requires History(Erased(), ops)
    ensures var m := Replay(Erased(), ops);
      && (CutsAreAtomic(m) <==> (Sleeper(m) ==> Alike(m)))
      && (ErasuresComplete(ops) ==> CutsAreAtomic(m))
  {
    var m := Replay(Erased(), ops);
    AtomicIff(m);
    if ErasuresComplete(ops) {
      ErasedIsSound();
      HistoryKeepsSound(Erased(), ops);
    }
  }

  // ---------------------------------------------------------------------------------------------
  // An erased record that comes back.

  /**
   * Both slots hold records and A the newer one. An erasure cut off after three bytes leaves the older one in use, and
   * a change cut off after five bytes brings back the one that was to be erased.
   */
  lemma ErasedRecordReturns(m: Slots, f: Field, raw: seq<byte>)
    requires SlotValid(m.a) && SlotValid(m.b) && SeqOf(m.a) > SeqOf(m.b) && |raw| == Length(f)
    ensures var cut := CutErased(m, 3);
      && ReadInfo(m) == Ok(InfoOf(m.a)) && ReadInfo(cut) == Ok(InfoOf(m.b))
      && NoAccident(cut, f, raw, 5) && ReadInfo(CutOff(cut, f, raw, 5)) == Ok(InfoOf(m.a))
  {
    var cut := CutErased(m, 3);
    assert cut.b == m.b;
    CutEraseLeaves(m.a, 3);
    TornHeader(Blank(128), m.a, 3);
    TornTail(Blank(128), m.a, 3);
    assert cut.a[..4][0] == 0xFF;
    assert ActiveOf(cut) == Some(Active(false, m.b));
    NewRecordValid(ActiveOf(cut), f, raw);
    WakesAtFive(NewRecord(ActiveOf(cut), f, raw), cut.a);
    WokenParts(cut.a);
    Choice(cut, Woken(cut.a));
    assert cut.a[5] == m.a[5];
    SameInfo(Woken(cut.a), m.a);
  }

  /** A serial number of one digit set in a store that still counts. */
  lemma DigitSet(m: Slots, c: byte)
    requires Countable(m) && c != 0 && c != 0xFF
    ensures var next := NewRecord(ActiveOf(m), Sn, Digit(c));
      var m' := Do(m, Change(Sn, Digit(c)));
      && m' == m.With(TargetIsA(ActiveOf(m)), next) && ActiveOf(m') == Some(Active(TargetIsA(ActiveOf(m)), next))
      && SlotValid(next) && FieldText(next, Sn) == [c]
      && SeqOf(next) == if ActiveOf(m).None? then 1 else SeqOf(ActiveOf(m).value.data) + 1
  {
    NewRecordValid(ActiveOf(m), Sn, Digit(c));
    WriteTakesEffect(m, Sn, Digit(c));
    DigitText(c);
    OnlyThatFieldChanges(ActiveOf(m), Sn, Digit(c), Sn);
  }

  /** Three serial numbers set one after the other leave the third in slot A and the second in slot B. */
  lemma ThreeSet(m1: Slots, m2: Slots, m3: Slots)
    requires m1 == Do(Erased(), Change(Sn, Digit(0x31)))
    requires m2 == Do(m1, Change(Sn, Digit(0x32)))
    requires m3 == Do(m2, Change(Sn, Digit(0x33)))
    ensures SlotValid(m3.a) && SlotValid(m3.b) && SeqOf(m3.a) > SeqOf(m3.b)
    ensures FieldText(m3.a, Sn) == [0x33] && FieldText(m3.b, Sn) == [0x32]
  {
    ErasedIsSound();
    DigitSet(Erased(), 0x31);
    DigitSet(m1, 0x32);
    DigitSet(m2, 0x33);
  }

  /** Setting the number 4 is cut off: before it the number reads 2 and after it 3, neither the old nor the new one. */
  predicate Returns(m: Slots) {
    && NoAccident(m, Sn, Digit(0x34), 5)
    && Told(ActiveOf(m), Sn) == [0x32] && Told(ActiveOf(CutOff(m, Sn, Digit(0x34), 5)), Sn) == [0x33]
    && FieldText(NewRecord(ActiveOf(m), Sn, Digit(0x34)), Sn) == [0x34]
  }

  lemma NumberReturns(m: Slots)
    requires SlotValid(m.a) && SlotValid(m.b) && SeqOf(m.a) > SeqOf(m.b)
    requires FieldText(m.a, Sn) == [0x33] && FieldText(m.b, Sn) == [0x32]
    ensures Returns(CutErased(m, 3))
  {
    ErasedRecordReturns(m, Sn, Digit(0x34));
    DigitText(0x34);
    OnlyThatFieldChanges(ActiveOf(CutErased(m, 3)), Sn, Digit(0x34), Sn);
  }

  lemma ReturnsIsNotAtomic(m: Slots)
    requires Returns(m)
    ensures !CutsAreAtomic(m)
  {
    assert !OldOrNew(m, Sn, Digit(0x34), 5);
  }

  /** The serial numbers 1, 2 and 3 are set and an erasure is cut off after three bytes. */
  lemma ErasedNumberReturns() returns (ops: seq<Op>)
    ensures History(Erased(), ops) && Returns(Replay(Erased(), ops)) && !CutsAreAtomic(Replay(Erased(), ops))
  {
    ops := [Change(Sn, Digit(0x31)), Change(Sn, Digit(0x32)), Change(Sn, Digit(0x33)), CutErase(3)];
    var m1 := Do(Erased(), ops[0]);
    var m2 := Do(m1, ops[1]);
    var m3 := Do(m2, ops[2]);
    FourSteps(Erased(), ops);
    ThreeSet(m1, m2, m3);
    NumberReturns(m3);
    ReturnsIsNotAtomic(CutErased(m3, 3));
  }

  lemma FourSteps(m: Slots, ops: seq<Op>)
    requires |ops| == 4 && Fits(m, ops[0]) && Fits(Do(m, ops[0]), ops[1]) && Fits(Do(Do(m, ops[0]), ops[1]), ops[2])
    requires Fits(Do(Do(Do(m, ops[0]), ops[1]), ops[2]), ops[3])
    ensures History(m, ops) && Replay(m, ops) == Do(Do(Do(Do(m, ops[0]), ops[1]), ops[2]), ops[3])
  {
    assert ops[1..][1..] == ops[2..] && ops[2..][1..] == ops[3..] && ops[3..][1..] == [];
    var m1 := Do(m, ops[0]);
    var m2 := Do(m1, ops[1]);
    var m3 := Do(m2, ops[2]);
    assert History(m3, ops[3..]) && Replay(m3, ops[3..]) == Do(m3, ops[3]);
    assert History(m2, ops[2..]) && Replay(m2, ops[2..]) == Replay(m3, ops[3..]);
    assert History(m1, ops[1..]) && Replay(m1, ops[1..]) == Replay(m2, ops[2..]);
  }
}
