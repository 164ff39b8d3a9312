/**
 * Changes by a set that cannot read one of the slots. If it is the slot in use, the set goes by the other one: it takes
 * an older record for the one in use and overwrites the newer one, or finds no record and starts from a blank one.
 */
module CtfbUnread {
  import opened Bits
  import opened Crc16
  import opened Options
  import opened BlankChecksum
  import opened Ctfb
  import opened CtfbSafety
  import opened CtfbStore
  import opened CtfbErase

  /** The record the set takes for the one in use. */
  function Seen(m: Slots, okA: bool, okB: bool): Option<Active> {
    Usable(ReadActive(m, okA, okB))
  }

  /** The slot it writes. */
  function Struck(m: Slots, seen: Option<Active>): Slot {
    m.Get(TargetIsA(seen))
  }

  /** The store shows the old record or the one being written. */
  predicate OldOrWritten(m: Slots, okA: bool, okB: bool, f: Field, raw: seq<byte>, k: nat)
    requires |raw| == Length(f) && k <= 128
  {
    var now := ReadInfo(CutSeen(m, okA, okB, f, raw, k));
    now == ReadInfo(m) || now == Ok(InfoOf(NewRecord(Seen(m, okA, okB), f, raw)))
  }

  predicate NoAccidentSeen(m: Slots, okA: bool, okB: bool, f: Field, raw: seq<byte>, k: nat)
    requires |raw| == Length(f) && k <= 128
  {
    var seen := Seen(m, okA, okB);
    !Collides(NewRecord(seen, f, raw), Struck(m, seen), k)
  }

  /** Every set with these reads that is cut off without an accident leaves the old record or its own to be read. */
  ghost predicate SetsAreAtomic(m: Slots, okA: bool, okB: bool) {
    forall f, raw: seq<byte>, k: nat ::
      |raw| == Length(f) && k <= 128 && NoAccidentSeen(m, okA, okB, f, raw, k) ==> OldOrWritten(m, okA, okB, f, raw, k)
  }

  /** The record that is seen tells exactly what the one in use does, an address included. */
  predicate TellsTheSame(seen: Slot, used: Slot) {
    FlagsOk(seen) && InfoOf(used) == InfoOf(seen) && InfoOf(used).mac != []
  }

  // ---------------------------------------------------------------------------------------------
  // An older record is seen.

  /** Another record than the one in use can be seen only if that one cannot be read; then it is the one written to. */
  lemma OlderSeen(m: Slots, okA: bool, okB: bool)
    requires (okA || okB) && Seen(m, okA, okB) != ActiveOf(m)
    ensures var seen, active := Seen(m, okA, okB), ActiveOf(m);
      && active.Some? && ReadInfo(m) == Ok(InfoOf(active.value.data)) && SlotValid(active.value.data)
      && m.Get(active.value.inA) == active.value.data
      && (if active.value.inA then !okA && okB else okA && !okB)
      && (seen.Some? ==>
            && seen.value.inA == !active.value.inA && m.Get(seen.value.inA) == seen.value.data
            && SlotValid(seen.value.data) && Wins(seen, SeqOf(active.value.data))
            && Struck(m, seen) == active.value.data)
      && (seen.None? ==> !SlotValid(m.Get(!active.value.inA)))
  {
  }

  /** Which slot is in use once the other one holds `t`. */
  lemma ChoiceBeside(m: Slots, seen: Active, t: Slot)
    requires SlotValid(seen.data) && m.Get(seen.inA) == seen.data
    ensures ActiveOf(m.With(!seen.inA, t)) ==
      if SlotValid(t) && Wins(Some(seen), SeqOf(t)) then Some(Active(!seen.inA, t)) else Some(seen)
  {
  }

  lemma InfoOfActive(m: Slots)
    ensures ReadInfo(m) == match ActiveOf(m) case Some(a) => Ok(InfoOf(a.data)) case None => Err(NotFound)
  {
  }

  /** What is read after a cut-off set that saw an older record. */
  lemma ReadBeside(m: Slots, okA: bool, okB: bool, f: Field, raw: seq<byte>, k: nat)
    requires (okA || okB) && Seen(m, okA, okB) != ActiveOf(m) && Seen(m, okA, okB).Some?
    requires |raw| == Length(f) && k <= 128
    ensures var seen := Seen(m, okA, okB);
      var t := Torn(NewRecord(seen, f, raw), ActiveOf(m).value.data, k);
      ReadInfo(CutSeen(m, okA, okB, f, raw, k)) ==
        Ok(InfoOf(if SlotValid(t) && Wins(seen, SeqOf(t)) then t else seen.value.data))
  {
    OlderSeen(m, okA, okB);
    var seen := Seen(m, okA, okB);
    ChoiceBeside(m, seen.value, Torn(NewRecord(seen, f, raw), ActiveOf(m).value.data, k));
    InfoOfActive(CutSeen(m, okA, okB, f, raw, k));
  }

  lemma SameRecordIsAtomic(m: Slots, okA: bool, okB: bool, f: Field, raw: seq<byte>, k: nat)
    requires (okA || okB) && Seen(m, okA, okB) != ActiveOf(m) && Seen(m, okA, okB).Some?
    requires TellsTheSame(Seen(m, okA, okB).value.data, ActiveOf(m).value.data)
    requires |raw| == Length(f) && k <= 128 && NoAccidentSeen(m, okA, okB, f, raw, k)
    ensures OldOrWritten(m, okA, okB, f, raw, k)
  {
    OlderSeen(m, okA, okB);
    ReadBeside(m, okA, okB, f, raw, k);
    var seen, used := Seen(m, okA, okB), ActiveOf(m).value.data;
    var next := NewRecord(seen, f, raw);
    var t := Torn(next, used, k);
    if SlotValid(t) && Wins(seen, SeqOf(t)) {
      NewRecordValid(seen, f, raw);
      OverSameRecord(seen.value, used, f, raw, k);
    }
  }

  lemma OverSameRecord(seen: Active, used: Slot, f: Field, raw: seq<byte>, k: nat)
    requires |raw| == Length(f) && k <= 128 && SlotValid(used) && TellsTheSame(seen.data, used)
    requires var next := NewRecord(Some(seen), f, raw);
      SlotValid(next) && !Collides(next, used, k) && SlotValid(Torn(next, used, k))
    ensures var next := NewRecord(Some(seen), f, raw);
      var t := Torn(next, used, k);
      InfoOf(t) == InfoOf(used) || InfoOf(t) == InfoOf(next)
  {
    var next := NewRecord(Some(seen), f, raw);
    var t := Torn(next, used, k);
    TornSleeper(next, used, k);
    if k <= 5 {
      WokenParts(used);
      SameInfo(t, used);
    } else if k < 8 {
      AlikeWithNewFlags(seen, used, t, f, raw);
    } else {
      SameInfo(t, next);
    }
  }

  // ---------------------------------------------------------------------------------------------
  // A digit whose record does not pass for a given payload.

  /** The payload of a record whose serial number is set to a digit. */
  lemma DigitPayload(base: Slot, number: uint32, c: byte)
    ensures Payload(Sealed(Put(base, Sn, Digit(c)), number)) == base[16..24] + [c] + (Blank(31) + base[56..])
  {
    SealedParts(Put(base, Sn, Digit(c)), number);
    DigitInSlot(base, Digit(c), c);
  }

  lemma DigitInSlot(base: Slot, raw: seq<byte>, c: byte)
    requires raw == [c] + Blank(31)
    ensures Payload(Put(base, Sn, raw)) == base[16..24] + [c] + (Blank(31) + base[56..])
  {
    var s := base[..24] + raw + base[56..];
    assert Put(base, Sn, raw) == s;
    assert s[16..] == base[16..24] + raw + base[56..];
  }

  lemma DigitsDiffer(seen: Option<Active>, c: byte, d: byte)
    requires c != d
    ensures Crc(Payload(NewRecord(seen, Sn, Digit(c)))) != Crc(Payload(NewRecord(seen, Sn, Digit(d))))
  {
    var base: Slot := if seen.None? then Blank(128) else seen.value.data;
    var number: uint32 := if seen.None? then 1 else NextSeq(SeqOf(seen.value.data));
    DigitPayload(base, number, c);
    DigitPayload(base, number, d);
    AdjacentBytesDetected(base[16..24], [c], [d], Blank(31) + base[56..]);
  }

  /** A digit other than the given text whose record has another checksum than the given one. */
  lemma DigitApart(seen: Option<Active>, text: seq<byte>, crc: word) returns (c: byte)
    ensures 0x30 <= c <= 0x32 && [c] != text && Crc(Payload(NewRecord(seen, Sn, Digit(c)))) != crc
  {
    DigitsDiffer(seen, 0x30, 0x31);
    DigitsDiffer(seen, 0x30, 0x32);
    DigitsDiffer(seen, 0x31, 0x32);
    c := 0x30;
    if [c] == text || Crc(Payload(NewRecord(seen, Sn, Digit(c)))) == crc {
      c := 0x31;
      if [c] == text || Crc(Payload(NewRecord(seen, Sn, Digit(c)))) == crc {
        c := 0x32;
      }
    }
  }

  /** Cut behind its checksum, over another payload, a record is none, and not by accident. */
  lemma CutBehindChecksum(next: Slot, stale: Slot)
    requires SlotValid(next) && Crc(Payload(stale)) != Crc(Payload(next))
    ensures !Checks(Torn(next, stale, 8)) && !Collides(next, stale, 8)
  {
    TornHeader(next, stale, 8);
    TornTail(next, stale, 8);
  }

  lemma OtherNumber(seen: Option<Active>, c: byte, t: Slot)
    requires c != 0 && c != 0xFF && FieldText(t, Sn) != [c]
    ensures InfoOf(t) != InfoOf(NewRecord(seen, Sn, Digit(c)))
  {
    DigitText(c);
    OnlyThatFieldChanges(seen, Sn, Digit(c), Sn);
  }

  /** A record with the payload of another one and the flags of a new address shows neither no address nor that one. */
  lemma OtherOctet(seen: Option<Active>, raw: seq<byte>, used: Slot, t: Slot)
    requires |raw| == 6 && raw[0] != 0xFF && raw[0] != used[16]
    requires Payload(t) == Payload(used) && t[5] == NewRecord(seen, Mac, raw)[5]
    ensures InfoOf(t).mac != [] && InfoOf(t) != InfoOf(NewRecord(seen, Mac, raw))
  {
    AddressFlags(seen, raw);
    OnlyThatFieldChanges(seen, Mac, raw, Mac);
    SamePayload(t, used, Mac);
    OtherAddress(t, raw);
  }

  /** A cut-off set that shows anything but the old record and its own. */
  lemma ShowsOther(m: Slots, okA: bool, okB: bool, f: Field, raw: seq<byte>, k: nat, t: Slot)
    requires |raw| == Length(f) && k <= 128 && NoAccidentSeen(m, okA, okB, f, raw, k)
    requires ReadInfo(CutSeen(m, okA, okB, f, raw, k)) == Ok(InfoOf(t))
    requires ReadInfo(m) != Ok(InfoOf(t)) && InfoOf(t) != InfoOf(NewRecord(Seen(m, okA, okB), f, raw))
    ensures !SetsAreAtomic(m, okA, okB)
  {
    NeitherShown(m, okA, okB, f, raw, k, InfoOf(t));
    NotAtomic(m, okA, okB, f, raw, k);
  }

  lemma NeitherShown(m: Slots, okA: bool, okB: bool, f: Field, raw: seq<byte>, k: nat, info: Info)
    requires |raw| == Length(f) && k <= 128 && ReadInfo(CutSeen(m, okA, okB, f, raw, k)) == Ok(info)
    requires ReadInfo(m) != Ok(info) && info != InfoOf(NewRecord(Seen(m, okA, okB), f, raw))
    ensures !OldOrWritten(m, okA, okB, f, raw, k)
  {
  }

  lemma NotAtomic(m: Slots, okA: bool, okB: bool, f: Field, raw: seq<byte>, k: nat)
    requires |raw| == Length(f) && k <= 128
    requires NoAccidentSeen(m, okA, okB, f, raw, k) && !OldOrWritten(m, okA, okB, f, raw, k)
    ensures !SetsAreAtomic(m, okA, okB)
  {
  }

  // ---------------------------------------------------------------------------------------------
  // Harm when an older record is seen.

  lemma OlderComesBack(m: Slots, okA: bool, okB: bool) returns (c: byte)
    requires (okA || okB) && Seen(m, okA, okB) != ActiveOf(m) && Seen(m, okA, okB).Some?
    requires InfoOf(Seen(m, okA, okB).value.data) != InfoOf(ActiveOf(m).value.data)
    ensures 0x30 <= c <= 0x32 && NoAccidentSeen(m, okA, okB, Sn, Digit(c), 8)
    ensures ReadInfo(CutSeen(m, okA, okB, Sn, Digit(c), 8)) == Ok(InfoOf(Seen(m, okA, okB).value.data))
    ensures !OldOrWritten(m, okA, okB, Sn, Digit(c), 8)
  {
    OlderSeen(m, okA, okB);
    var seen, used := Seen(m, okA, okB), ActiveOf(m).value.data;
    c := DigitApart(seen, FieldText(seen.value.data, Sn), Crc(Payload(used)));
    NewRecordValid(seen, Sn, Digit(c));
    CutBehindChecksum(NewRecord(seen, Sn, Digit(c)), used);
    ReadBeside(m, okA, okB, Sn, Digit(c), 8);
    OtherNumber(seen, c, seen.value.data);
  }

  /** A set cut off behind the flags shows the record in use with the flags of the new one. */
  lemma FlagsOverUsed(m: Slots, okA: bool, okB: bool, f: Field, raw: seq<byte>) returns (t: Slot)
    requires (okA || okB) && Seen(m, okA, okB) != ActiveOf(m) && Seen(m, okA, okB).Some? && |raw| == Length(f)
    ensures NoAccidentSeen(m, okA, okB, f, raw, 6) && ReadInfo(CutSeen(m, okA, okB, f, raw, 6)) == Ok(InfoOf(t))
    ensures Payload(t) == Payload(ActiveOf(m).value.data) && t[5] == NewRecord(Seen(m, okA, okB), f, raw)[5]
  {
    OlderSeen(m, okA, okB);
    var seen, used := Seen(m, okA, okB), ActiveOf(m).value.data;
    t := Torn(NewRecord(seen, f, raw), used, 6);
    NewRecordValid(seen, f, raw);
    WakesAtSix(NewRecord(seen, f, raw), used);
    ReadBeside(m, okA, okB, f, raw, 6);
  }

  lemma UsedUnaddressed(m: Slots, okA: bool, okB: bool)
    requires (okA || okB) && Seen(m, okA, okB) != ActiveOf(m) && Seen(m, okA, okB).Some?
    requires InfoOf(ActiveOf(m).value.data).mac == []
    ensures !SetsAreAtomic(m, okA, okB)
  {
    OlderSeen(m, okA, okB);
    var seen, used := Seen(m, okA, okB), ActiveOf(m).value.data;
    var raw: seq<byte> := [if used[16] == 0 then 1 else 0, 0, 0, 0, 0, 0];
    var t := FlagsOverUsed(m, okA, okB, Mac, raw);
    OtherOctet(seen, raw, used, t);
    ShowsOther(m, okA, okB, Mac, raw, 6, t);
  }

  lemma SeenMisflagged(m: Slots, okA: bool, okB: bool)
    requires (okA || okB) && Seen(m, okA, okB) != ActiveOf(m) && Seen(m, okA, okB).Some?
    requires InfoOf(Seen(m, okA, okB).value.data) == InfoOf(ActiveOf(m).value.data)
    requires InfoOf(ActiveOf(m).value.data).mac != [] && !FlagsOk(Seen(m, okA, okB).value.data)
    ensures !SetsAreAtomic(m, okA, okB)
  {
    OlderSeen(m, okA, okB);
    var seen, used := Seen(m, okA, okB), ActiveOf(m).value.data;
    var c := Unlike(FieldText(used, Sn));
    var t := FlagsOverUsed(m, okA, okB, Sn, Digit(c));
    FlagLost(seen.value, c);
    SamePayload(t, used, Sn);
    OtherNumber(seen, c, t);
    ShowsOther(m, okA, okB, Sn, Digit(c), 6, t);
  }

  lemma FlagLost(seen: Active, c: byte)
    requires MacFlag(seen.data) && !FlagsOk(seen.data)
    ensures !MacFlag(NewRecord(Some(seen), Sn, Digit(c)))
  {
    NewRecordValid(Some(seen), Sn, Digit(c));
    SealedFields(Put(seen.data, Sn, Digit(c)), NextSeq(SeqOf(seen.data)), Mac);
    PutParts(seen.data, Sn, Digit(c), Mac);
  }

  lemma OlderSeenIff(m: Slots, okA: bool, okB: bool)
    requires (okA || okB) && Seen(m, okA, okB) != ActiveOf(m) && Seen(m, okA, okB).Some?
    ensures ActiveOf(m).Some?
    ensures SetsAreAtomic(m, okA, okB) <==> TellsTheSame(Seen(m, okA, okB).value.data, ActiveOf(m).value.data)
  {
    OlderSeen(m, okA, okB);
    var seen, used := Seen(m, okA, okB).value.data, ActiveOf(m).value.data;
    if InfoOf(seen) != InfoOf(used) {
      var c := OlderComesBack(m, okA, okB);
    } else if InfoOf(used).mac == [] {
      UsedUnaddressed(m, okA, okB);
    } else if !FlagsOk(seen) {
      SeenMisflagged(m, okA, okB);
    } else {
      forall f, raw: seq<byte>, k: nat | |raw| == Length(f) && k <= 128 && NoAccidentSeen(m, okA, okB, f, raw, k)
        ensures OldOrWritten(m, okA, okB, f, raw, k)
      {
        SameRecordIsAtomic(m, okA, okB, f, raw, k);
      }
    }
  }

  // ---------------------------------------------------------------------------------------------
  // No record is seen.

  /** The record in use is in slot A, and a set that finds none overwrites it. */
  lemma UsedIsOverwritten(m: Slots, okA: bool, okB: bool)
    requires (okA || okB) && Seen(m, okA, okB) == None && ActiveOf(m).Some? && ActiveOf(m).value.inA
    ensures !SetsAreAtomic(m, okA, okB)
  {
    OlderSeen(m, okA, okB);
    var c := DigitApart(None, [], Crc(Payload(m.a)));
    var next := NewRecord(None, Sn, Digit(c));
    NewRecordValid(None, Sn, Digit(c));
    CutBehindChecksum(next, m.a);
    InfoOfActive(CutSeen(m, okA, okB, Sn, Digit(c), 8));
    assert ActiveOf(CutSeen(m, okA, okB, Sn, Digit(c), 8)) == None;
    assert !OldOrWritten(m, okA, okB, Sn, Digit(c), 8);
  }

  /** What is read after a set that found no record, with the one in use in slot B. */
  lemma ReadOverA(m: Slots, f: Field, raw: seq<byte>, k: nat)
    requires Seen(m, true, false) == None && ActiveOf(m).Some? && !ActiveOf(m).value.inA
    requires |raw| == Length(f) && k <= 128
    ensures var t := Torn(NewRecord(None, f, raw), m.a, k);
      && Target(m) == m.a
      && ReadInfo(CutSeen(m, true, false, f, raw, k)) ==
           Ok(InfoOf(if SlotValid(t) && Wins(ActiveOf(m), SeqOf(t)) then t else ActiveOf(m).value.data))
  {
    var t := Torn(NewRecord(None, f, raw), m.a, k);
    Choice(m, t);
    InfoOfActive(CutSeen(m, true, false, f, raw, k));
  }

  lemma BesideUsedIsAtomic(m: Slots, f: Field, raw: seq<byte>, k: nat)
    requires Seen(m, true, false) == None && ActiveOf(m).Some? && !ActiveOf(m).value.inA && !Sleeper(m)
    requires |raw| == Length(f) && k <= 128 && NoAccidentSeen(m, true, false, f, raw, k)
    ensures OldOrWritten(m, true, false, f, raw, k)
  {
    OlderSeen(m, true, false);
    ReadOverA(m, f, raw, k);
    var next := NewRecord(None, f, raw);
    var t := Torn(next, m.a, k);
    NewRecordValid(None, f, raw);
    if SlotValid(t) && Wins(ActiveOf(m), SeqOf(t)) {
      if SlotOk(m.a) {
        TornOutcome(next, m.a, k);
      } else {
        TornSleeper(next, m.a, k);
        WokenParts(m.a);
      }
      SameInfo(t, next);
    }
  }

  lemma SleeperWakes(m: Slots)
    requires Seen(m, true, false) == None && ActiveOf(m).Some? && !ActiveOf(m).value.inA && Sleeper(m)
    ensures !SetsAreAtomic(m, true, false)
  {
    OlderSeen(m, true, false);
    var woken, used := Woken(m.a), ActiveOf(m).value.data;
    var c := Unlike(FieldText(woken, Sn));
    WokenParts(m.a);
    NewRecordValid(None, Sn, Digit(c));
    OtherNumber(None, c, woken);
    if InfoOf(woken) != InfoOf(used) {
      WakesAtFive(NewRecord(None, Sn, Digit(c)), m.a);
      ReadOverA(m, Sn, Digit(c), 5);
      ShowsOther(m, true, false, Sn, Digit(c), 5, woken);
    } else if InfoOf(woken).mac != [] {
      SleeperLosesAddress(m, c);
    } else {
      SleeperGainsAddress(m);
    }
  }

  lemma SleeperLosesAddress(m: Slots, c: byte)
    requires Seen(m, true, false) == None && ActiveOf(m).Some? && !ActiveOf(m).value.inA && Sleeper(m)
    requires InfoOf(Woken(m.a)) == InfoOf(ActiveOf(m).value.data) && InfoOf(Woken(m.a)).mac != []
    requires c == Unlike(FieldText(Woken(m.a), Sn))
    ensures !SetsAreAtomic(m, true, false)
  {
    var next := NewRecord(None, Sn, Digit(c));
    var t := Torn(next, m.a, 6);
    NewRecordValid(None, Sn, Digit(c));
    WokenParts(m.a);
    WakesAtSix(next, m.a);
    ReadOverA(m, Sn, Digit(c), 6);
    SamePayload(t, Woken(m.a), Sn);
    OtherNumber(None, c, t);
    BlankHasNoFlag(c);
    ShowsOther(m, true, false, Sn, Digit(c), 6, t);
  }

  lemma BlankHasNoFlag(c: byte)
    ensures !MacFlag(NewRecord(None, Sn, Digit(c)))
  {
    NewRecordValid(None, Sn, Digit(c));
    SealedFields(Put(Blank(128), Sn, Digit(c)), 1, Mac);
    PutParts(Blank(128), Sn, Digit(c), Mac);
  }

  lemma SleeperGainsAddress(m: Slots)
    requires Seen(m, true, false) == None && ActiveOf(m).Some? && !ActiveOf(m).value.inA && Sleeper(m)
    requires InfoOf(Woken(m.a)) == InfoOf(ActiveOf(m).value.data) && InfoOf(Woken(m.a)).mac == []
    ensures !SetsAreAtomic(m, true, false)
  {
    var raw: seq<byte> := [if m.a[16] == 0 then 1 else 0, 0, 0, 0, 0, 0];
    var next := NewRecord(None, Mac, raw);
    var t := Torn(next, m.a, 6);
    NewRecordValid(None, Mac, raw);
    WakesAtSix(next, m.a);
    ReadOverA(m, Mac, raw, 6);
    OtherOctet(None, raw, m.a, t);
    ShowsOther(m, true, false, Mac, raw, 6, t);
  }

  lemma NothingSeenIff(m: Slots, okA: bool, okB: bool)
    requires (okA || okB) && Seen(m, okA, okB) != ActiveOf(m) && Seen(m, okA, okB).None?
    ensures ActiveOf(m).Some?
    ensures SetsAreAtomic(m, okA, okB) <==> !ActiveOf(m).value.inA && !Sleeper(m)
  {
    OlderSeen(m, okA, okB);
    if ActiveOf(m).value.inA {
      UsedIsOverwritten(m, okA, okB);
    } else if Sleeper(m) {
      SleeperWakes(m);
    } else {
      forall f, raw: seq<byte>, k: nat | |raw| == Length(f) && k <= 128 && NoAccidentSeen(m, okA, okB, f, raw, k)
        ensures OldOrWritten(m, okA, okB, f, raw, k)
      {
        BesideUsedIsAtomic(m, f, raw, k);
      }
    }
  }

  // ---------------------------------------------------------------------------------------------
  // The exact condition.

  /**
   * In any store, with at least one slot readable: every set that is cut off leaves the old record or its own,
   * accidents aside, exactly if it saw the record in use and no sleeping record tells something else; or saw an older
   * record that tells the same; or saw none, while the one in use is in slot B and no sleeping record lies in slot A.
   */
  lemma SetAtomicIff(m: Slots, okA: bool, okB: bool)
    requires okA || okB
    ensures var seen, active := Seen(m, okA, okB), ActiveOf(m);
      SetsAreAtomic(m, okA, okB) <==>
        if seen == active then Sleeper(m) ==> Alike(m)
        else if seen.Some? then active.Some? && TellsTheSame(seen.value.data, active.value.data)
        else active.Some? && !active.value.inA && !Sleeper(m)
  {
    if Seen(m, okA, okB) == ActiveOf(m) {
      AtomicIff(m);
      assert forall f, raw: seq<byte>, k: nat :: |raw| == Length(f) && k <= 128 ==>
        (NoAccidentSeen(m, okA, okB, f, raw, k) <==> NoAccident(m, f, raw, k))
        && (OldOrWritten(m, okA, okB, f, raw, k) <==> OldOrNew(m, f, raw, k));
    } else if Seen(m, okA, okB).Some? {
      OlderSeenIff(m, okA, okB);
    } else {
      NothingSeenIff(m, okA, okB);
    }
  }

  /**
   * What a complete set comes to that could not read the slot in use. An older record, with the field changed, takes
   * the place of the newer one; or a record with this field alone does; or, beside a record with a number above one,
   * nothing changes although the set succeeds.
   */
  lemma UnreadOutcome(m: Slots, okA: bool, okB: bool, f: Field, raw: seq<byte>)
    requires (okA || okB) && Seen(m, okA, okB) != ActiveOf(m) && |raw| == Length(f)
    ensures var seen, active := Seen(m, okA, okB), ActiveOf(m);
      var next := NewRecord(seen, f, raw);
      var after := ActiveOf(CutSeen(m, okA, okB, f, raw, 128));
      && SlotValid(next) && active.Some?
      && (seen.Some? ==>
            after == if SeqOf(seen.value.data) < LAST_SEQ then Some(Active(active.value.inA, next)) else seen)
      && (seen.None? ==>
            after == if active.value.inA || SeqOf(active.value.data) <= 1 then Some(Active(true, next)) else active)
  {
    OlderSeen(m, okA, okB);
    var seen, active := Seen(m, okA, okB), ActiveOf(m);
    var next := NewRecord(seen, f, raw);
    NewRecordValid(seen, f, raw);
    assert Torn(next, Struck(m, seen), 128) == next by {
      assert next[..128] == next;
    }
    if seen.Some? {
      ChoiceBeside(m, seen.value, next);
    } else if !active.value.inA {
      Choice(m, next);
    }
  }

  /** The serial numbers 1, 2 and 3 are set, and slot A with the last cannot be read: a set cut off shows 2 again. */
  lemma UnreadNumberReturns() returns (ops: seq<Op>, c: byte)
    ensures History(Erased(), ops) && 0x30 <= c <= 0x32
    ensures var m := Replay(Erased(), ops);
      && Told(ActiveOf(m), Sn) == [0x33]
      && Told(ActiveOf(CutSeen(m, false, true, Sn, Digit(c), 8)), Sn) == [0x32]
      && !OldOrWritten(m, false, true, Sn, Digit(c), 8) && !SetsAreAtomic(m, false, true)
  {
    var one, two, three := Change(Sn, Digit(0x31)), Change(Sn, Digit(0x32)), Change(Sn, Digit(0x33));
    var m1 := Do(Erased(), one);
    var m2 := Do(m1, two);
    var m3 := Do(m2, three);
    ops := [one, two, three];
    ThreeSteps(Erased(), ops);
    ThreeSet(m1, m2, m3);
    c := OlderNumberReturns(m3);
  }

  lemma OlderNumberReturns(m: Slots) returns (c: byte)
    requires SlotValid(m.a) && SlotValid(m.b) && SeqOf(m.a) > SeqOf(m.b)
    requires FieldText(m.a, Sn) == [0x33] && FieldText(m.b, Sn) == [0x32]
    ensures 0x30 <= c <= 0x32 && Told(ActiveOf(m), Sn) == [0x33]
    ensures Told(ActiveOf(CutSeen(m, false, true, Sn, Digit(c), 8)), Sn) == [0x32]
    ensures !OldOrWritten(m, false, true, Sn, Digit(c), 8) && !SetsAreAtomic(m, false, true)
  {
    c := OlderComesBack(m, false, true);
    InfoOfActive(CutSeen(m, false, true, Sn, Digit(c), 8));
  }

  lemma ThreeSteps(m: Slots, ops: seq<Op>)
    requires |ops| == 3 && Fits(m, ops[0]) && Fits(Do(m, ops[0]), ops[1]) && Fits(Do(Do(m, ops[0]), ops[1]), ops[2])
    ensures History(m, ops) && Replay(m, ops) == Do(Do(Do(m, ops[0]), ops[1]), ops[2])
  {
    assert ops[1..][1..] == ops[2..] && ops[2..][1..] == [];
    var m1 := Do(m, ops[0]);
    var m2 := Do(m1, ops[1]);
    assert History(m2, ops[2..]) && Replay(m2, ops[2..]) == Do(m2, ops[2]);
    assert History(m1, ops[1..]) && Replay(m1, ops[1..]) == Replay(m2, ops[2..]);
  }
}
