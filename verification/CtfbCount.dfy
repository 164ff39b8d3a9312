/** How far the sequence numbers of the factory record go, and what becomes of changes then. */
module CtfbCount {
  import opened Bits
  import opened Ctfb
  import opened CtfbSafety
  import opened CtfbStore
  import opened CtfbErase

  lemma {:induction false} HistoryAppend(m: Slots, ops: seq<Op>, op: Op)
    requires History(m, ops) && Fits(Replay(m, ops), op)
    ensures History(m, ops + [op]) && Replay(m, ops + [op]) == Do(Replay(m, ops), op)
    decreases ops
  {
    if ops == [] {
      assert [op][1..] == [] && ops + [op] == [op];
    } else {
      assert (ops + [op])[1..] == ops[1..] + [op];
      HistoryAppend(Do(m, ops[0]), ops[1..], op);
    }
  }

  /** The last number used, zero in a store without a record. */
  function Used(m: Slots): nat {
    if ActiveOf(m).None? then 0 else SeqOf(ActiveOf(m).value.data)
  }

  lemma OneMore(m: Slots, c: byte)
    requires Countable(m) && c != 0 && c != 0xFF
    ensures Used(Do(m, Change(Sn, Digit(c)))) == Used(m) + 1 && Ahead(Do(m, Change(Sn, Digit(c))))
  {
    DigitSet(m, c);
  }

  /** A record in slot B is in use by its higher number. */
  predicate Ahead(m: Slots) {
    ActiveOf(m).Some? && !ActiveOf(m).value.inA ==> SeqOf(m.a) < SeqOf(ActiveOf(m).value.data)
  }

  /** Every number is reached from an erased store by changes alone. */
  lemma {:induction false} NumberIsReached(n: nat) returns (ops: seq<Op>)
    requires n <= LAST_SEQ
    ensures History(Erased(), ops) && ErasuresComplete(ops)
    ensures Used(Replay(Erased(), ops)) == n && Ahead(Replay(Erased(), ops))
    decreases n
  {
    if n == 0 {
      ops := [];
      ErasedIsSound();
    } else {
      var before := NumberIsReached(n - 1);
      ops := NextNumber(Erased(), before, 0x31);
    }
  }

  lemma NextNumber(m: Slots, before: seq<Op>, c: byte) returns (ops: seq<Op>)
    requires History(m, before) && ErasuresComplete(before) && Used(Replay(m, before)) < LAST_SEQ && c != 0 && c != 0xFF
    ensures History(m, ops) && ErasuresComplete(ops)
    ensures Used(Replay(m, ops)) == Used(Replay(m, before)) + 1 && Ahead(Replay(m, ops))
  {
    var op := Change(Sn, Digit(c));
    OneMore(Replay(m, before), c);
    HistoryAppend(m, before, op);
    ops := before + [op];
  }

  /** A number of zero that is cut off is not above the stale one. */
  lemma CutZeroIsNotAbove(next: Slot, stale: Slot, k: nat)
    requires k <= 128 && SeqOf(next) == 0
    ensures SeqOf(Torn(next, stale, k)) <= SeqOf(stale)
  {
    var t := Torn(next, stale, k);
    assert forall i :: 8 <= i < 12 ==> t[i] == 0 || t[i] == stale[i];
  }

  /** Changes alone, complete or cut off. */
  predicate OnlyChanges(ops: seq<Op>) {
    forall i :: 0 <= i < |ops| ==> ops[i].Change? || ops[i].CutChange?
  }

  lemma OneChangeAtLast(m: Slots, op: Op)
    requires !Countable(m) && Ahead(m) && Fits(m, op) && (op.Change? || op.CutChange?)
    ensures ActiveOf(Do(m, op)) == ActiveOf(m) && Ahead(Do(m, op))
  {
    var active := ActiveOf(m);
    var target := TargetIsA(active);
    var next := NewRecord(active, op.f, op.raw);
    NewRecordValid(active, op.f, op.raw);
    if op.Change? {
      Choice(m, next);
    } else {
      CutZeroIsNotAbove(next, m.Get(target), op.k);
      Choice(m, Torn(next, m.Get(target), op.k));
    }
  }

  /** At the last number no changes of any fields, however many, have an effect on what is read. */
  lemma {:induction false} ChangesAtLast(m: Slots, ops: seq<Op>)
    requires !Countable(m) && Ahead(m) && History(m, ops) && OnlyChanges(ops)
    ensures ActiveOf(Replay(m, ops)) == ActiveOf(m)
    decreases ops
  {
    if ops != [] {
      OneChangeAtLast(m, ops[0]);
      ChangesAtLast(Do(m, ops[0]), ops[1..]);
    }
  }

  /** The last number is reached too, and from then on nothing but an erasure has an effect on what is read. */
  lemma LastNumberIsFinal() returns (ops: seq<Op>)
    ensures History(Erased(), ops) && ErasuresComplete(ops) && !Countable(Replay(Erased(), ops))
    ensures var m := Replay(Erased(), ops);
      forall more :: History(m, more) && OnlyChanges(more) ==> ActiveOf(Replay(m, more)) == ActiveOf(m)
  {
    ops := NumberIsReached(LAST_SEQ);
    var m := Replay(Erased(), ops);
    forall more | History(m, more) && OnlyChanges(more)
      ensures ActiveOf(Replay(m, more)) == ActiveOf(m)
    {
      ChangesAtLast(m, more);
    }
  }
}
