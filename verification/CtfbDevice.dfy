/** The factory record operations, working in place on the 256 bytes of storage. */
module CtfbDevice {
  import opened Bits
  import Crc16
  import opened Options
  import opened BlankChecksum
  import opened Ctfb
  import opened CtfbSafety
  import opened CtfbStore

  class FactoryStore {
    const image: array<byte>

    ghost predicate Valid() {
      image.Length == 256
    }

    /** The two slots as they stand in storage. */
    ghost function Now(): Slots
      requires Valid()
      reads image
    {
      Slots(image[..128], image[128..])
    }

    constructor ()
      ensures Valid() && fresh(image)
    {
      image := new byte[256];
    }

    method ReadSlot(inA: bool) returns (s: Slot)
      requires Valid()
      ensures s == Now().Get(inA)
    {
      s := if inA then image[..128] else image[128..];
    }

    /** A storage write that stops after `k` bytes. */
    method Write(base: nat, bytes: seq<byte>, k: nat)
      requires Valid() && k <= |bytes| && base + |bytes| <= 256
      modifies image
      ensures image[..] == old(image[..base]) + bytes[..k] + old(image[base + k..])
    {
      var i := 0;
      while i < k
        invariant 0 <= i <= k
        invariant forall j :: 0 <= j < 256 ==>
          image[j] == if base <= j < base + i then bytes[j - base] else old(image[j])
      {
        image[base + i] := bytes[i];
        i := i + 1;
      }
    }

    method WriteSlot(inA: bool, s: Slot, k: nat)
      requires Valid() && k <= 128
      modifies image
      ensures Now() == old(Now()).With(inA, Torn(s, old(Now()).Get(inA), k))
    {
      ghost var was := image[..];
      Write(if inA then 0 else 128, s, k);
      SlotWritten(was, image[..], inA, s, k);
    }

    method CheckSlot(s: Slot) returns (valid: bool)
      ensures valid == SlotValid(s)
    {
      if s[..4] != MAGIC || s[4] != 1 {
        return false;
      }
      var crc := Crc16.Compute(s[16..]);
      valid := Rd16(s, 6) == crc;
    }

    method FindActive(okA: bool, okB: bool) returns (r: Result<Active>)
      requires Valid()
      ensures r == ReadActive(Now(), okA, okB)
    {
      if !okA && !okB {
        return Err(NotReady);
      }
      var va, vb := false, false;
      var a := ReadSlot(true);
      var b := ReadSlot(false);
      if okA {
        va := CheckSlot(a);
      }
      if okB {
        vb := CheckSlot(b);
      }
      if va && vb {
        if SeqOf(a) >= SeqOf(b) {
          return Ok(Active(true, a));
        } else {
          return Ok(Active(false, b));
        }
      }
      if va {
        return Ok(Active(true, a));
      }
      if vb {
        return Ok(Active(false, b));
      }
      r := Err(NotFound);
    }

    /** Drops the filling behind a text, from the end. */
    static method DecodeText(raw: seq<byte>) returns (text: seq<byte>)
      ensures text == Trimmed(raw)
    {
      var n := |raw|;
      assert raw[..n] == raw;
      while n > 0 && (raw[n - 1] == 0xFF || raw[n - 1] == 0)
        invariant 0 <= n <= |raw|
        invariant Trimmed(raw) == Trimmed(raw[..n])
      {
        assert raw[..n][..n - 1] == raw[..n - 1];
        n := n - 1;
      }
      text := raw[..n];
    }

    /** The value of a field, cut to what the caller's buffer of `size` bytes can hold with its terminator. */
    method Get(f: Field, size: nat, okA: bool, okB: bool) returns (r: Result<seq<byte>>)
      requires Valid()
      ensures size == 0 ==> r == Err(InvalidArg)
      ensures size > 0 ==> match ReadActive(Now(), okA, okB)
        case Err(e) => r == Err(e)
        case Ok(a) => r.Ok? && r.value == Cut(FieldText(a.data, f), size - 1)
    {
      if size == 0 {
        return Err(InvalidArg);
      }
      var active := FindActive(okA, okB);
      if active.Err? {
        return Err(active.error);
      }
      var s := active.value.data;
      var text: seq<byte>;
      if f.Mac? {
        text := if MacFlag(s) then MacText(FieldBytes(s, Mac)) else [];
      } else {
        text := DecodeText(FieldBytes(s, f));
      }
      r := Ok(Cut(text, size - 1));
    }

    method ReadAll(okA: bool, okB: bool) returns (r: Result<(Active, Info)>)
      requires Valid()
      ensures match ReadActive(Now(), okA, okB)
        case Err(e) => r == Err(e)
        case Ok(a) => r == Ok((a, InfoOf(a.data)))
    {
      var active := FindActive(okA, okB);
      if active.Err? {
        return Err(active.error);
      }
      var s := active.value.data;
      var mac := if MacFlag(s) then MacText(FieldBytes(s, Mac)) else [];
      var sn := DecodeText(FieldBytes(s, Sn));
      var pn := DecodeText(FieldBytes(s, Pn));
      var batch := DecodeText(FieldBytes(s, Batch));
      var hwRev := DecodeText(FieldBytes(s, HwRev));
      r := Ok((active.value, Info(mac, sn, pn, batch, hwRev)));
    }

    /**
     * Sets a field. `cut` tells after how many bytes the slot write fails, if it does; `back` is what the storage
     * returns when the slot is read again, unless that fails.
     */
    method Set(f: Field, v: Text, okA: bool, okB: bool, cut: Option<nat>, back: Option<Slot>) returns (r: Result<()>)
      requires Valid() && (cut.Some? ==> cut.value <= 128)
      modifies image
      ensures Encoded(f, v).Err? ==> r == Err(Encoded(f, v).error) && Now() == old(Now())
      ensures Encoded(f, v).Ok? && !okA && !okB ==> r == Err(NotReady) && Now() == old(Now())
      ensures Encoded(f, v).Ok? && okA && okB && cut.None? ==>
        |Encoded(f, v).value| == Length(f) && Now() == Written(old(Now()), f, Encoded(f, v).value)
      ensures Encoded(f, v).Ok? && (okA || okB) ==>
        var raw := Encoded(f, v).value;
        && |raw| == Length(f)
        && Now() == CutSeen(old(Now()), okA, okB, f, raw, if cut.Some? then cut.value else 128)
        && r == (if cut.Some? || back.None? then Err(Storage)
                 else if SlotValid(back.value) then Ok(()) else Err(Corrupt))
    {
      var encoded := Encoded(f, v);
      if encoded.Err? {
        return Err(encoded.error);
      }
      EncodedLength(f, v);
      var raw := encoded.value;
      var found := FindActive(okA, okB);
      if found == Err(NotReady) {
        return Err(NotReady);
      }
      var active := Usable(found);
      var target := TargetIsA(active);
      var next := BuildRecord(active, f, raw);
      WriteSlot(target, next, if cut.Some? then cut.value else 128);
      WholeWrite(next, old(Now()).Get(target));
      if cut.Some? || back.None? {
        return Err(Storage);
      }
      var valid := CheckSlot(back.value);
      r := if valid then Ok(()) else Err(Corrupt);
    }

    /** The new slot, filled in field by field and header by header in a buffer. */
    static method BuildRecord(active: Option<Active>, f: Field, raw: seq<byte>) returns (next: Slot)
      requires |raw| == Length(f)
      ensures next == NewRecord(active, f, raw)
    {
      var out: Slot;
      var number: uint32;
      if active.None? {
        out, number := Blank(128), 1;
      } else {
        out, number := active.value.data, NextSeq(SeqOf(active.value.data));
      }
      out := out[..Offset(f)] + raw + out[Offset(f) + Length(f)..];
      var flags: byte := 1;
      if out[16] != 0xFF {
        flags := 3;
      }
      var crc := Crc16.Compute(out[16..]);
      next := MAGIC + [1, flags] + Wr16(crc) + Wr32(number) + Blank(4) + out[16..];
    }

    /** Erases the whole storage, or as much of it as the write gets through. */
    method Erase(k: nat)
      requires Valid() && k <= 256
      modifies image
      ensures Now() == CutErased(old(Now()), k)
      ensures k == 256 ==> Now() == Erased()
    {
      ghost var was := image[..];
      Write(0, Blank(256), k);
      assert image[..] == Blank(k) + was[k..];
      SlotsErased(was, image[..], k);
    }
  }

  function Cut(text: seq<byte>, n: nat): seq<byte> {
    if |text| <= n then text else text[..n]
  }

  lemma SlotWritten(was: seq<byte>, now: seq<byte>, inA: bool, s: Slot, k: nat)
    requires |was| == 256 && k <= 128
    requires var base := if inA then 0 else 128; now == was[..base] + s[..k] + was[base + k..]
    ensures |now| == 256
    ensures Slots(now[..128], now[128..])
      == Slots(was[..128], was[128..]).With(inA, Torn(s, if inA then was[..128] else was[128..], k))
  {
    if inA {
      assert now[..128] == s[..k] + was[..128][k..];
      assert now[128..] == was[128..];
    } else {
      assert now[..128] == was[..128];
      assert now[128..] == s[..k] + was[128..][k..];
    }
  }

  lemma SlotsErased(was: seq<byte>, now: seq<byte>, k: nat)
    requires |was| == 256 && k <= 256 && now == Blank(k) + was[k..]
    ensures |now| == 256
    ensures Slots(now[..128], now[128..]) == CutErased(Slots(was[..128], was[128..]), k)
    ensures k == 256 ==> Slots(now[..128], now[128..]) == Erased()
  {
    assert forall i :: 0 <= i < 256 ==> now[i] == if i < k then 0xFF else was[i];
  }

  lemma WholeWrite(next: Slot, stale: Slot)
    ensures Torn(next, stale, 128) == next
  {
    assert next[..128] == next;
  }
}
