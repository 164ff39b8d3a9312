/**
 * The two walks over a CPIO archive in an update package: the validator's, which checks the format, and the
 * extractor's, which takes the recovery files out. Both are given by one walk over bytes that either completes with the
 * entries it saw or does not complete.
 */
module Cpio {
  import opened Bits
  import opened HexDigits
  import opened Options

  datatype Entry = Entry(name: seq<byte>, content: seq<byte>)

  /** "TRAILER!!!" */
  const TRAILER: seq<byte> := [0x54, 0x52, 0x41, 0x49, 0x4C, 0x45, 0x52, 0x21, 0x21, 0x21]

  /** "070701" and "070702" */
  const NEW_ASCII: seq<byte> := [0x30, 0x37, 0x30, 0x37, 0x30, 0x31]
  const NEW_CRC: seq<byte> := [0x30, 0x37, 0x30, 0x37, 0x30, 0x32]

  /** A hexadecimal number; every byte has to be a digit. */
  function ParseHex(raw: seq<byte>): Option<nat> {
    if raw == [] then Some(0)
    else
      var d := HexValue(raw[|raw| - 1]);
      match ParseHex(raw[..|raw| - 1])
      case None => None
      case Some(high) => if d < 0 then None else Some(16 * high + d)
  }

  /** Bytes up to the next multiple of four. */
  function Padding(size: nat): (p: nat)
    ensures p < 4 && (size + p) % 4 == 0
  {
    (4 - size % 4) % 4
  }

  /** A name loses the one zero byte that ends it. */
  function NameOf(raw: seq<byte>): seq<byte> {
    if raw != [] && raw[|raw| - 1] == 0 then raw[..|raw| - 1] else raw
  }

  /** Header and name of the next entry; `strict` walks look at the magic number. */
  datatype Head = Head(name: seq<byte>, size: nat, rest: seq<byte>)

  predicate MagicOk(s: seq<byte>)
    requires |s| >= 6
  {
    s[..6] == NEW_ASCII || s[..6] == NEW_CRC
  }

  function ReadHead(s: seq<byte>, strict: bool): Option<Head> {
    if |s| < 110 || (strict && !MagicOk(s)) then None
    else
      match (ParseHex(s[54..62]), ParseHex(s[94..102]))
      case (Some(size), Some(nameSize)) =>
        if nameSize < 1 || nameSize > 4096 then None else ReadName(s[110..], nameSize, size)
      case _ => None
  }

  /** The name behind the header, and the padding behind the name. */
  function ReadName(s: seq<byte>, nameSize: nat, size: nat): Option<Head> {
    var end := nameSize + Padding(110 + nameSize);
    if |s| < end then None else Some(Head(NameOf(s[..nameSize]), size, s[end..]))
  }

  /** What comes next in an archive: something broken or cut short, the trailer, or an entry with more behind it. */
  datatype Next = Broken | End | Got(entry: Entry, rest: seq<byte>)

  function NextEntry(s: seq<byte>, strict: bool): (n: Next)
    ensures n.Got? ==> |n.rest| < |s|
  {
    match ReadHead(s, strict)
    case None => Broken
    case Some(h) =>
      if h.name == TRAILER then End
      else if |h.rest| < h.size + Padding(h.size) then Broken
      else Got(Entry(h.name, h.rest[..h.size]), h.rest[h.size + Padding(h.size)..])
  }

  /**
   * The entries up to the trailer. A walk does not complete if the archive is broken before it, or if `accept` turns
   * an entry down.
   */
  function Walk(s: seq<byte>, strict: bool, accept: Entry -> bool): Option<seq<Entry>>
    decreases |s|
  {
    match NextEntry(s, strict)
    case Broken => None
    case End => Some([])
    case Got(e, rest) =>
      if !accept(e) then None
      else
        match Walk(rest, strict, accept)
        case None => None
        case Some(es) => Some([e] + es)
  }

  /**
   * Where a strict walk completes, a lax one sees the same entries, if it accepts what it sees. In particular the
   * extractor sees exactly the entries that were validated.
   */
  lemma {:induction false} LaxSeesTheSame(s: seq<byte>, accept: Entry -> bool, accept': Entry -> bool)
    requires Walk(s, true, accept).Some?
    requires forall e :: e in Walk(s, true, accept).value ==> accept'(e)
    ensures Walk(s, false, accept') == Walk(s, true, accept)
    decreases |s|
  {
    var n := NextEntry(s, true);
    StrictIsLax(s);
    if n.Got? {
      assert Walk(s, true, accept).value == [n.entry] + Walk(n.rest, true, accept).value;
      LaxSeesTheSame(n.rest, accept, accept');
    }
  }

  lemma StrictIsLax(s: seq<byte>)
    ensures NextEntry(s, true) != Broken ==> NextEntry(s, false) == NextEntry(s, true)
  {
  }

  // ---------------------------------------------------------------------------------------------
  // Archives.

  /** An entry with the header fields the walks do not look at, and the choice of format. */
  datatype Item = Item(entry: Entry, crc: bool, pre: seq<byte>, mid: seq<byte>, post: seq<byte>)

  /** `v` in `n` hexadecimal digits. */
  function Hex(v: nat, n: nat): (raw: seq<byte>)
    ensures |raw| == n
  {
    if n == 0 then [] else Hex(v / 16, n - 1) + [HexDigit(v % 16)]
  }

  function Pow16(n: nat): nat {
    if n == 0 then 1 else 16 * Pow16(n - 1)
  }

  lemma {:induction false} HexParses(v: nat, n: nat)
    requires v < Pow16(n)
    ensures ParseHex(Hex(v, n)) == Some(v)
    decreases n
  {
    if n != 0 {
      HexParses(v / 16, n - 1);
      var raw := Hex(v, n);
      assert raw[..n - 1] == Hex(v / 16, n - 1);
      assert HexValue(HexDigit(v % 16)) == v % 16;
    }
  }

  function PaddingBytes(size: nat): (z: seq<byte>)
    ensures |z| == Padding(size)
  {
    seq(Padding(size), i => 0)
  }

  function HeaderBytes(item: Item): seq<byte> {
    (if item.crc then NEW_CRC else NEW_ASCII) + item.pre + Hex(|item.entry.content|, 8) + item.mid
    + Hex(|item.entry.name| + 1, 8) + item.post
  }

  function NameBytes(name: seq<byte>): seq<byte> {
    name + [0] + PaddingBytes(110 + |name| + 1)
  }

  function ItemBytes(item: Item): seq<byte> {
    HeaderBytes(item) + NameBytes(item.entry.name) + item.entry.content + PaddingBytes(|item.entry.content|)
  }

  /** Entries one after the other, then a trailer, then anything. */
  function Archive(items: seq<Item>, trailer: Item, behind: seq<byte>): seq<byte> {
    if items == [] then HeaderBytes(trailer) + NameBytes(TRAILER) + behind
    else ItemBytes(items[0]) + Archive(items[1..], trailer, behind)
  }

  predicate Encodable(item: Item) {
    && |item.pre| == 48 && |item.mid| == 32 && |item.post| == 8
    && |item.entry.name| + 1 <= 4096 && |item.entry.content| < Pow16(8)
  }

  function Entries(items: seq<Item>): seq<Entry> {
    if items == [] then [] else [items[0].entry] + Entries(items[1..])
  }

  lemma HeaderParts(item: Item)
    requires Encodable(item)
    ensures var h := HeaderBytes(item);
      |h| == 110 && MagicOk(h) && h[54..62] == Hex(|item.entry.content|, 8)
      && h[94..102] == Hex(|item.entry.name| + 1, 8)
  {
    var h := HeaderBytes(item);
    assert h[..6] == if item.crc then NEW_CRC else NEW_ASCII;
    assert h[54..62] == Hex(|item.entry.content|, 8);
    assert h[94..102] == Hex(|item.entry.name| + 1, 8);
  }

  lemma SliceOfFront(h: seq<byte>, t: seq<byte>, i: nat, j: nat)
    requires i <= j <= |h|
    ensures (h + t)[i..j] == h[i..j]
  {
  }

  lemma NameReads(name: seq<byte>, size: nat, tail: seq<byte>)
    ensures ReadName(NameBytes(name) + tail, |name| + 1, size) == Some(Head(name, size, tail))
  {
    var s := NameBytes(name) + tail;
    assert s[..|name| + 1] == name + [0];
    assert s[|name| + 1 + Padding(110 + |name| + 1)..] == tail;
    assert NameOf(name + [0]) == name;
  }

  lemma SmallSizes(n: nat)
    requires n <= 4096
    ensures n < Pow16(8)
  {
    assert Pow16(4) == 0x1_0000;
    assert Pow16(8) >= Pow16(4);
  }

  lemma HeaderSizes(item: Item)
    requires Encodable(item)
    ensures var h := HeaderBytes(item);
      && |h| == 110 && MagicOk(h)
      && ParseHex(h[54..62]) == Some(|item.entry.content|) && ParseHex(h[94..102]) == Some(|item.entry.name| + 1)
  {
    HeaderParts(item);
    SmallSizes(|item.entry.name| + 1);
    HexParses(|item.entry.content|, 8);
    HexParses(|item.entry.name| + 1, 8);
  }

  /** A header with these sizes, followed by the name and its padding. */
  lemma HeadFrom(h: seq<byte>, name: seq<byte>, size: nat, tail: seq<byte>, strict: bool)
    requires |h| == 110 && MagicOk(h) && |name| + 1 <= 4096
    requires ParseHex(h[54..62]) == Some(size) && ParseHex(h[94..102]) == Some(|name| + 1)
    ensures ReadHead(h + NameBytes(name) + tail, strict) == Some(Head(name, size, tail))
  {
    var t := NameBytes(name) + tail;
    var s := h + NameBytes(name) + tail;
    assert s == h + t;
    SliceOfFront(h, t, 0, 6);
    assert s[..6] == s[0..6] && h[..6] == h[0..6];
    SliceOfFront(h, t, 54, 62);
    SliceOfFront(h, t, 94, 102);
    assert s[110..] == t;
    NameReads(name, size, tail);
  }

  lemma HeadReads(item: Item, name: seq<byte>, tail: seq<byte>, strict: bool)
    requires Encodable(item) && name == item.entry.name
    ensures ReadHead(HeaderBytes(item) + NameBytes(name) + tail, strict) == Some(Head(name, |item.entry.content|, tail))
  {
    HeaderSizes(item);
    HeadFrom(HeaderBytes(item), name, |item.entry.content|, tail, strict);
  }

  lemma ContentReads(content: seq<byte>, behind: seq<byte>)
    ensures var t := content + PaddingBytes(|content|) + behind;
      var end := |content| + Padding(|content|);
      |t| >= end && t[..|content|] == content && t[end..] == behind
  {
  }

  /** Either walk over an archive completes at the trailer with exactly the entries that were written, in order. */
  lemma {:induction false} WalkReadsArchive(
      items: seq<Item>, trailer: Item, behind: seq<byte>, strict: bool, accept: Entry -> bool)
    requires forall i :: 0 <= i < |items| ==>
      Encodable(items[i]) && items[i].entry.name != TRAILER && accept(items[i].entry)
    requires Encodable(trailer) && trailer.entry.name == TRAILER
    ensures Walk(Archive(items, trailer, behind), strict, accept) == Some(Entries(items))
    decreases items
  {
    if items == [] {
      HeadReads(trailer, TRAILER, behind, strict);
    } else {
      var item, rest := items[0], Archive(items[1..], trailer, behind);
      var content := item.entry.content;
      var tail := content + PaddingBytes(|content|) + rest;
      var s := HeaderBytes(item) + NameBytes(item.entry.name) + tail;
      assert Archive(items, trailer, behind) == s;
      HeadReads(item, item.entry.name, tail, strict);
      ContentReads(content, rest);
      assert NextEntry(s, strict) == Got(item.entry, rest);
      WalkReadsArchive(items[1..], trailer, behind, strict, accept);
    }
  }
}
