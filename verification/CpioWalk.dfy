/** The two walks as loops that advance a reader. */
module CpioWalk {
  import opened Bits
  import opened Options
  import opened Cpio
  import opened MarkerSearch

  // ---------------------------------------------------------------------------------------------
  // Names.

  const SLASH: byte := 0x2F

  /** "sw-description", "sw-description.sig", ".ext4.gz", "swupdate-image-" and "fitImage" */
  const DESCRIPTION: seq<byte> := [0x73, 0x77, 0x2D, 0x64, 0x65, 0x73, 0x63, 0x72, 0x69, 0x70, 0x74, 0x69, 0x6F, 0x6E]
  const SIGNATURE: seq<byte> := DESCRIPTION + [0x2E, 0x73, 0x69, 0x67]
  const IMAGE_SUFFIX: seq<byte> := [0x2E, 0x65, 0x78, 0x74, 0x34, 0x2E, 0x67, 0x7A]
  const RECOVERY_PREFIX: seq<byte> :=
    [0x73, 0x77, 0x75, 0x70, 0x64, 0x61, 0x74, 0x65, 0x2D, 0x69, 0x6D, 0x61, 0x67, 0x65, 0x2D]
  const FIT_IMAGE: seq<byte> := [0x66, 0x69, 0x74, 0x49, 0x6D, 0x61, 0x67, 0x65]

  /** U+0130 and U+212A */
  const DOTTED_I: seq<byte> := [0xC4, 0xB0]
  const KELVIN: seq<byte> := [0xE2, 0x84, 0xAA]

  const MAX_DESCRIPTION := 2 * 1024 * 1024

  predicate EndsWith(s: seq<byte>, suffix: seq<byte>) {
    |s| >= |suffix| && s[|s| - |suffix|..] == suffix
  }

  predicate StartsWith(s: seq<byte>, prefix: seq<byte>) {
    |s| >= |prefix| && s[..|prefix|] == prefix
  }

  /** One ASCII letter in lower case, anything else as it is. */
  function LowerByte(b: byte): byte {
    if 0x41 <= b <= 0x5A then b + 0x20 else b
  }

  /**
   * UTF-8 in lower case. Two letters outside ASCII, the dotted capital I and the Kelvin sign, have a lower case in it;
   * all others stay outside, whatever becomes of them, and are kept as they are.
   */
  function Lower(s: seq<byte>): seq<byte> {
    if s == [] then []
    else if |s| >= 2 && s[..2] == DOTTED_I then [0x69] + Lower(s[2..])
    else if |s| >= 3 && s[..3] == KELVIN then [0x6B] + Lower(s[3..])
    else [LowerByte(s[0])] + Lower(s[1..])
  }

  predicate Called(name: seq<byte>, file: seq<byte>) {
    name == file || EndsWith(name, [SLASH] + file)
  }

  predicate IsImage(name: seq<byte>) {
    EndsWith(Lower(name), IMAGE_SUFFIX)
  }

  predicate IsRecovery(name: seq<byte>) {
    StartsWith(Lower(name), RECOVERY_PREFIX)
  }

  function WithoutSlashes(name: seq<byte>): seq<byte> {
    if name != [] && name[|name| - 1] == SLASH then WithoutSlashes(name[..|name| - 1]) else name
  }

  function AfterSlash(name: seq<byte>): seq<byte> {
    if name == [] || name[|name| - 1] == SLASH then [] else AfterSlash(name[..|name| - 1]) + [name[|name| - 1]]
  }

  /** The last element of a path. */
  function BaseOf(name: seq<byte>): seq<byte> {
    if name == [] then [0x2E]
    else if WithoutSlashes(name) == [] then [SLASH]
    else AfterSlash(WithoutSlashes(name))
  }

  // ---------------------------------------------------------------------------------------------
  // What the walks make of the entries.

  /** What the validator learns. */
  datatype Found = Found(entries: nat, signed: bool, description: seq<byte>, rootfs: seq<byte>, capable: bool)

  const NOTHING := Found(0, false, [], [], false)

  /** What an image decompresses to, if it does. */
  type Inflate = seq<byte> -> Option<seq<byte>>

  /** The marker is found in the image. */
  predicate Marked(gzip: Inflate, content: seq<byte>) {
    gzip(content).Some? && Finds(RECOVERY_MARKER, gzip(content).value)
  }

  function Learn(gzip: Inflate, f: Found, e: Entry): Found {
    var g := f.(entries := f.entries + 1, signed := f.signed || Called(e.name, SIGNATURE));
    if Called(e.name, DESCRIPTION) then g.(description := e.content)
    else if !IsImage(e.name) then g
    else if IsRecovery(e.name) then g.(capable := Marked(gzip, e.content))
    else g.(rootfs := e.name)
  }

  function LearnAll(gzip: Inflate, es: seq<Entry>): Found {
    if es == [] then NOTHING else Learn(gzip, LearnAll(gzip, es[..|es| - 1]), es[|es| - 1])
  }

  /** What the validator lets through. */
  function Accepts(gzip: Inflate): Entry -> bool {
    (e: Entry) => if Called(e.name, DESCRIPTION) then |e.content| <= MAX_DESCRIPTION
                    else IsImage(e.name) ==> gzip(e.content).Some?
  }

  /** Named like a recovery image, letter for letter. */
  predicate Exact(base: seq<byte>) {
    StartsWith(base, RECOVERY_PREFIX) && EndsWith(base, IMAGE_SUFFIX)
  }

  /** A recovery image to the extractor, which goes by the last element of the path. */
  predicate IsRecoveryFile(name: seq<byte>) {
    Exact(BaseOf(name))
  }

  predicate IsArtifact(name: seq<byte>) {
    BaseOf(name) == FIT_IMAGE || IsRecoveryFile(name)
  }

  /** What the extractor has written, and which of the two artifacts it has seen. */
  datatype Taken = Taken(files: map<seq<byte>, seq<byte>>, fit: bool, recovery: bool)

  function Take(t: Taken, e: Entry): Taken {
    if !IsArtifact(e.name) then t
    else
      var u := t.(files := t.files[BaseOf(e.name) := e.content]);
      if BaseOf(e.name) == FIT_IMAGE then u.(fit := true) else u.(recovery := true)
  }

  function TakeAll(es: seq<Entry>): Taken {
    if es == [] then Taken(map[], false, false) else Take(TakeAll(es[..|es| - 1]), es[|es| - 1])
  }

  /** What stops the extractor: an artifact it cannot write. */
  function Stores(writes: Entry -> bool): Entry -> bool {
    (e: Entry) => IsArtifact(e.name) ==> writes(e)
  }

  // ---------------------------------------------------------------------------------------------
  // The loops.

  class Reader {
    const data: seq<byte>
    var pos: nat

    ghost predicate Valid()
      reads this
    {
      pos <= |data|
    }

    ghost function Rest(): seq<byte>
      requires Valid()
      reads this
    {
      data[pos..]
    }

    constructor (data: seq<byte>)
      ensures Valid() && Rest() == data
    {
      this.data := data;
      pos := 0;
    }

    /** Reads exactly `n` bytes, or fails at the end of the data. */
    method ReadFull(n: nat) returns (r: Option<seq<byte>>)
      requires Valid()
      modifies `pos
      ensures Valid()
      ensures n <= |old(Rest())| ==> r == Some(old(Rest())[..n]) && Rest() == old(Rest())[n..]
      ensures n > |old(Rest())| ==> r == None
    {
      if n > |data| - pos {
        return None;
      }
      assert data[pos..][..n] == data[pos..pos + n];
      r := Some(data[pos..pos + n]);
      pos := pos + n;
    }

    method DiscardPadding(size: nat) returns (ok: bool)
      requires Valid()
      modifies `pos
      ensures Valid() && ok == (Padding(size) <= |old(Rest())|)
      ensures ok ==> Rest() == old(Rest())[Padding(size)..]
    {
      var padding := (4 - size % 4) % 4;
      if padding == 0 {
        return true;
      }
      var r := ReadFull(padding);
      ok := r.Some?;
    }

    /** The part both loops share: header, name and padding. */
    method NextHead(strict: bool) returns (r: Option<(seq<byte>, nat)>)
      requires Valid()
      modifies `pos
      ensures Valid()
      ensures match ReadHead(old(Rest()), strict)
        case None => r == None
        case Some(h) => r == Some((h.name, h.size)) && Rest() == h.rest
    {
      ghost var s := Rest();
      var header := ReadFull(110);
      if header.None? {
        return None;
      }
      assert header.value[..6] == s[..6] && header.value[54..62] == s[54..62] && header.value[94..102] == s[94..102];
      if strict && !MagicOk(header.value) {
        return None;
      }
      var size := ParseHex(header.value[54..62]);
      if size.None? {
        return None;
      }
      var nameSize := ParseHex(header.value[94..102]);
      if nameSize.None? || nameSize.value < 1 || nameSize.value > 4096 {
        return None;
      }
      var name := NextName(nameSize.value, size.value);
      if name.None? {
        return None;
      }
      r := Some((name.value, size.value));
    }

    method NextName(nameSize: nat, ghost size: nat) returns (r: Option<seq<byte>>)
      requires Valid()
      modifies `pos
      ensures Valid()
      ensures match ReadName(old(Rest()), nameSize, size)
        case None => r == None
        case Some(h) => r == Some(h.name) && Rest() == h.rest
    {
      var raw := ReadFull(nameSize);
      if raw.None? {
        return None;
      }
      var padded := DiscardPadding(110 + nameSize);
      if !padded {
        return None;
      }
      r := Some(NameOf(raw.value));
    }

    /** The content of an entry and its padding. */
    method NextContent(size: nat) returns (r: Option<seq<byte>>)
      requires Valid()
      modifies `pos
      ensures Valid()
      ensures r.Some? <==> |old(Rest())| >= size + Padding(size)
      ensures r.Some? ==> r.value == old(Rest())[..size] && Rest() == old(Rest())[size + Padding(size)..]
    {
      r := ReadFull(size);
      if r.None? {
        return;
      }
      var padded := DiscardPadding(size);
      if !padded {
        r := None;
      }
    }

    /** Header and content of the next entry. */
    method Advance(strict: bool) returns (ghost n: Next, r: Next)
      requires Valid()
      modifies `pos
      ensures Valid() && n == NextEntry(old(Rest()), strict)
      ensures r == match n case Got(e, _) => Got(e, []) case other => other
      ensures n.Got? ==> Rest() == n.rest && pos > old(pos)
    {
      ghost var s := Rest();
      n := NextEntry(s, strict);
      var head := NextHead(strict);
      if head.None? {
        return n, Broken;
      }
      var name, size := head.value.0, head.value.1;
      if name == TRAILER {
        return n, End;
      }
      var content := NextContent(size);
      if content.None? {
        return n, Broken;
      }
      r := Got(Entry(name, content.value), []);
    }

    /** The validator's walk. */
    method Validate(gzip: Inflate) returns (r: Option<Found>)
      requires Valid()
      modifies `pos
      ensures match Walk(old(Rest()), true, Accepts(gzip))
        case None => r == None
        case Some(es) => r == Some(LearnAll(gzip, es))
    {
      ghost var all := Rest();
      ghost var seen: seq<Entry> := [];
      var found := NOTHING;
      NothingSeen(Walk(all, true, Accepts(gzip)));
      while true
        invariant Valid() && found == LearnAll(gzip, seen)
        invariant Walk(all, true, Accepts(gzip)) == Then(seen, Walk(Rest(), true, Accepts(gzip)))
        decreases |data| - pos
      {
        ghost var s := Rest();
        ghost var n: Next;
        var next: Next;
        n, next := Advance(true);
        match next {
          case Broken =>
            return None;
          case End =>
            assert seen + [] == seen;
            return Some(found);
          case Got(e, _) =>
            var learned := LearnEntry(gzip, found, e);
            if learned.None? {
              return None;
            }
            WalkStep(s, true, Accepts(gzip), seen, e, Rest());
            found := learned.value;
            assert (seen + [e])[..|seen|] == seen;
            seen := seen + [e];
        }
      }
    }

    /** The extractor's walk. */
    method Extract(writes: Entry -> bool) returns (r: Option<Taken>)
      requires Valid()
      modifies `pos
      ensures match Walk(old(Rest()), false, Stores(writes))
        case None => r == None
        case Some(es) => r == (if TakeAll(es).fit && TakeAll(es).recovery then Some(TakeAll(es)) else None)
    {
      ghost var all := Rest();
      ghost var seen: seq<Entry> := [];
      var taken := Taken(map[], false, false);
      NothingSeen(Walk(all, false, Stores(writes)));
      while true
        invariant Valid() && taken == TakeAll(seen)
        invariant Walk(all, false, Stores(writes)) == Then(seen, Walk(Rest(), false, Stores(writes)))
        decreases |data| - pos
      {
        ghost var s := Rest();
        ghost var n: Next;
        var next: Next;
        n, next := Advance(false);
        match next {
          case Broken =>
            return None;
          case End =>
            assert seen + [] == seen;
            return if taken.fit && taken.recovery then Some(taken) else None;
          case Got(e, _) =>
            if IsArtifact(e.name) && !writes(e) {
              return None;
            }
            WalkStep(s, false, Stores(writes), seen, e, Rest());
            taken := Take(taken, e);
            assert (seen + [e])[..|seen|] == seen;
            seen := seen + [e];
        }
      }
    }
  }

  /** The cases of the validator's loop, with the marker searched in a recovery image while it is decompressed. */
  method LearnEntry(gzip: Inflate, found: Found, e: Entry) returns (r: Option<Found>)
    ensures r == if Accepts(gzip)(e) then Some(Learn(gzip, found, e)) else None
  {
    var g := found.(entries := found.entries + 1);
    if Called(e.name, SIGNATURE) {
      g := g.(signed := true);
    }
    if Called(e.name, DESCRIPTION) {
      if |e.content| > MAX_DESCRIPTION {
        return None;
      }
      g := g.(description := e.content);
    } else if IsImage(e.name) {
      if !IsRecovery(e.name) {
        g := g.(rootfs := e.name);
      }
      var image := gzip(e.content);
      if image.None? {
        return None;
      }
      if IsRecovery(e.name) {
        var marker := new MarkerWriter(RECOVERY_MARKER);
        var _ := marker.Write(image.value);
        assert marker.seen == image.value;
        g := g.(capable := marker.found);
      }
    }
    r := Some(g);
  }

  function Then(seen: seq<Entry>, rest: Option<seq<Entry>>): Option<seq<Entry>> {
    match rest case None => None case Some(es) => Some(seen + es)
  }

  lemma NothingSeen(rest: Option<seq<Entry>>)
    ensures Then([], rest) == rest
  {
    if rest.Some? {
      assert [] + rest.value == rest.value;
    }
  }

  lemma Grouped(x: seq<Entry>, y: seq<Entry>, z: seq<Entry>)
    ensures x + (y + z) == x + y + z
  {
  }

  lemma WalkStep(s: seq<byte>, strict: bool, accept: Entry -> bool, seen: seq<Entry>, e: Entry, rest: seq<byte>)
    requires NextEntry(s, strict) == Got(e, rest) && accept(e)
    ensures Then(seen, Walk(s, strict, accept)) == Then(seen + [e], Walk(rest, strict, accept))
  {
    var r := Walk(rest, strict, accept);
    if r.Some? {
      Grouped(seen, [e], r.value);
    }
  }
}
