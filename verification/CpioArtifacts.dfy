/** What the two walks over an update package come to: what is learned, what is written, and where they disagree. */
module CpioArtifacts {
  import opened Bits
  import opened Options
  import opened Cpio
  import opened CpioWalk
  import opened MarkerSearch

  // ---------------------------------------------------------------------------------------------
  // The last entry of a kind.

  function Latest(es: seq<Entry>, kind: Entry -> bool): Option<Entry> {
    if es == [] then None
    else if kind(es[|es| - 1]) then Some(es[|es| - 1])
    else Latest(es[..|es| - 1], kind)
  }

  /** There is none exactly if no entry is of the kind; otherwise it is one with no other behind it. */
  lemma {:induction false} LatestIsLast(es: seq<Entry>, kind: Entry -> bool)
    ensures Latest(es, kind).None? <==> forall j :: 0 <= j < |es| ==> !kind(es[j])
    ensures Latest(es, kind).Some? ==>
      exists i :: 0 <= i < |es| && es[i] == Latest(es, kind).value && kind(es[i])
        && forall j :: i < j < |es| ==> !kind(es[j])
  {
    if es != [] && !kind(es[|es| - 1]) {
      var front := es[..|es| - 1];
      LatestIsLast(front, kind);
      assert forall j :: 0 <= j < |front| ==> front[j] == es[j];
      if Latest(front, kind).Some? {
        var i :| 0 <= i < |front| && front[i] == Latest(front, kind).value && kind(front[i])
          && forall j :: i < j < |front| ==> !kind(front[j]);
        LastStays(es, front, kind, i);
      }
    }
  }

  lemma LastStays(es: seq<Entry>, front: seq<Entry>, kind: Entry -> bool, i: nat)
    requires i + 1 < |es| && front == es[..|es| - 1] && !kind(es[|es| - 1])
    requires forall j :: i < j < |front| ==> !kind(front[j])
    ensures forall j :: i < j < |es| ==> !kind(es[j])
  {
    forall j | i < j < |es|
      ensures !kind(es[j])
    {
      assert j < |front| ==> front[j] == es[j];
    }
  }

  lemma LatestStep(es: seq<Entry>, kind: Entry -> bool)
    requires es != []
    ensures Latest(es, kind) == if kind(es[|es| - 1]) then Some(es[|es| - 1]) else Latest(es[..|es| - 1], kind)
  {
  }

  // ---------------------------------------------------------------------------------------------
  // What is written.

  /** The extractor writes the entry's content to the file `b`. */
  function WrittenTo(b: seq<byte>): Entry -> bool {
    (e: Entry) => IsArtifact(e.name) && BaseOf(e.name) == b
  }

  predicate IsFit(e: Entry) {
    BaseOf(e.name) == FIT_IMAGE
  }

  predicate IsRecoveryEntry(e: Entry) {
    !IsFit(e) && IsRecoveryFile(e.name)
  }

  /** A file is there exactly if some entry is written to it, and it holds the content of the last one. */
  predicate HoldsLatest(files: map<seq<byte>, seq<byte>>, es: seq<Entry>, b: seq<byte>) {
    if b in files then Latest(es, WrittenTo(b)).Some? && files[b] == Latest(es, WrittenTo(b)).value.content
    else Latest(es, WrittenTo(b)).None?
  }

  lemma {:induction false} TakenFiles(es: seq<Entry>, b: seq<byte>)
    ensures HoldsLatest(TakeAll(es).files, es, b)
  {
    if es != [] {
      TakenFiles(es[..|es| - 1], b);
      LatestStep(es, WrittenTo(b));
      OneTaken(TakeAll(es[..|es| - 1]), es[|es| - 1], b);
    }
  }

  lemma OneTaken(t: Taken, e: Entry, b: seq<byte>)
    ensures b in Take(t, e).files <==> b in t.files || WrittenTo(b)(e)
    ensures b in Take(t, e).files ==> Take(t, e).files[b] == if WrittenTo(b)(e) then e.content else t.files[b]
  {
  }

  /** Both kinds of artifact are reported as found exactly if an entry of that kind is there. */
  lemma {:induction false} TakenFlags(es: seq<Entry>)
    ensures TakeAll(es).fit == Latest(es, IsFit).Some?
    ensures TakeAll(es).recovery == Latest(es, IsRecoveryEntry).Some?
  {
    if es != [] {
      TakenFlags(es[..|es| - 1]);
      LatestStep(es, IsFit);
      LatestStep(es, IsRecoveryEntry);
    }
  }

  // ---------------------------------------------------------------------------------------------
  // What is learned.

  predicate IsDescription(e: Entry) {
    Called(e.name, DESCRIPTION)
  }

  predicate IsSignature(e: Entry) {
    Called(e.name, SIGNATURE)
  }

  /** A root image to the validator, which goes by the whole name. */
  predicate IsRoot(e: Entry) {
    !IsDescription(e) && IsImage(e.name) && !IsRecovery(e.name)
  }

  /** A recovery image to the validator. */
  predicate IsSearched(e: Entry) {
    !IsDescription(e) && IsImage(e.name) && IsRecovery(e.name)
  }

  /**
   * The validator reports the number of entries, a signature among them, the last description and root image, and the
   * marker in the last recovery image.
   */
  lemma {:induction false} Learned(gzip: Inflate, es: seq<Entry>)
    ensures var f := LearnAll(gzip, es);
      && f.entries == |es| && f.signed == Latest(es, IsSignature).Some?
      && f.description == (match Latest(es, IsDescription) case None => [] case Some(e) => e.content)
      && f.rootfs == (match Latest(es, IsRoot) case None => [] case Some(e) => e.name)
      && f.capable == (match Latest(es, IsSearched) case None => false case Some(e) => Marked(gzip, e.content))
  {
    if es != [] {
      Learned(gzip, es[..|es| - 1]);
      LatestStep(es, IsSignature);
      LatestStep(es, IsDescription);
      LatestStep(es, IsRoot);
      LatestStep(es, IsSearched);
      OneLearned(gzip, LearnAll(gzip, es[..|es| - 1]), es[|es| - 1]);
    }
  }

  lemma OneLearned(gzip: Inflate, f: Found, e: Entry)
    ensures var g := Learn(gzip, f, e);
      && g.entries == f.entries + 1 && g.signed == (f.signed || IsSignature(e))
      && g.description == (if IsDescription(e) then e.content else f.description)
      && g.rootfs == (if IsRoot(e) then e.name else f.rootfs)
      && g.capable == (if IsSearched(e) then Marked(gzip, e.content) else f.capable)
  {
  }

  /** The marker stands in the bytes, behind an even number of copies of its first eight. */
  ghost predicate MarkerInSight(data: seq<byte>) {
    exists i: nat :: InSight(RECOVERY_MARKER, [8], data, i)
  }

  /** A package is reported as able to recover exactly if its last recovery image has the marker in sight. */
  lemma CapableIff(gzip: Inflate, es: seq<Entry>)
    ensures LearnAll(gzip, es).capable <==>
      match Latest(es, IsSearched)
      case None => false
      case Some(e) => gzip(e.content).Some? && MarkerInSight(gzip(e.content).value)
  {
    Learned(gzip, es);
    if Latest(es, IsSearched).Some? && gzip(Latest(es, IsSearched).value.content).Some? {
      RecoveryMarkerIsFoundIff(gzip(Latest(es, IsSearched).value.content).value);
    }
  }

  // ---------------------------------------------------------------------------------------------
  // Names.

  predicate IsAscii(s: seq<byte>) {
    forall i :: 0 <= i < |s| ==> s[i] < 0x80
  }

  lemma NotSpecial(s: seq<byte>)
    requires s != [] && s[0] < 0x80
    ensures Lower(s) == [LowerByte(s[0])] + Lower(s[1..])
  {
    assert |s| >= 2 ==> s[..2][0] == s[0];
    assert |s| >= 3 ==> s[..3][0] == s[0];
  }

  lemma {:induction false} LowerAscii(s: seq<byte>)
    requires IsAscii(s)
    ensures |Lower(s)| == |s| && forall i :: 0 <= i < |s| ==> Lower(s)[i] == LowerByte(s[i])
  {
    if s != [] {
      NotSpecial(s);
      LowerAscii(s[1..]);
    }
  }

  predicate IsSmall(s: seq<byte>) {
    forall i :: 0 <= i < |s| ==> s[i] < 0x80 && LowerByte(s[i]) == s[i]
  }

  lemma LowerSmall(s: seq<byte>)
    requires IsSmall(s)
    ensures Lower(s) == s
  {
    LowerAscii(s);
  }

  /** No letter of more than one byte lies across. */
  predicate Parted(x: seq<byte>, y: seq<byte>) {
    x == [] || y == [] || x[|x| - 1] < 0x80 || y[0] < 0x80
  }

  /** What a text starts with is not changed by what comes behind, if no letter lies across. */
  lemma StartParted(x: seq<byte>, y: seq<byte>, p: seq<byte>)
    requires Parted(x, y) && x != [] && p != [] && forall i :: 0 <= i < |p| ==> p[i] >= 0x80
    ensures StartsWith(x + y, p) <==> StartsWith(x, p)
  {
    if |x| >= |p| {
      assert (x + y)[..|p|] == x[..|p|];
    } else if |x + y| >= |p| {
      var n := |x|;
      assert (x + y)[..|p|][n - 1] == x[n - 1] && (x + y)[..|p|][n] == y[0];
    }
  }

  lemma {:induction false} LowerConcat(x: seq<byte>, y: seq<byte>)
    requires Parted(x, y)
    ensures Lower(x + y) == Lower(x) + Lower(y)
    decreases |x|
  {
    if x == [] {
      assert x + y == y;
    } else {
      SameLetter(x, y);
      LowerFirst(x);
      LowerFirst(x + y);
      Behind(x, y, Width(x));
      LowerConcat(x[Width(x)..], y);
      FirstThenBoth(LowerLetter(x), Lower(x[Width(x)..]), Lower(y));
    }
  }

  /** How many bytes the first letter has that is changed as a whole. */
  function Width(s: seq<byte>): (n: nat)
    requires s != []
    ensures 1 <= n <= |s|
  {
    if StartsWith(s, DOTTED_I) then 2 else if StartsWith(s, KELVIN) then 3 else 1
  }

  function LowerLetter(s: seq<byte>): byte
    requires s != []
  {
    if StartsWith(s, DOTTED_I) then 0x69 else if StartsWith(s, KELVIN) then 0x6B else LowerByte(s[0])
  }

  lemma LowerFirst(s: seq<byte>)
    requires s != []
    ensures Lower(s) == [LowerLetter(s)] + Lower(s[Width(s)..])
  {
  }

  lemma SameLetter(x: seq<byte>, y: seq<byte>)
    requires Parted(x, y) && x != []
    ensures Width(x + y) == Width(x) && LowerLetter(x + y) == LowerLetter(x)
  {
    StartParted(x, y, DOTTED_I);
    StartParted(x, y, KELVIN);
  }

  lemma Behind(x: seq<byte>, y: seq<byte>, n: nat)
    requires n <= |x|
    ensures (x + y)[n..] == x[n..] + y
  {
  }

  lemma FirstThenBoth(b: byte, x: seq<byte>, y: seq<byte>)
    ensures [b] + (x + y) == [b] + x + y
  {
  }

  lemma LowerFolder(folder: seq<byte>)
    requires folder != [] && IsFolder(folder)
    ensures Lower(folder) != [] && Lower(folder)[|Lower(folder)| - 1] == SLASH
  {
    var n := |folder| - 1;
    assert folder == folder[..n] + [SLASH];
    LowerConcat(folder[..n], [SLASH]);
    LowerAscii([SLASH]);
  }

  lemma {:induction false} AfterSlashEnds(name: seq<byte>)
    ensures EndsWith(name, AfterSlash(name)) && SLASH !in AfterSlash(name)
  {
    if name != [] && name[|name| - 1] != SLASH {
      AfterSlashEnds(name[..|name| - 1]);
    }
  }

  lemma SuffixOfSuffix(s: seq<byte>, t: seq<byte>, u: seq<byte>)
    requires EndsWith(s, t) && EndsWith(t, u)
    ensures EndsWith(s, u)
  {
    assert t[|t| - |u|..] == s[|s| - |u|..];
  }

  /** To end in a small-letter suffix without regard to case is implied by ending in it. */
  lemma LowerEnds(name: seq<byte>)
    requires EndsWith(name, IMAGE_SUFFIX)
    ensures IsImage(name)
  {
    var front := name[..|name| - 8];
    assert name == front + IMAGE_SUFFIX;
    SmallEnd(front, IMAGE_SUFFIX);
  }

  lemma SmallEnd(front: seq<byte>, p: seq<byte>)
    requires IsSmall(p)
    ensures EndsWith(Lower(front + p), p)
  {
    LowerConcat(front, p);
    LowerSmall(p);
  }

  lemma SmallStart(p: seq<byte>, rest: seq<byte>)
    requires IsSmall(p)
    ensures StartsWith(Lower(p + rest), p)
  {
    LowerConcat(p, rest);
    LowerSmall(p);
  }

  lemma LastByte(s: seq<byte>, suffix: seq<byte>)
    requires suffix != [] && EndsWith(s, suffix)
    ensures s[|s| - 1] == suffix[|suffix| - 1]
  {
    assert s[|s| - |suffix|..][|suffix| - 1] == s[|s| - 1];
  }

  predicate EndsPlain(name: seq<byte>) {
    name != [] && name[|name| - 1] != SLASH
  }

  /** The validator decompresses a recovery file exactly if its name does not end in a slash. */
  lemma RecoveryFileIsImage(name: seq<byte>)
    requires IsRecoveryFile(name)
    ensures IsImage(name) <==> EndsPlain(name)
    ensures !Called(name, DESCRIPTION)
  {
    if EndsPlain(name) {
      AfterSlashEnds(name);
      SuffixOfSuffix(name, BaseOf(name), IMAGE_SUFFIX);
      LowerEnds(name);
      LastByte(name, IMAGE_SUFFIX);
    } else {
      SlashedIsNoImage(name);
    }
    if Called(name, DESCRIPTION) {
      EndsInN(name);
      assert false;
    }
  }

  lemma EndsInN(name: seq<byte>)
    requires Called(name, DESCRIPTION)
    ensures name[|name| - 1] == 0x6E
  {
    if name != DESCRIPTION {
      LastByte(name, [SLASH] + DESCRIPTION);
    }
  }

  /** What comes in front of the last element of a path, with its slash. */
  function FolderOf(name: seq<byte>): seq<byte> {
    if name == [] || name[|name| - 1] == SLASH then name else FolderOf(name[..|name| - 1])
  }

  predicate IsFolder(folder: seq<byte>) {
    folder == [] || folder[|folder| - 1] == SLASH
  }

  /** A path that does not end in a slash is a folder, perhaps none, and a last element. */
  lemma {:induction false} FolderAndBase(name: seq<byte>)
    ensures name == FolderOf(name) + AfterSlash(name) && IsFolder(FolderOf(name)) && SLASH !in AfterSlash(name)
    ensures EndsPlain(name) ==> AfterSlash(name) != [] && BaseOf(name) == AfterSlash(name)
  {
    if name != [] && name[|name| - 1] != SLASH {
      FolderAndBase(name[..|name| - 1]);
    }
  }

  lemma {:induction false} PathParts(folder: seq<byte>, b: seq<byte>)
    requires IsFolder(folder) && SLASH !in b
    ensures AfterSlash(folder + b) == b && FolderOf(folder + b) == folder
  {
    if b == [] {
      assert folder + b == folder;
    } else {
      var front := b[..|b| - 1];
      PathParts(folder, front);
      assert b == front + [b[|b| - 1]];
      assert (folder + b)[..|folder + b| - 1] == folder + front;
    }
  }

  lemma PathBase(folder: seq<byte>, b: seq<byte>)
    requires IsFolder(folder) && SLASH !in b && b != []
    ensures EndsPlain(folder + b) && BaseOf(folder + b) == b && FolderOf(folder + b) == folder
  {
    PathParts(folder, b);
    var name := folder + b;
    assert name[|name| - 1] == b[|b| - 1];
    assert EndsPlain(name) && WithoutSlashes(name) == name;
  }

  /** Without regard to case, a path starts like a recovery image if its first element does. */
  lemma StartOfPath(folder: seq<byte>, b: seq<byte>)
    requires IsFolder(folder)
    ensures IsRecovery(folder + b) <==> IsRecovery(if folder == [] then b else folder)
  {
    if folder == [] {
      assert folder + b == b;
    } else {
      LowerConcat(folder, b);
      LowerFolder(folder);
      StartBeforeSlash(Lower(folder), Lower(b), RECOVERY_PREFIX);
    }
  }

  lemma StartBeforeSlash(x: seq<byte>, y: seq<byte>, p: seq<byte>)
    requires x != [] && x[|x| - 1] == SLASH && SLASH !in p
    ensures StartsWith(x + y, p) <==> StartsWith(x, p)
  {
    if |x| >= |p| {
      assert (x + y)[..|p|] == x[..|p|];
    } else if |x + y| >= |p| {
      assert (x + y)[..|p|][|x| - 1] == SLASH;
    }
  }

  lemma EndBehindSlash(x: seq<byte>, y: seq<byte>, p: seq<byte>)
    requires x != [] && x[|x| - 1] == SLASH && SLASH !in p
    ensures EndsWith(x + y, p) <==> EndsWith(y, p)
  {
    var s := x + y;
    if |y| >= |p| {
      assert s[|s| - |p|..] == y[|y| - |p|..];
    } else if |s| >= |p| {
      assert s[|s| - |p|..][|p| - |y| - 1] == SLASH;
    }
  }

  /** Without regard to case, a path ends like an image if its last element does. */
  lemma EndOfPath(folder: seq<byte>, b: seq<byte>)
    requires IsFolder(folder) && SLASH !in b
    ensures IsImage(folder + b) <==> IsImage(b)
  {
    if folder == [] {
      assert folder + b == b;
    } else {
      LowerConcat(folder, b);
      LowerFolder(folder);
      EndBehindSlash(Lower(folder), Lower(b), IMAGE_SUFFIX);
    }
  }

  /** To start in a small-letter prefix without regard to case is implied by starting in it. */
  lemma LowerStarts(name: seq<byte>)
    requires StartsWith(name, RECOVERY_PREFIX)
    ensures IsRecovery(name)
  {
    assert name == RECOVERY_PREFIX + name[15..];
    SmallStart(RECOVERY_PREFIX, name[15..]);
  }

  /** The part of a path by which the validator tells a recovery image from a root image. */
  function FirstPart(name: seq<byte>): seq<byte> {
    if FolderOf(name) == [] then BaseOf(name) else FolderOf(name)
  }

  /** A recovery image in a folder that is not called like one. */
  predicate MixedUp(name: seq<byte>) {
    EndsPlain(name) && FolderOf(name) != [] && !IsRecovery(FolderOf(name)) && Exact(BaseOf(name))
  }

  /** An image, not called like a recovery image letter for letter, whose path starts like one. */
  predicate Skipped(name: seq<byte>) {
    EndsPlain(name) && IsImage(BaseOf(name)) && IsRecovery(FirstPart(name)) && !Exact(BaseOf(name))
  }

  /** A recovery image with a slash behind its name. */
  predicate Unseen(name: seq<byte>) {
    !EndsPlain(name) && Exact(BaseOf(name))
  }

  lemma PlainRecovery(name: seq<byte>)
    requires EndsPlain(name)
    ensures IsRecovery(name) <==> IsRecovery(FirstPart(name))
    ensures IsImage(name) <==> IsImage(BaseOf(name))
    ensures Exact(BaseOf(name)) ==> IsImage(BaseOf(name)) && (FolderOf(name) == [] ==> IsRecovery(name))
  {
    var b := BaseOf(name);
    FolderAndBase(name);
    StartOfPath(FolderOf(name), b);
    EndOfPath(FolderOf(name), b);
    if Exact(b) {
      LowerEnds(b);
      LowerStarts(b);
    }
  }

  lemma SlashedIsNoImage(name: seq<byte>)
    requires !EndsPlain(name)
    ensures !IsImage(name)
  {
    if name != [] {
      LowerFolder(name);
    }
    if IsImage(name) {
      LastByte(Lower(name), IMAGE_SUFFIX);
      assert false;
    }
  }

  /**
   * Validator and extractor agree on what is a recovery image exactly for the names that are none of the three: one
   * is a root image to the validator, one is left where it is by the extractor, one is never decompressed.
   */
  lemma RecoveryAgreesIff(e: Entry)
    ensures (IsImage(e.name) && IsRecovery(e.name) <==> IsRecoveryFile(e.name))
      <==> !MixedUp(e.name) && !Skipped(e.name) && !Unseen(e.name)
    ensures IsRoot(e) && IsRecoveryFile(e.name) <==> MixedUp(e.name)
    ensures IsImage(e.name) && IsRecovery(e.name) && !IsRecoveryFile(e.name) <==> Skipped(e.name)
    ensures !IsImage(e.name) && IsRecoveryFile(e.name) <==> Unseen(e.name)
  {
    if EndsPlain(e.name) {
      PlainRecovery(e.name);
    } else {
      SlashedIsNoImage(e.name);
    }
    if IsRecoveryFile(e.name) {
      RecoveryFileIsImage(e.name);
    }
  }

  /**
   * A recovery image in any folder that is not called like one is a root image to the validator and a recovery image to
   * the extractor.
   */
  lemma FolderMixesUp(folder: seq<byte>, b: seq<byte>)
    requires folder != [] && IsFolder(folder) && !IsRecovery(folder) && SLASH !in b && Exact(b)
    ensures var e := Entry(folder + b, []);
      IsRoot(e) && IsRecoveryFile(e.name)
  {
    PathBase(folder, b);
    RecoveryAgreesIff(Entry(folder + b, []));
  }

  /**
   * Any other image in a folder that is called like a recovery image, or one called so in capital letters, is a
   * recovery image to the validator and nothing to the extractor.
   */
  lemma FolderIsSkipped(folder: seq<byte>, b: seq<byte>)
    requires IsFolder(folder) && IsRecovery(if folder == [] then b else folder)
    requires SLASH !in b && IsImage(b) && !Exact(b)
    ensures var e := Entry(folder + b, []);
      IsImage(e.name) && IsRecovery(e.name) && !IsRecoveryFile(e.name)
  {
    PathBase(folder, b);
    RecoveryAgreesIff(Entry(folder + b, []));
  }

  /**
   * "swupdate-image-/r.ext4.gz", "Swupdate-image-.ext4.gz" and "swupdate-image-.ext4.gz" with a dotted capital I are
   * such names.
   */
  lemma SkippedNames()
    ensures Skipped(RECOVERY_PREFIX + [SLASH] + [0x72] + IMAGE_SUFFIX)
    ensures Skipped([0x53] + RECOVERY_PREFIX[1..] + IMAGE_SUFFIX)
    ensures Skipped(RECOVERY_PREFIX[..9] + DOTTED_I + RECOVERY_PREFIX[10..] + IMAGE_SUFFIX)
  {
    var folder, r := RECOVERY_PREFIX + [SLASH], [0x72] + IMAGE_SUFFIX;
    LowerStarts(folder);
    LowerEnds(r);
    assert r[..1] == [0x72] && r[0] == 0x72;
    InFolderSkipped(folder, r);
    assert folder + r == RECOVERY_PREFIX + [SLASH] + [0x72] + IMAGE_SUFFIX;
    CapitalName([0x53], RECOVERY_PREFIX[1..]);
    DottedName(RECOVERY_PREFIX[..9], RECOVERY_PREFIX[10..]);
  }

  lemma InFolderSkipped(folder: seq<byte>, b: seq<byte>)
    requires folder != [] && IsFolder(folder) && IsRecovery(folder)
    requires b != [] && SLASH !in b && IsImage(b) && b[0] != RECOVERY_PREFIX[0]
    ensures Skipped(folder + b)
  {
    PathBase(folder, b);
    OtherStart(b);
  }

  lemma OtherStart(b: seq<byte>)
    requires b != [] && b[0] != RECOVERY_PREFIX[0]
    ensures !StartsWith(b, RECOVERY_PREFIX)
  {
    assert |b| >= 15 ==> b[..15][0] == b[0];
  }

  lemma PlainSkipped(b: seq<byte>)
    requires b != [] && SLASH !in b && IsImage(b) && IsRecovery(b) && !Exact(b)
    ensures Skipped(b)
  {
    PathBase([], b);
    assert [] + b == b;
  }

  lemma CapitalName(c: seq<byte>, y: seq<byte>)
    requires c == [0x53] && y == RECOVERY_PREFIX[1..]
    ensures Skipped(c + y + IMAGE_SUFFIX)
  {
    var b := c + y + IMAGE_SUFFIX;
    LowerEnds(b);
    LowerCapital(c);
    assert [0x73] + y == RECOVERY_PREFIX;
    CapitalIsRecovery(c, [0x73], y, IMAGE_SUFFIX);
    assert b[0] == 0x53;
    OtherAt(b, 0);
    NoSlash(c, y, IMAGE_SUFFIX);
    PlainSkipped(b);
  }

  lemma LowerCapital(c: seq<byte>)
    requires c == [0x53]
    ensures Lower(c) == [0x73]
  {
    assert c[1..] == [];
  }

  lemma CapitalIsRecovery(c: seq<byte>, low: seq<byte>, y: seq<byte>, z: seq<byte>)
    requires IsAscii(c) && Lower(c) == low && IsSmall(y) && y != [] && low + y == RECOVERY_PREFIX
    ensures IsRecovery(c + y + z)
  {
    LowerConcat(c, y);
    LowerSmall(y);
    LowerConcat(c + y, z);
    StartOfBoth(RECOVERY_PREFIX, Lower(z));
  }

  lemma NoSlash(x: seq<byte>, y: seq<byte>, z: seq<byte>)
    requires SLASH !in x && SLASH !in y && SLASH !in z
    ensures SLASH !in x + y + z
  {
  }

  /** With another byte at some place of the prefix a name is not called like a recovery image letter for letter. */
  lemma OtherAt(b: seq<byte>, i: nat)
    requires i < 15 && i < |b| && b[i] != RECOVERY_PREFIX[i]
    ensures !Exact(b)
  {
    assert |b| >= 15 ==> b[..15][i] == b[i];
  }

  lemma DottedName(x: seq<byte>, y: seq<byte>)
    requires x == RECOVERY_PREFIX[..9] && y == RECOVERY_PREFIX[10..]
    ensures Skipped(x + DOTTED_I + y + IMAGE_SUFFIX)
  {
    var b := x + DOTTED_I + y + IMAGE_SUFFIX;
    LowerEnds(b);
    assert x + [0x69] + y == RECOVERY_PREFIX;
    DottedIsRecovery(x, y, IMAGE_SUFFIX);
    assert b[9] == 0xC4;
    OtherAt(b, 9);
    NoSlash(x + DOTTED_I, y, IMAGE_SUFFIX);
    PlainSkipped(b);
  }

  lemma DottedIsRecovery(x: seq<byte>, y: seq<byte>, z: seq<byte>)
    requires IsSmall(x) && IsSmall(y) && y != [] && x + [0x69] + y == RECOVERY_PREFIX
    ensures IsRecovery(x + DOTTED_I + y + z)
  {
    LowerDotted(DOTTED_I);
    MiddleLower(x, DOTTED_I, [0x69], y);
    LowerConcat(x + DOTTED_I + y, z);
    StartOfBoth(RECOVERY_PREFIX, Lower(z));
  }

  lemma StartOfBoth(p: seq<byte>, rest: seq<byte>)
    ensures StartsWith(p + rest, p)
  {
  }

  lemma LowerDotted(dotted: seq<byte>)
    requires dotted == DOTTED_I
    ensures Lower(dotted) == [0x69]
  {
    assert dotted[..2] == dotted && dotted[2..] == [];
  }

  lemma MiddleLower(x: seq<byte>, middle: seq<byte>, low: seq<byte>, y: seq<byte>)
    requires IsSmall(x) && IsSmall(y) && y != [] && Lower(middle) == low
    ensures Lower(x + middle + y) == x + low + y
  {
    LowerConcat(x + middle, y);
    LowerConcat(x, middle);
    LowerSmall(x);
    LowerSmall(y);
  }

  // ---------------------------------------------------------------------------------------------
  // Packages that were validated.

  lemma {:induction false} WalkAccepted(s: seq<byte>, strict: bool, accept: Entry -> bool)
    requires Walk(s, strict, accept).Some?
    ensures forall e :: e in Walk(s, strict, accept).value ==> accept(e)
    decreases |s|
  {
    var n := NextEntry(s, strict);
    if n.Got? {
      WalkAccepted(n.rest, strict, accept);
    }
  }

  /**
   * From a package that was validated the extractor takes, if it can write its files, the validated entries: every
   * file holds the content of the last entry with that base name, and a recovery image decompresses, unless its name
   * ends in a slash.
   */
  lemma ExtractedWasValidated(s: seq<byte>, gzip: Inflate, writes: Entry -> bool)
    requires Walk(s, true, Accepts(gzip)).Some?
    requires forall e :: e in Walk(s, true, Accepts(gzip)).value ==> Stores(writes)(e)
    ensures var es := Walk(s, true, Accepts(gzip)).value;
      var files := TakeAll(es).files;
      && Walk(s, false, Stores(writes)) == Some(es)
      && (forall b :: HoldsLatest(files, es, b))
      && (forall e :: e in es && IsRecoveryFile(e.name) && EndsPlain(e.name) ==> gzip(e.content).Some?)
  {
    var es := Walk(s, true, Accepts(gzip)).value;
    LaxSeesTheSame(s, Accepts(gzip), Stores(writes));
    WalkAccepted(s, true, Accepts(gzip));
    forall b
      ensures HoldsLatest(TakeAll(es).files, es, b)
    {
      TakenFiles(es, b);
    }
    forall e | e in es && IsRecoveryFile(e.name) && EndsPlain(e.name)
      ensures gzip(e.content).Some?
    {
      RecoveryFileIsImage(e.name);
      assert Accepts(gzip)(e);
    }
  }
}
