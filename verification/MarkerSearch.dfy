/**
 * The search for a marker in the bytes of a recovery image. The writer compares each byte with the next one of the
 * marker and, where they differ, goes back to the first byte of the marker and no further, so that a marker which
 * begins inside an earlier attempt may be passed over.
 */
module MarkerSearch {
  import opened Bits

  /** "AIPC_LOCAL_RECOVERY_V1" */
  const RECOVERY_MARKER: seq<byte> :=
    [0x41, 0x49, 0x50, 0x43, 0x5F, 0x4C, 0x4F, 0x43, 0x41, 0x4C, 0x5F,
     0x52, 0x45, 0x43, 0x4F, 0x56, 0x45, 0x52, 0x59, 0x5F, 0x56, 0x31]

  /** "AIPC_LOCAL_RECOVERY_ANY_MODE_V1" */
  const ANY_MODE_MARKER: seq<byte> :=
    [0x41, 0x49, 0x50, 0x43, 0x5F, 0x4C, 0x4F, 0x43, 0x41, 0x4C, 0x5F,
     0x52, 0x45, 0x43, 0x4F, 0x56, 0x45, 0x52, 0x59, 0x5F,
     0x41, 0x4E, 0x59, 0x5F, 0x4D, 0x4F, 0x44, 0x45, 0x5F, 0x56, 0x31]

  // ---------------------------------------------------------------------------------------------
  // The writer on values: how many bytes of the marker match, all of them when it is found.

  function Next(m: seq<byte>, begun: nat, value: byte): (r: nat)
    requires m != [] && begun <= |m|
    ensures r <= |m| && r <= begun + 1
  {
    if begun == |m| then begun
    else if value == m[begun] then begun + 1
    else if value == m[0] then 1
    else 0
  }

  /** The state behind the first `n` bytes. */
  function State(m: seq<byte>, data: seq<byte>, n: nat): (r: nat)
    requires m != [] && n <= |data|
    ensures r <= |m|
  {
    if n == 0 then 0 else Next(m, State(m, data, n - 1), data[n - 1])
  }

  predicate Finds(m: seq<byte>, data: seq<byte>)
    requires m != []
  {
    State(m, data, |data|) == |m|
  }

  // ---------------------------------------------------------------------------------------------
  // What is in the data, without the writer.

  /** The first `k` bytes of the marker stand at position `i`. */
  predicate Stands(m: seq<byte>, data: seq<byte>, i: nat, k: nat) {
    k <= |m| && i + k <= |data| && data[i..i + k] == m[..k]
  }

  ghost predicate Occurs(m: seq<byte>, data: seq<byte>) {
    exists i: nat :: Stands(m, data, i, |m|)
  }

  /** `p` bytes of the marker stand in front of `i`, and the next byte of the marker is like its first. */
  predicate Swallows(m: seq<byte>, data: seq<byte>, i: nat, p: nat)
    requires m != [] && 1 <= p <= i
  {
    p < |m| && m[p] == m[0] && Stands(m, data, i - p, p)
  }

  /**
   * The marker's first byte stands at `i` and begins an attempt: no earlier attempt takes it for a byte of its own.
   */
  ghost predicate Begins(m: seq<byte>, data: seq<byte>, i: nat)
    requires m != []
    decreases i
  {
    Stands(m, data, i, 1) && forall p :: 1 <= p <= i && Swallows(m, data, i, p) ==> !Begins(m, data, i - p)
  }

  /**
   * A begun match of `k` bytes ends in a begun match of `j` bytes that goes on with another byte: what continues the
   * shorter one breaks the longer one.
   */
  predicate Clash(m: seq<byte>, j: nat, k: nat) {
    1 <= j < k < |m| && m[..j] == m[k - j..k] && m[j] != m[k]
  }

  ghost predicate Clashes(m: seq<byte>) {
    exists j: nat, k: nat :: Clash(m, j, k)
  }

  // ---------------------------------------------------------------------------------------------
  // The state is the length of the attempt under way.

  predicate Unfound(m: seq<byte>, data: seq<byte>, n: nat)
    requires m != [] && n <= |data|
  {
    n == 0 || State(m, data, n - 1) < |m|
  }

  lemma {:induction false} FoundStays(m: seq<byte>, data: seq<byte>, k: nat, n: nat)
    requires m != [] && k <= n <= |data| && State(m, data, k) == |m|
    ensures State(m, data, n) == |m|
  {
    if k < n {
      FoundStays(m, data, k, n - 1);
    }
  }

  lemma EarlierUnfound(m: seq<byte>, data: seq<byte>, n: nat)
    requires m != [] && 0 < n <= |data| && Unfound(m, data, n)
    ensures Unfound(m, data, n - 1)
  {
  }

  lemma ShorterStands(m: seq<byte>, data: seq<byte>, i: nat, k: nat, l: nat)
    requires Stands(m, data, i, k) && l <= k
    ensures Stands(m, data, i, l)
    ensures l < k ==> data[i + l] == m[l]
  {
    assert data[i..i + l] == data[i..i + k][..l];
    if l < k {
      assert data[i..i + k][l] == m[..k][l];
    }
  }

  lemma LongerStands(m: seq<byte>, data: seq<byte>, i: nat, k: nat)
    requires Stands(m, data, i, k) && k < |m| && i + k < |data| && data[i + k] == m[k]
    ensures Stands(m, data, i, k + 1)
  {
    assert data[i..i + k + 1] == data[i..i + k] + [data[i + k]];
  }

  /** The bytes that match so far are an attempt that began. */
  lemma {:induction false} StateHasBegun(m: seq<byte>, data: seq<byte>, n: nat)
    requires m != [] && n <= |data| && Unfound(m, data, n)
    ensures var s := State(m, data, n);
      s <= n && Stands(m, data, n - s, s) && (s > 0 ==> Begins(m, data, n - s))
    decreases n, 0
  {
    if n > 0 {
      var s0, s := State(m, data, n - 1), State(m, data, n);
      EarlierUnfound(m, data, n);
      StateHasBegun(m, data, n - 1);
      if s0 > 0 && data[n - 1] == m[s0] {
        LongerStands(m, data, n - 1 - s0, s0);
      } else if data[n - 1] == m[0] {
        NewAttempt(m, data, n - 1);
      }
    }
  }

  lemma NotSwallowed(m: seq<byte>, data: seq<byte>, i: nat, p: nat)
    requires m != [] && 1 <= p <= i && p < |m| && Stands(m, data, i - p, p)
    requires Begins(m, data, i) && Begins(m, data, i - p)
    ensures m[p] != m[0]
  {
    assert !Swallows(m, data, i, p);
  }

  /** Where the writer goes back to one matching byte, an attempt begins. */
  lemma {:induction false} NewAttempt(m: seq<byte>, data: seq<byte>, i: nat)
    requires m != [] && i < |data| && Unfound(m, data, i) && State(m, data, i) < |m|
    requires data[i] == m[0] && (State(m, data, i) == 0 || data[i] != m[State(m, data, i)])
    ensures Stands(m, data, i, 1) && Begins(m, data, i)
    decreases i, 1
  {
    assert data[i..i + 1] == m[..1];
    if p :| 1 <= p <= i && Swallows(m, data, i, p) && Begins(m, data, i - p) {
      BegunIsState(m, data, i - p, i);
      assert false;
    }
  }

  /** An attempt that began is what the state counts, as long as it matches. */
  lemma {:induction false} BegunIsState(m: seq<byte>, data: seq<byte>, i: nat, n: nat)
    requires m != [] && i < n <= |data| && Unfound(m, data, n)
    requires Begins(m, data, i) && Stands(m, data, i, n - i)
    ensures State(m, data, n) == n - i
    decreases n, 0
  {
    ShorterStands(m, data, i, n - i, n - 1 - i);
    EarlierUnfound(m, data, n);
    if i < n - 1 {
      BegunIsState(m, data, i, n - 1);
    } else {
      StateHasBegun(m, data, i);
      assert data[i] == m[0];
      if State(m, data, i) > 0 {
        NotSwallowed(m, data, i, State(m, data, i));
      }
    }
  }

  // ---------------------------------------------------------------------------------------------
  // What is found.

  lemma {:induction false} FirstFound(m: seq<byte>, data: seq<byte>, n: nat) returns (k: nat)
    requires m != [] && n <= |data| && State(m, data, n) == |m|
    ensures 0 < k <= n && State(m, data, k) == |m| && Unfound(m, data, k)
  {
    if State(m, data, n - 1) == |m| {
      k := FirstFound(m, data, n - 1);
    } else {
      k := n;
    }
  }

  /** For every marker and all data: found exactly if the marker stands where an attempt begins. */
  lemma FindsIff(m: seq<byte>, data: seq<byte>)
    requires m != []
    ensures Finds(m, data) <==> exists i: nat :: Stands(m, data, i, |m|) && Begins(m, data, i)
  {
    if Finds(m, data) {
      var k := FirstFound(m, data, |data|);
      StateHasBegun(m, data, k);
      assert Stands(m, data, k - |m|, |m|) && Begins(m, data, k - |m|);
    } else if i: nat :| Stands(m, data, i, |m|) && Begins(m, data, i) {
      var n := i + |m|;
      if State(m, data, n - 1) == |m| {
        FoundStays(m, data, n - 1, |data|);
      } else {
        BegunIsState(m, data, i, n);
        FoundStays(m, data, n, |data|);
      }
    }
  }

  // ---------------------------------------------------------------------------------------------
  // Which markers are always found.

  /** The marker repeats itself from `p` on, or stops doing so at a clash. */
  lemma {:induction false} RepeatsOrClashes(m: seq<byte>, p: nat, t: nat)
    requires 1 <= p && 1 <= t && p + t <= |m| && m[p..p + t] == m[..t]
    ensures m[p..] == m[..|m| - p] || Clashes(m)
    decreases |m| - t
  {
    if p + t < |m| {
      if m[p + t] == m[t] {
        assert m[p..p + t + 1] == m[p..p + t] + [m[p + t]];
        assert m[..t + 1] == m[..t] + [m[t]];
        RepeatsOrClashes(m, p, t + 1);
      } else {
        assert Clash(m, t, p + t);
      }
    }
  }

  /** An occurrence that is no beginning lies behind one that is, if the marker has no clash. */
  lemma OccurrenceBegins(m: seq<byte>, data: seq<byte>, i: nat)
    requires m != [] && !Clashes(m) && Stands(m, data, i, |m|)
    ensures exists h: nat :: Stands(m, data, h, |m|) && Begins(m, data, h)
  {
    ShorterStands(m, data, i, |m|, 1);
    if !Begins(m, data, i) {
      var p :| 1 <= p <= i && Swallows(m, data, i, p) && Begins(m, data, i - p);
      assert m[p..p + 1] == m[..1];
      RepeatsOrClashes(m, p, 1);
      ShorterStands(m, data, i, |m|, |m| - p);
      StandsEarlier(m, data, i, p);
    }
  }

  lemma StandsEarlier(m: seq<byte>, data: seq<byte>, i: nat, p: nat)
    requires p <= i && p <= |m| && m[p..] == m[..|m| - p]
    requires Stands(m, data, i - p, p) && Stands(m, data, i, |m| - p)
    ensures Stands(m, data, i - p, |m|)
  {
    assert data[i - p..i - p + |m|] == data[i - p..i] + data[i..i + |m| - p];
    assert m == m[..p] + m[p..] && m[..|m|] == m;
  }

  /** A start of the marker matches as far as it goes. */
  lemma {:induction false} StartMatches(m: seq<byte>, data: seq<byte>, n: nat)
    requires m != [] && n <= |m| && Stands(m, data, 0, n)
    ensures State(m, data, n) == n
  {
    if n > 0 {
      ShorterStands(m, data, 0, n, n - 1);
      StartMatches(m, data, n - 1);
    }
  }

  lemma {:induction false} StateGrowsByOne(m: seq<byte>, data: seq<byte>, k: nat, n: nat)
    requires m != [] && k <= n <= |data| && State(m, data, k) + (n - k) < |m|
    ensures State(m, data, n) <= State(m, data, k) + (n - k)
  {
    if k < n {
      StateGrowsByOne(m, data, k, n - 1);
    }
  }

  /** Where a clash lets the marker begin inside an attempt, it is passed over. */
  lemma ClashHides(m: seq<byte>, j: nat, k: nat)
    requires Clash(m, j, k)
    ensures var data := m[..k - j] + m;
      Occurs(m, data) && !Finds(m, data)
  {
    var data := m[..k - j] + m;
    assert data[k - j..k - j + |m|] == m[..|m|];
    assert Stands(m, data, k - j, |m|);
    assert data[..k] == m[..k - j] + m[..j] == m[..k];
    assert Stands(m, data, 0, k);
    StartMatches(m, data, k);
    assert data[k] == m[j];
    assert State(m, data, k + 1) == Next(m, k, m[j]) <= 1;
    StateGrowsByOne(m, data, k + 1, |data|);
  }

  /** Nothing is found that is not there, and everything that is there is found exactly if the marker has no clash. */
  lemma FindsAllIff(m: seq<byte>)
    requires m != []
    ensures forall data :: Finds(m, data) ==> Occurs(m, data)
    ensures (forall data :: Finds(m, data) <==> Occurs(m, data)) <==> !Clashes(m)
  {
    forall data
      ensures Finds(m, data) ==> Occurs(m, data)
      ensures !Clashes(m) && Occurs(m, data) ==> Finds(m, data)
    {
      FindsIff(m, data);
      if !Clashes(m) && Occurs(m, data) {
        var i: nat :| Stands(m, data, i, |m|);
        OccurrenceBegins(m, data, i);
      }
    }
    if j: nat, k: nat :| Clash(m, j, k) {
      ClashHides(m, j, k);
    }
  }

  // ---------------------------------------------------------------------------------------------
  // A closed condition, and the markers in use.

  /** Where the first byte of the marker comes again, and no two of these places have the same byte in front. */
  predicate ComesAgainAt(m: seq<byte>, ps: seq<nat>) {
    && m != []
    && (forall k :: 0 <= k < |ps| ==> 1 <= ps[k] < |m| && m[ps[k]] == m[0])
    && (forall q :: 1 <= q < |m| && m[q] == m[0] ==> q in ps)
    && (forall k, l :: 0 <= k < l < |ps| ==> m[ps[k] - 1] != m[ps[l] - 1])
  }

  /** The first of these lengths for which a start of the marker of that length stands directly in front of `i`. */
  function Piece(m: seq<byte>, ps: seq<nat>, data: seq<byte>, i: nat): (p: nat)
    ensures p <= i
  {
    if ps == [] then 0
    else if 1 <= ps[0] <= i && Stands(m, data, i - ps[0], ps[0]) then ps[0]
    else Piece(m, ps[1..], data, i)
  }

  /** How many starts of the marker of these lengths stand in front of `i`, each directly in front of the next. */
  function Pieces(m: seq<byte>, ps: seq<nat>, data: seq<byte>, i: nat): nat
    decreases i
  {
    var p := Piece(m, ps, data, i);
    if p == 0 then 0 else 1 + Pieces(m, ps, data, i - p)
  }

  lemma {:induction false} PieceStands(m: seq<byte>, ps: seq<nat>, data: seq<byte>, i: nat)
    ensures var p := Piece(m, ps, data, i);
      if p == 0 then forall q :: q in ps && 1 <= q <= i ==> !Stands(m, data, i - q, q)
      else p in ps && Stands(m, data, i - p, p)
  {
    if ps != [] {
      PieceStands(m, ps[1..], data, i);
      assert forall q :: q in ps <==> q == ps[0] || q in ps[1..];
    }
  }

  /** Pieces that stand in front of the same place end in the same byte. */
  lemma SameEnd(m: seq<byte>, data: seq<byte>, i: nat, p: nat, q: nat)
    requires 1 <= p <= i && 1 <= q <= i && Stands(m, data, i - p, p) && Stands(m, data, i - q, q)
    ensures m[p - 1] == m[q - 1]
  {
    ShorterStands(m, data, i - p, p, p - 1);
    ShorterStands(m, data, i - q, q, q - 1);
  }

  lemma OnlyPiece(m: seq<byte>, ps: seq<nat>, data: seq<byte>, i: nat, q: nat)
    requires ComesAgainAt(m, ps) && 1 <= q <= i && Swallows(m, data, i, q)
    ensures q == Piece(m, ps, data, i)
  {
    PieceStands(m, ps, data, i);
    SameEnd(m, data, i, Piece(m, ps, data, i), q);
    SamePlace(m, ps, Piece(m, ps, data, i), q);
  }

  lemma SamePlace(m: seq<byte>, ps: seq<nat>, p: nat, q: nat)
    requires ComesAgainAt(m, ps) && p in ps && q in ps && m[p - 1] == m[q - 1]
    ensures p == q
  {
    var k :| 0 <= k < |ps| && ps[k] == p;
    var l :| 0 <= l < |ps| && ps[l] == q;
  }

  /** Only an attempt that began with the piece in front can take this byte for its own. */
  lemma BeginsUnlessOneDid(m: seq<byte>, ps: seq<nat>, data: seq<byte>, i: nat)
    requires ComesAgainAt(m, ps) && Stands(m, data, i, 1)
    ensures var p := Piece(m, ps, data, i); Begins(m, data, i) <==> p == 0 || !Begins(m, data, i - p)
  {
    var p := Piece(m, ps, data, i);
    if p != 0 {
      PieceSwallows(m, ps, data, i);
    }
    if !Begins(m, data, i) {
      var q := Swallowed(m, data, i);
      OnlyPiece(m, ps, data, i, q);
    } else if p != 0 && Begins(m, data, i - p) {
      NotSwallowed(m, data, i, p);
    }
  }

  lemma PieceSwallows(m: seq<byte>, ps: seq<nat>, data: seq<byte>, i: nat)
    requires ComesAgainAt(m, ps) && Piece(m, ps, data, i) != 0
    ensures Swallows(m, data, i, Piece(m, ps, data, i))
  {
    PieceStands(m, ps, data, i);
  }

  lemma Swallowed(m: seq<byte>, data: seq<byte>, i: nat) returns (q: nat)
    requires m != [] && Stands(m, data, i, 1) && !Begins(m, data, i)
    ensures 1 <= q <= i && Swallows(m, data, i, q) && Begins(m, data, i - q)
  {
    q :| 1 <= q <= i && Swallows(m, data, i, q) && Begins(m, data, i - q);
  }

  /** What holds exactly if it does not hold one piece earlier depends on the parity of the pieces. */
  lemma {:induction false} Alternates(m: seq<byte>, ps: seq<nat>, data: seq<byte>, i: nat, holds: nat -> bool)
    requires Stands(m, data, i, 1)
    requires forall j: nat :: Stands(m, data, j, 1) ==>
      (holds(j) <==> Piece(m, ps, data, j) == 0 || !holds(j - Piece(m, ps, data, j)))
    ensures holds(i) <==> Pieces(m, ps, data, i) % 2 == 0
    decreases i
  {
    var p := Piece(m, ps, data, i);
    if p != 0 {
      PieceStands(m, ps, data, i);
      ShorterStands(m, data, i - p, p, 1);
      Alternates(m, ps, data, i - p, holds);
      OneMoreIsOdd(Pieces(m, ps, data, i - p));
    }
  }

  lemma BeginsByParity(m: seq<byte>, ps: seq<nat>, data: seq<byte>, i: nat)
    requires ComesAgainAt(m, ps) && Stands(m, data, i, 1)
    ensures Begins(m, data, i) <==> Pieces(m, ps, data, i) % 2 == 0
  {
    var holds: nat -> bool := (j: nat) => Begins(m, data, j);
    forall j: nat | Stands(m, data, j, 1)
      ensures holds(j) <==> Piece(m, ps, data, j) == 0 || !holds(j - Piece(m, ps, data, j))
    {
      BeginsUnlessOneDid(m, ps, data, j);
    }
    Alternates(m, ps, data, i, holds);
  }

  lemma OneMoreIsOdd(n: nat)
    ensures (1 + n) % 2 == 0 <==> n % 2 != 0
  {
  }

  /** The marker stands at `i` behind an even number of pieces. */
  predicate InSight(m: seq<byte>, ps: seq<nat>, data: seq<byte>, i: nat) {
    Stands(m, data, i, |m|) && Pieces(m, ps, data, i) % 2 == 0
  }

  /**
   * A marker whose first byte comes again only behind different bytes is found exactly if somewhere an even number of
   * its starts up to those places stands in front of it, one behind the other.
   */
  lemma FindsByParity(m: seq<byte>, ps: seq<nat>, data: seq<byte>)
    requires ComesAgainAt(m, ps)
    ensures Finds(m, data) <==> exists i: nat :: InSight(m, ps, data, i)
  {
    FindsIff(m, data);
    forall i: nat | Stands(m, data, i, |m|)
      ensures Begins(m, data, i) <==> InSight(m, ps, data, i)
    {
      ShorterStands(m, data, i, |m|, 1);
      BeginsByParity(m, ps, data, i);
    }
  }

  /** Both deployed markers start with "AIPC_LOCAL", which makes a clash: behind "AIPC_LOC" they are not seen. */
  lemma DeployedMarkersAreHidden(m: seq<byte>)
    requires |m| >= 10 && m[..10] == RECOVERY_MARKER[..10]
    ensures Clashes(m)
    ensures Occurs(m, m[..8] + m) && !Finds(m, m[..8] + m)
  {
    assert forall i :: 0 <= i < 10 ==> m[i] == m[..10][i] == RECOVERY_MARKER[i];
    assert m[..1] == m[8..9];
    assert Clash(m, 1, 9);
    ClashHides(m, 1, 9);
  }

  /** The marker of the validator is found exactly if somewhere an even number of "AIPC_LOC" stands in front of it. */
  lemma RecoveryMarkerIsFoundIff(data: seq<byte>)
    ensures Finds(RECOVERY_MARKER, data) <==> exists i: nat :: InSight(RECOVERY_MARKER, [8], data, i)
  {
    FindsByParity(RECOVERY_MARKER, [8], data);
  }

  /**
   * The other marker is found exactly if somewhere an even number of "AIPC_LOC" and "AIPC_LOCAL_RECOVERY_", in any
   * order, stands in front of it.
   */
  lemma AnyModeMarkerIsFoundIff(data: seq<byte>)
    ensures Finds(ANY_MODE_MARKER, data) <==> exists i: nat :: InSight(ANY_MODE_MARKER, [8, 20], data, i)
  {
    FindsByParity(ANY_MODE_MARKER, [8, 20], data);
  }

  // ---------------------------------------------------------------------------------------------
  // The writer.

  class MarkerWriter {
    const marker: seq<byte>
    var matched: nat
    var found: bool
    ghost var seen: seq<byte>

    ghost predicate Valid()
      reads this
    {
      && marker != []
      && found == Finds(marker, seen)
      && matched == State(marker, seen, |seen|)
    }

    constructor (marker: seq<byte>)
      requires marker != []
      ensures Valid() && this.marker == marker && seen == []
    {
      this.marker := marker;
      matched, found, seen := 0, false, [];
    }

    /** In whatever chunks the data comes, it is searched as a whole. */
    method Write(data: seq<byte>) returns (n: nat)
      requires Valid()
      modifies this
      ensures Valid() && seen == old(seen) + data && n == |data|
    {
      for i := 0 to |data|
        invariant Valid() && seen == old(seen) + data[..i]
      {
        var value := data[i];
        StateOfFront(marker, seen, value);
        seen := seen + [value];
        assert old(seen) + data[..i] + [value] == old(seen) + data[..i + 1];
        if found {
          continue;
        }
        if value == marker[matched] {
          matched := matched + 1;
          if matched == |marker| {
            found := true;
          }
          continue;
        }
        if value == marker[0] {
          matched := 1;
        } else {
          matched := 0;
        }
      }
      assert data[..|data|] == data;
      n := |data|;
    }
  }

  /** Which update modes a recovery image serves: none if it is no recovery image, the first copy, or any. */
  datatype Modes = NoModes | CopyAOnly | AnyMode

  /** Both markers are searched in one pass over the chunks the image decompresses to. */
  method DetectModes(chunks: seq<seq<byte>>) returns (r: Modes)
    ensures var image := Joined(chunks);
      r == if !Finds(RECOVERY_MARKER, image) then NoModes
           else if Finds(ANY_MODE_MARKER, image) then AnyMode else CopyAOnly
  {
    var protocol := new MarkerWriter(RECOVERY_MARKER);
    var anyMode := new MarkerWriter(ANY_MODE_MARKER);
    for i := 0 to |chunks|
      invariant protocol.Valid() && protocol.seen == Joined(chunks[..i]) && protocol.marker == RECOVERY_MARKER
      invariant anyMode.Valid() && anyMode.seen == Joined(chunks[..i]) && anyMode.marker == ANY_MODE_MARKER
      invariant protocol != anyMode && fresh(protocol) && fresh(anyMode)
    {
      var _ := protocol.Write(chunks[i]);
      var _ := anyMode.Write(chunks[i]);
      assert chunks[..i + 1][..i] == chunks[..i];
    }
    assert chunks[..|chunks|] == chunks;
    r := if !protocol.found then NoModes else if anyMode.found then AnyMode else CopyAOnly;
  }

  function Joined(chunks: seq<seq<byte>>): seq<byte> {
    if chunks == [] then [] else Joined(chunks[..|chunks| - 1]) + chunks[|chunks| - 1]
  }

  lemma {:induction false} StateOfPrefix(m: seq<byte>, data: seq<byte>, value: byte, n: nat)
    requires m != [] && n <= |data|
    ensures State(m, data + [value], n) == State(m, data, n)
  {
    if n > 0 {
      StateOfPrefix(m, data, value, n - 1);
    }
  }

  lemma StateOfFront(m: seq<byte>, data: seq<byte>, value: byte)
    requires m != []
    ensures State(m, data + [value], |data| + 1) == Next(m, State(m, data, |data|), value)
  {
    StateOfPrefix(m, data, value, |data|);
  }
}
