/** Overlap of detection boxes and greedy non-maximum suppression, over real numbers. */
module Nms {

  const MAX_DETECTIONS := 256

  datatype Box = Box(x: real, y: real, w: real, h: real)

  datatype Detection = Detection(box: Box, confidence: real, classId: int)

  function Larger(a: real, b: real): real {
    if a > b then a else b
  }

  function Smaller(a: real, b: real): real {
    if a < b then a else b
  }

  /** Extents of the intersection; it is empty unless both are positive. */
  function OverlapW(a: Box, b: Box): real {
    Smaller(a.x + a.w, b.x + b.w) - Larger(a.x, b.x)
  }

  function OverlapH(a: Box, b: Box): real {
    Smaller(a.y + a.h, b.y + b.h) - Larger(a.y, b.y)
  }

  predicate Overlap(a: Box, b: Box) {
    OverlapW(a, b) > 0.0 && OverlapH(a, b) > 0.0
  }

  function Area(a: Box): real {
    if a.w > 0.0 && a.h > 0.0 then a.w * a.h else 0.0
  }

  /** Intersection over union. */
  function Iou(a: Box, b: Box): real {
    if !Overlap(a, b) then 0.0
    else
      var inter := OverlapW(a, b) * OverlapH(a, b);
      var union := Area(a) + Area(b) - inter;
      if union <= 0.0 then 0.0 else inter / union
  }

  lemma AreaMonotone(a: real, b: real, c: real, d: real)
    requires 0.0 < a <= c && 0.0 < b <= d
    ensures 0.0 < a * b <= c * d
    ensures a * b == c * d ==> a == c && b == d
  {
    assert a * b <= c * b <= c * d;
    assert c * b - a * b == (c - a) * b;
    assert c * d - c * b == c * (d - b);
    if a < c {
      assert (c - a) * b > 0.0;
    }
    if b < d {
      assert c * (d - b) > 0.0;
    }
  }

  lemma OverlapBounds(a: Box, b: Box)
    requires Overlap(a, b)
    ensures 0.0 < OverlapW(a, b) <= a.w && 0.0 < OverlapH(a, b) <= a.h
    ensures 0.0 < OverlapW(a, b) <= b.w && 0.0 < OverlapH(a, b) <= b.h
  {
  }

  lemma Scaled(q: real, u: real)
    requires u > 0.0
    ensures q > 1.0 ==> q * u > u
    ensures q <= 0.0 ==> q * u <= 0.0
  {
  }

  lemma Quotient(i: real, u: real)
    requires 0.0 < i <= u
    ensures 0.0 < i / u <= 1.0 && (i / u == 1.0 <==> i == u)
  {
    assert i / u * u == i;
    Scaled(i / u, u);
  }

  lemma IouSymmetric(a: Box, b: Box)
    ensures Iou(a, b) == Iou(b, a)
  {
    assert OverlapW(a, b) == OverlapW(b, a);
    assert OverlapH(a, b) == OverlapH(b, a);
  }

  /** The intersection is no larger than either box, and as large as both only if they are the same. */
  lemma Parts(a: Box, b: Box) returns (inter: real, union: real)
    requires Overlap(a, b)
    ensures inter == OverlapW(a, b) * OverlapH(a, b) && union == Area(a) + Area(b) - inter
    ensures 0.0 < inter <= union
    ensures inter == union <==> a == b
  {
    OverlapBounds(a, b);
    var w, h := OverlapW(a, b), OverlapH(a, b);
    inter := w * h;
    union := Area(a) + Area(b) - inter;
    AreaMonotone(w, h, a.w, a.h);
    AreaMonotone(w, h, b.w, b.h);
  }

  /** Between zero and one, positive exactly for boxes that overlap, and one exactly for a proper box with itself. */
  lemma IouRange(a: Box, b: Box)
    ensures 0.0 <= Iou(a, b) <= 1.0
    ensures Iou(a, b) > 0.0 <==> Overlap(a, b)
    ensures Iou(a, b) == 1.0 <==> a == b && a.w > 0.0 && a.h > 0.0
  {
    if Overlap(a, b) {
      OverlapBounds(a, b);
      var inter, union := Parts(a, b);
      Quotient(inter, union);
      assert Iou(a, b) == inter / union;
    }
  }

  // ---------------------------------------------------------------------------------------------
  // Sorting.

  predicate Descending(s: seq<Detection>) {
    forall i, j :: 0 <= i < j < |s| ==> s[i].confidence >= s[j].confidence
  }

  lemma SwapKeepsElements(s: seq<Detection>, i: nat, j: nat)
    requires i < |s| && j < |s|
    ensures multiset(s[i := s[j]][j := s[i]]) == multiset(s)
  {
  }

  /** The inner loop of the sort: the first of the best from `i` on. */
  method IndexOfBest(dets: array<Detection>, i: nat) returns (best: nat)
    requires i < dets.Length
    ensures i <= best < dets.Length
    ensures forall q :: i <= q < dets.Length ==> dets[best].confidence >= dets[q].confidence
  {
    best := i;
    var j := i + 1;
    while j < dets.Length
      invariant i <= best < j <= dets.Length
      invariant forall q :: i <= q < j ==> dets[best].confidence >= dets[q].confidence
    {
      if dets[j].confidence > dets[best].confidence {
        best := j;
      }
      j := j + 1;
    }
  }

  method Swap(dets: array<Detection>, i: nat, j: nat)
    requires i < dets.Length && j < dets.Length
    modifies dets
    ensures dets[..] == old(dets[..])[i := old(dets[j])][j := old(dets[i])]
    ensures multiset(dets[..]) == multiset(old(dets[..]))
  {
    SwapKeepsElements(dets[..], i, j);
    dets[i], dets[j] := dets[j], dets[i];
    assert dets[..] == old(dets[..])[i := old(dets[j])][j := old(dets[i])];
  }

  /** The first `i` are in place: none of them is beaten by one behind it. */
  predicate Placed(s: seq<Detection>, i: nat) {
    forall p, q :: 0 <= p < i && p < q < |s| ==> s[p].confidence >= s[q].confidence
  }

  lemma PlaceOne(s: seq<Detection>, i: nat, best: nat)
    requires i <= best < |s| && Placed(s, i)
    requires forall q :: i <= q < |s| ==> s[best].confidence >= s[q].confidence
    ensures Placed(s[i := s[best]][best := s[i]], i + 1)
  {
    var t := s[i := s[best]][best := s[i]];
    forall p, q | 0 <= p < i + 1 && p < q < |t|
      ensures t[p].confidence >= t[q].confidence
    {
      var q' := if q == best then i else if q == i then best else q;
      assert t[q] == s[q'] && t[p] == s[if p == i then best else p];
    }
  }

  /** Selection sort by confidence, highest first, in place. */
  method SortByConfidence(dets: array<Detection>)
    modifies dets
    ensures Descending(dets[..]) && multiset(dets[..]) == multiset(old(dets[..]))
  {
    var i := 0;
    while i < dets.Length
      invariant 0 <= i <= dets.Length && Placed(dets[..], i)
      invariant multiset(dets[..]) == multiset(old(dets[..]))
    {
      var best := IndexOfBest(dets, i);
      ghost var s := dets[..];
      assert forall q :: i <= q < |s| ==> s[best].confidence >= s[q].confidence;
      PlaceOne(s, i, best);
      if best != i {
        Swap(dets, i, best);
      } else {
        assert s[i := s[best]][best := s[i]] == s;
      }
      i := i + 1;
    }
  }

  // ---------------------------------------------------------------------------------------------
  // Suppression.

  /** Detection `j` is suppressed by a kept one before it. */
  predicate Hit(s: seq<Detection>, kept: seq<nat>, j: nat, threshold: real)
    requires j < |s|
  {
    exists k :: k in kept && k < j && Iou(s[k].box, s[j].box) >= threshold
  }

  predicate Increasing(kept: seq<nat>, bound: nat) {
    && (forall k :: 0 <= k < |kept| ==> kept[k] < bound)
    && (forall k, l :: 0 <= k < l < |kept| ==> kept[k] < kept[l])
  }

  /** The result lists the kept detections, and no kept one is suppressed by another. */
  predicate Selected(s: seq<Detection>, kept: seq<nat>, output: seq<Detection>, threshold: real, bound: nat)
    requires bound <= |s|
  {
    && Increasing(kept, bound) && |output| == |kept|
    && (forall k :: 0 <= k < |kept| ==> output[k] == s[kept[k]])
    && (forall k :: 0 <= k < |kept| ==> !Hit(s, kept, kept[k], threshold))
  }

  /** Greedy suppression on sorted detections, at most `maxOutput` of them kept. */
  method Suppress(s: seq<Detection>, threshold: real, maxOutput: nat)
      returns (output: seq<Detection>, ghost kept: seq<nat>)
    ensures Selected(s, kept, output, threshold, |s|) && |output| <= maxOutput
    ensures |output| < maxOutput ==> forall j :: 0 <= j < |s| && j !in kept ==> Hit(s, kept, j, threshold)
  {
    var n := |s|;
    var suppressed := new bool[n](_ => false);
    output, kept := [], [];
    var i := 0;
    while i < n && |output| < maxOutput
      invariant 0 <= i <= n && |output| <= maxOutput
      invariant Selected(s, kept, output, threshold, i)
      invariant forall j :: 0 <= j < n ==> suppressed[j] == Hit(s, kept, j, threshold)
      invariant forall j :: 0 <= j < i && j !in kept ==> suppressed[j]
    {
      if !suppressed[i] {
        ghost var before := kept;
        output := output + [s[i]];
        kept := kept + [i];
        KeepOne(s, before, i, threshold);
        Mark(s, suppressed, i, threshold, before);
      }
      i := i + 1;
    }
  }

  /** Marks what the newly kept detection `i` suppresses. */
  method Mark(s: seq<Detection>, suppressed: array<bool>, i: nat, threshold: real, ghost before: seq<nat>)
    requires suppressed.Length == |s| && i < |s|
    requires forall j :: 0 <= j < |s| ==> suppressed[j] == Hit(s, before, j, threshold)
    modifies suppressed
    ensures forall j :: 0 <= j < |s| ==> suppressed[j] == Hit(s, before + [i], j, threshold)
  {
    var j := i + 1;
    while j < |s|
      invariant i < j <= |s|
      invariant forall k :: 0 <= k < |s| ==>
        suppressed[k] == (Hit(s, before, k, threshold) || (i < k < j && Iou(s[i].box, s[k].box) >= threshold))
    {
      if !suppressed[j] {
        if Iou(s[i].box, s[j].box) >= threshold {
          suppressed[j] := true;
        }
      }
      j := j + 1;
    }
    forall k | 0 <= k < |s|
      ensures suppressed[k] == Hit(s, before + [i], k, threshold)
    {
      HitMore(s, before, i, k, threshold);
    }
  }

  lemma HitMore(s: seq<Detection>, kept: seq<nat>, i: nat, j: nat, threshold: real)
    requires i < |s| && j < |s|
    ensures Hit(s, kept + [i], j, threshold) <==>
      Hit(s, kept, j, threshold) || (i < j && Iou(s[i].box, s[j].box) >= threshold)
  {
    assert forall k :: k in kept + [i] <==> k in kept || k == i;
  }

  /** Keeping `i`, which nothing kept suppresses, suppresses none of those kept before it. */
  lemma KeepOne(s: seq<Detection>, kept: seq<nat>, i: nat, threshold: real)
    requires i < |s| && Increasing(kept, i) && !Hit(s, kept, i, threshold)
    requires forall k :: 0 <= k < |kept| ==> !Hit(s, kept, kept[k], threshold)
    ensures Increasing(kept + [i], i + 1)
    ensures forall k :: 0 <= k < |kept + [i]| ==> !Hit(s, kept + [i], (kept + [i])[k], threshold)
  {
    forall k | 0 <= k < |kept + [i]|
      ensures !Hit(s, kept + [i], (kept + [i])[k], threshold)
    {
      HitMore(s, kept, i, (kept + [i])[k], threshold);
    }
  }

  // ---------------------------------------------------------------------------------------------
  // The whole.

  lemma {:induction false} Drawn(s: seq<Detection>, kept: seq<nat>, output: seq<Detection>, bound: nat)
    requires bound <= |s| && Increasing(kept, bound) && |output| == |kept|
    requires forall k :: 0 <= k < |kept| ==> output[k] == s[kept[k]]
    ensures multiset(output) <= multiset(s[..bound])
    decreases kept
  {
    if kept != [] {
      var n := |kept| - 1;
      var last := kept[n];
      Drawn(s, kept[..n], output[..n], last);
      assert output == output[..n] + [s[last]];
      assert s[..last + 1] == s[..last] + [s[last]];
      OneMore(output[..n], s[..last], s[last]);
      PrefixDrawn(s, last + 1, bound);
    }
  }

  lemma OneMore(x: seq<Detection>, y: seq<Detection>, d: Detection)
    requires multiset(x) <= multiset(y)
    ensures multiset(x + [d]) <= multiset(y + [d])
  {
  }

  lemma PrefixDrawn(s: seq<Detection>, i: nat, j: nat)
    requires i <= j <= |s|
    ensures multiset(s[..i]) <= multiset(s[..j])
  {
    assert s[..j] == s[..i] + s[i..j];
  }

  function Considered(detections: seq<Detection>): seq<Detection> {
    if |detections| > MAX_DETECTIONS then detections[..MAX_DETECTIONS] else detections
  }

  /** A detection that is not kept overlaps a kept one of at least its confidence. */
  predicate Covered(d: Detection, output: seq<Detection>, threshold: real) {
    exists k :: k in output && k.confidence >= d.confidence && Iou(k.box, d.box) >= threshold
  }

  /**
   * The kept detections come from the first 256, the most confident first; no two of them overlap at or above the
   * threshold; and unless the output is full, every other one is covered by a kept one.
   */
  method Filter(detections: seq<Detection>, threshold: real, maxOutput: nat) returns (output: seq<Detection>)
    ensures multiset(output) <= multiset(Considered(detections)) && |output| <= maxOutput
    ensures Descending(output)
    ensures forall i, j :: 0 <= i < |output| && 0 <= j < |output| && i != j ==>
      Iou(output[i].box, output[j].box) < threshold
    ensures |output| < maxOutput ==>
      forall d :: d in Considered(detections) ==> d in output || Covered(d, output, threshold)
    ensures output != [] <==> detections != [] && maxOutput > 0
  {
    if maxOutput == 0 || |detections| == 0 {
      return [];
    }
    var n := if |detections| > MAX_DETECTIONS then MAX_DETECTIONS else |detections|;
    var tmp := new Detection[n](i requires 0 <= i < |detections| => detections[i]);
    assert tmp[..] == Considered(detections);
    SortByConfidence(tmp);
    ghost var kept: seq<nat>;
    var s := tmp[..];
    output, kept := Suppress(s, threshold, maxOutput);
    Outcome(s, kept, output, threshold, maxOutput);
    assert forall d :: d in Considered(detections) ==> d in multiset(s);
  }

  lemma Outcome(s: seq<Detection>, kept: seq<nat>, output: seq<Detection>, threshold: real, maxOutput: nat)
    requires s != [] && maxOutput > 0 && Descending(s) && Selected(s, kept, output, threshold, |s|)
    requires |output| < maxOutput ==> forall j :: 0 <= j < |s| && j !in kept ==> Hit(s, kept, j, threshold)
    ensures multiset(output) <= multiset(s) && Descending(output)
    ensures forall i, j :: 0 <= i < |output| && 0 <= j < |output| && i != j ==>
      Iou(output[i].box, output[j].box) < threshold
    ensures |output| < maxOutput ==> forall d :: d in s ==> d in output || Covered(d, output, threshold)
    ensures output != []
  {
    Drawn(s, kept, output, |s|);
    assert s[..|s|] == s;
    forall i, j | 0 <= i < |output| && 0 <= j < |output| && i != j
      ensures Iou(output[i].box, output[j].box) < threshold
    {
      IouSymmetric(output[i].box, output[j].box);
      var late := if i < j then j else i;
      assert !Hit(s, kept, kept[late], threshold);
    }
    if |output| < maxOutput {
      assert !Hit(s, kept, 0, threshold);
      forall d | d in s
        ensures d in output || Covered(d, output, threshold)
      {
        var j :| 0 <= j < |s| && s[j] == d;
        KeptOrCovered(s, kept, output, threshold, j);
      }
    }
  }

  lemma KeptOrCovered(s: seq<Detection>, kept: seq<nat>, output: seq<Detection>, threshold: real, j: nat)
    requires Descending(s) && Selected(s, kept, output, threshold, |s|) && j < |s|
    requires j !in kept ==> Hit(s, kept, j, threshold)
    ensures s[j] in output || Covered(s[j], output, threshold)
  {
    if j in kept {
      var k :| 0 <= k < |kept| && kept[k] == j;
      assert output[k] == s[j];
    } else {
      var i :| i in kept && i < j && Iou(s[i].box, s[j].box) >= threshold;
      var k :| 0 <= k < |kept| && kept[k] == i;
      assert output[k] == s[i] && output[k] in output;
    }
  }
}
