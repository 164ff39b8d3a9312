/** The integer line walk of the software renderer, point by point. */
module Line {
  import opened Arithmetic

  function Max(a: int, b: int): int {
    if a < b then b else a
  }

  function Toward(from: int, to: int): int {
    if from < to then 1 else -1
  }

  datatype Point = Point(x: int, y: int)

  /** How far along the two axes a point is from the start, counted in the direction of the end. */
  function AlongX(p: Point, from: Point, to: Point): int {
    (p.x - from.x) * Toward(from.x, to.x)
  }

  function AlongY(p: Point, from: Point, to: Point): int {
    (p.y - from.y) * Toward(from.y, to.y)
  }

  /** The distance along the shorter axis to the ideal segment, times the longer extent: zero on the segment. */
  function Offset(p: Point, from: Point, to: Point): int {
    Abs(to.x - from.x) * AlongY(p, from, to) - Abs(to.y - from.y) * AlongX(p, from, to)
  }

  /** At most half a pixel from the ideal segment, measured along the shorter axis. */
  predicate Near(p: Point, from: Point, to: Point) {
    2 * Abs(Offset(p, from, to)) <= Max(Abs(to.x - from.x), Abs(to.y - from.y))
  }

  /** One step on the longer axis, and none or one on the other, toward the end. */
  predicate Steps(p: Point, q: Point, from: Point, to: Point) {
    var dx, dy := AlongX(q, from, to) - AlongX(p, from, to), AlongY(q, from, to) - AlongY(p, from, to);
    && 0 <= dx <= 1 && 0 <= dy <= 1
    && (if Abs(to.x - from.x) >= Abs(to.y - from.y) then dx == 1 else dy == 1)
  }

  /** The error term after a step on either axis. */
  lemma OffsetMoves(p: Point, q: Point, from: Point, to: Point)
    ensures Offset(q, from, to) == Offset(p, from, to)
      + Abs(to.x - from.x) * (AlongY(q, from, to) - AlongY(p, from, to))
      - Abs(to.y - from.y) * (AlongX(q, from, to) - AlongX(p, from, to))
  {
    var a, b := Abs(to.x - from.x), Abs(to.y - from.y);
    var x, x', y, y' := AlongX(p, from, to), AlongX(q, from, to), AlongY(p, from, to), AlongY(q, from, to);
    Distribute(y', -y, a);
    Distribute(x', -x, b);
  }

  /** A multiple of the longer extent that is at most half of it is zero. */
  lemma Small(a: int, d: int)
    requires a > 0 && 2 * Abs(a * d) <= a
    ensures d == 0
  {
    Grows(a, d);
  }

  lemma Grows(a: int, d: int)
    requires a >= 0
    ensures d >= 1 ==> a * d >= a
    ensures d <= -1 ==> a * d <= -a
  {
    if d >= 1 {
      assert a * d == a + a * (d - 1);
    } else if d <= -1 {
      assert a * d == -a - a * (-d - 1);
    }
  }

  lemma Factor(a: int, y: int, b: int)
    ensures a * y - b * a == a * (y - b) && a * b - b * y == b * (a - y)
  {
  }

  lemma UnAlong(p: int, from: int, to: int)
    ensures (p - from) * Toward(from, to) == Abs(to - from) <==> p == to
  {
  }

  /** Where the longer extent is used up and the error is small, so is the shorter one. */
  lemma LastOffset(a: int, b: int, x: int, y: int)
    requires a >= 0 && b >= 0 && (a > 0 || b > 0) && 2 * Abs(a * y - b * x) <= Max(a, b)
    requires if a >= b then x == a else y == b
    ensures x == a && y == b
  {
    Factor(a, y, b);
    Factor(a, x, b);
    if a >= b {
      Small(a, y - b);
    } else {
      Small(b, a - x);
    }
  }

  /** A point that far along, with that small an error, is the end. */
  lemma AtEnd(p: Point, from: Point, to: Point, x: int, y: int, e: int)
    requires x == AlongX(p, from, to) && y == AlongY(p, from, to) && from != to
    requires e == Abs(to.x - from.x) * y - Abs(to.y - from.y) * x
    requires 2 * Abs(e) <= Max(Abs(to.x - from.x), Abs(to.y - from.y))
    requires if Abs(to.x - from.x) >= Abs(to.y - from.y) then x == Abs(to.x - from.x) else y == Abs(to.y - from.y)
    ensures p == to
  {
    LastOffset(Abs(to.x - from.x), Abs(to.y - from.y), x, y);
    UnAlong(p.x, from.x, to.x);
    UnAlong(p.y, from.y, to.y);
  }

  /** The error the walk keeps stays within half of the longer extent. */
  lemma StepKeepsNear(a: int, b: int, e: int)
    requires a >= 0 && b >= 0 && 2 * Abs(e) <= Max(a, b)
    ensures var err := e + a - b;
      var right, down := 2 * err >= -b, 2 * err <= a;
      && (if a >= b then right else down)
      && 2 * Abs(e - (if right then b else 0) + (if down then a else 0)) <= Max(a, b)
  {
  }

  /**
   * The walk visits exactly one point for each step of the longer axis, starting at the first and ending on the
   * second endpoint; every visited point is within half a pixel of the ideal segment.
   */
  method Walk(from: Point, to: Point) returns (points: seq<Point>)
    ensures |points| == Max(Abs(to.x - from.x), Abs(to.y - from.y)) + 1
    ensures points[0] == from && points[|points| - 1] == to
    ensures forall k :: 0 <= k < |points| ==> Near(points[k], from, to)
    ensures forall k :: 0 <= k < |points| - 1 ==> Steps(points[k], points[k + 1], from, to)
  {
    var dx, sx := Abs(to.x - from.x), Toward(from.x, to.x);
    var dy, sy := -(Abs(to.y - from.y) as int), Toward(from.y, to.y);
    var err := dx + dy;
    var p := from;
    points := [p];
    var count := 0;
    assert Offset(from, from, to) == 0;
    while p != to
      invariant |points| == count + 1 && points[0] == from && points[count] == p
      invariant err == Offset(p, from, to) + dx + dy
      invariant if dx >= -dy then AlongX(p, from, to) == count else AlongY(p, from, to) == count
      invariant count <= Max(dx, -dy) && (p != to ==> count < Max(dx, -dy))
      invariant forall k :: 0 <= k < |points| ==> Near(points[k], from, to)
      invariant forall k :: 0 <= k < |points| - 1 ==> Steps(points[k], points[k + 1], from, to)
      decreases Max(dx, -dy) - count
    {
      var e2 := 2 * err;
      var q := p;
      ghost var err0 := err;
      if e2 >= dy {
        err := err + dy;
        q := q.(x := q.x + sx);
      }
      if e2 <= dx {
        err := err + dx;
        q := q.(y := q.y + sy);
      }
      OneStep(p, q, from, to, err0, err);
      p := q;
      points := points + [p];
      count := count + 1;
      if count == Max(dx, -dy) {
        AtEnd(p, from, to, AlongX(p, from, to), AlongY(p, from, to), Offset(p, from, to));
      }
    }
    EndIsFar(p, from, to, count);
  }

  /** A turn of the loop takes a point near the segment to the next one. */
  lemma OneStep(p: Point, q: Point, from: Point, to: Point, err: int, err': int)
    requires Near(p, from, to)
    requires err == Offset(p, from, to) + Abs(to.x - from.x) - Abs(to.y - from.y)
    requires var right, down := 2 * err >= -(Abs(to.y - from.y) as int), 2 * err <= Abs(to.x - from.x);
      && q == Point(p.x + (if right then Toward(from.x, to.x) else 0), p.y + (if down then Toward(from.y, to.y) else 0))
      && err' == err - (if right then Abs(to.y - from.y) else 0) + (if down then Abs(to.x - from.x) else 0)
    ensures Near(q, from, to) && Steps(p, q, from, to)
    ensures err' == Offset(q, from, to) + Abs(to.x - from.x) - Abs(to.y - from.y)
  {
    var a: int, b: int := Abs(to.x - from.x), Abs(to.y - from.y);
    var right, down := 2 * err >= -b, 2 * err <= a;
    StepKeepsNear(a, b, Offset(p, from, to));
    StepAlong(p, q, from, to, right, down);
    StepOffset(p, q, from, to, right, down);
  }

  lemma StepOffset(p: Point, q: Point, from: Point, to: Point, right: bool, down: bool)
    requires AlongX(q, from, to) == AlongX(p, from, to) + (if right then 1 else 0)
    requires AlongY(q, from, to) == AlongY(p, from, to) + (if down then 1 else 0)
    ensures Offset(q, from, to) == Offset(p, from, to)
      - (if right then Abs(to.y - from.y) else 0) + (if down then Abs(to.x - from.x) else 0)
  {
    OffsetMoves(p, q, from, to);
    TimesStep(Abs(to.y - from.y), right);
    TimesStep(Abs(to.x - from.x), down);
  }

  lemma TimesStep(a: int, taken: bool)
    ensures a * (if taken then 1 else 0) == if taken then a else 0
  {
  }

  lemma StepAlong(p: Point, q: Point, from: Point, to: Point, right: bool, down: bool)
    requires q.x == p.x + (if right then Toward(from.x, to.x) else 0)
    requires q.y == p.y + (if down then Toward(from.y, to.y) else 0)
    ensures AlongX(q, from, to) == AlongX(p, from, to) + (if right then 1 else 0)
    ensures AlongY(q, from, to) == AlongY(p, from, to) + (if down then 1 else 0)
  {
  }

  /** The end is as far along the longer axis as that axis is long. */
  lemma EndIsFar(p: Point, from: Point, to: Point, count: int)
    requires p == to
    requires if Abs(to.x - from.x) >= Abs(to.y - from.y) then AlongX(p, from, to) == count
      else AlongY(p, from, to) == count
    ensures count == Max(Abs(to.x - from.x), Abs(to.y - from.y))
  {
  }
}
