/** Points and rectangles in device-independent pixels. Coordinates are real numbers. */
module Geometry {
  import opened Basics

  datatype Point = Point(x: real, y: real)
  datatype Size = Size(w: real, h: real)

  /** An axis-aligned rectangle, as origin plus size. */
  datatype Rect = Rect(x: real, y: real, w: real, h: real) {
    function Right(): real {
      x + w
    }

    function Bottom(): real {
      y + h
    }

    predicate IsEmpty() {
      w <= 0.0 || h <= 0.0
    }

    predicate Contains(p: Point) {
      x <= p.x < Right() && y <= p.y < Bottom()
    }

    /** Shrink on every side; negative amounts grow. Never a negative size. */
    function Inset(dx: real, dy: real): Rect {
      Rect(x + dx, y + dy, MaxR(w - 2.0 * dx, 0.0), MaxR(h - 2.0 * dy, 0.0))
    }

    /** What both hold, or an empty rectangle at this one's origin. */
    function Intersect(other: Rect): Rect {
      var left, top := MaxR(x, other.x), MaxR(y, other.y);
      var right, bottom := MinR(Right(), other.Right()), MinR(Bottom(), other.Bottom());
      if right <= left || bottom <= top then Rect(x, y, 0.0, 0.0)
      else Rect(left, top, right - left, bottom - top)
    }

    function Center(): Point {
      Point(x + w * 0.5, y + h * 0.5)
    }
  }

  const ZERO: Rect := Rect(0.0, 0.0, 0.0, 0.0)

  lemma IntersectHolds(a: Rect, b: Rect, p: Point)
    ensures a.Intersect(b).Contains(p) <==> a.Contains(p) && b.Contains(p)
  {
  }

  lemma EmptyHolds(r: Rect, p: Point)
    ensures r.IsEmpty() ==> !r.Contains(p)
    ensures !r.IsEmpty() ==> r.Contains(Point(r.x, r.y))
  {
  }

  /** Growing a rectangle loses none of it, and takes in all within the margin. */
  lemma InsetGrows(r: Rect, m: real, p: Point, q: Point)
    requires m > 0.0 && r.Contains(p) && -m < q.x - p.x < m && -m < q.y - p.y < m
    ensures r.Inset(-m, -m).Contains(q)
  {
  }

  /** The smallest rectangle holding both. */
  function Union(a: Rect, b: Rect): Rect {
    var x, y := MinR(a.x, b.x), MinR(a.y, b.y);
    Rect(x, y, MaxR(a.Right(), b.Right()) - x, MaxR(a.Bottom(), b.Bottom()) - y)
  }

  /** `outer` reaches as far as `inner` on every side. */
  predicate Within(inner: Rect, outer: Rect) {
    outer.x <= inner.x && outer.y <= inner.y && inner.Right() <= outer.Right() && inner.Bottom() <= outer.Bottom()
  }

  lemma UnionIsHull(a: Rect, b: Rect, outer: Rect)
    ensures Within(a, Union(a, b)) && Within(b, Union(a, b))
    ensures Within(a, outer) && Within(b, outer) ==> Within(Union(a, b), outer)
  {
  }

  lemma WithinHolds(inner: Rect, outer: Rect, p: Point)
    requires Within(inner, outer) && inner.Contains(p)
    ensures outer.Contains(p)
  {
  }

  // The rectangle around points

  function Least(points: seq<Point>): Point
    requires points != []
  {
    var last := points[|points| - 1];
    if |points| == 1 then last
    else
      var p := Least(points[..|points| - 1]);
      Point(MinR(p.x, last.x), MinR(p.y, last.y))
  }

  function Most(points: seq<Point>): Point
    requires points != []
  {
    var last := points[|points| - 1];
    if |points| == 1 then last
    else
      var p := Most(points[..|points| - 1]);
      Point(MaxR(p.x, last.x), MaxR(p.y, last.y))
  }

  /** From the least to the greatest coordinates on each axis, with `margin` on every side. */
  function SpreadOf(points: seq<Point>, margin: real): Rect {
    if points == [] then ZERO
    else
      var lo, hi := Least(points), Most(points);
      Rect(lo.x - margin, lo.y - margin, hi.x - lo.x + 2.0 * margin, hi.y - lo.y + 2.0 * margin)
  }

  method Spread(points: seq<Point>, margin: real) returns (r: Rect)
    ensures r == SpreadOf(points, margin)
  {
    if points == [] {
      return ZERO;
    }
    var lo, hi := points[0], points[0];
    assert points[..1][..0] == [];
    for i := 1 to |points|
      invariant lo == Least(points[..i]) && hi == Most(points[..i])
    {
      assert points[..i + 1][..i] == points[..i];
      lo := Point(MinR(lo.x, points[i].x), MinR(lo.y, points[i].y));
      hi := Point(MaxR(hi.x, points[i].x), MaxR(hi.y, points[i].y));
    }
    assert points[..|points|] == points;
    r := Rect(lo.x - margin, lo.y - margin, hi.x - lo.x + 2.0 * margin, hi.y - lo.y + 2.0 * margin);
  }

  lemma {:induction false} ExtremesHold(points: seq<Point>, i: nat)
    requires i < |points|
    ensures Least(points).x <= points[i].x <= Most(points).x
    ensures Least(points).y <= points[i].y <= Most(points).y
  {
    if i < |points| - 1 {
      ExtremesHold(points[..|points| - 1], i);
    } else if |points| > 1 {
      assert points[..|points| - 1] != [];
    }
  }

  /** All within the margin of any of the points is in the rectangle around them. */
  lemma SpreadHolds(points: seq<Point>, margin: real, i: nat, q: Point)
    requires i < |points| && margin > 0.0
    requires -margin < q.x - points[i].x < margin && -margin < q.y - points[i].y < margin
    ensures SpreadOf(points, margin).Contains(q)
  {
    ExtremesHold(points, i);
  }

  /** And no smaller rectangle would do, whatever the margin. */
  lemma {:induction false} SpreadIsTight(points: seq<Point>, margin: real, outer: Rect)
    requires points != []
    requires forall i :: 0 <= i < |points| ==> outer.x <= points[i].x - margin && points[i].x + margin <= outer.Right()
    requires forall i :: 0 <= i < |points| ==> outer.y <= points[i].y - margin && points[i].y + margin <= outer.Bottom()
    ensures Within(SpreadOf(points, margin), outer)
  {
    if |points| > 1 {
      SpreadIsTight(points[..|points| - 1], margin, outer);
    }
  }
}
