/** A chart's lines: points ascending in x, read as functions of x. */
module ChartLines {
  import opened Basics
  import opened Geometry

  /** Gaps in x no wider than this are steps. */
  const EPSILON: real := 0.00000011920929

  predicate Ascending(pts: seq<Point>) {
    forall i, j :: 0 <= i < j < |pts| ==> pts[i].x <= pts[j].x
  }

  /** How many points come before the place `x`, the points ascending. */
  function LowerBound(pts: seq<Point>, x: real): (i: nat)
    ensures i <= |pts| && (i < |pts| ==> pts[i].x >= x)
    ensures forall k :: 0 <= k < i ==> pts[k].x < x
  {
    if pts == [] || pts[0].x >= x then 0 else 1 + LowerBound(pts[1..], x)
  }

  /** Which says which index it is. */
  lemma LowerBoundIs(pts: seq<Point>, x: real, i: nat)
    requires i <= |pts| && (i < |pts| ==> pts[i].x >= x)
    requires forall k :: 0 <= k < i ==> pts[k].x < x
    ensures LowerBound(pts, x) == i
  {
  }

  /** Further right is further along. */
  lemma LowerBoundMonotone(pts: seq<Point>, x: real, y: real)
    requires x <= y
    ensures LowerBound(pts, x) <= LowerBound(pts, y)
  {
  }

  /** The height at `x`, whose lower bound is `i`; left and right of all points it is constant. */
  function Value(pts: seq<Point>, i: nat, x: real): real
    requires pts != [] && i <= |pts|
  {
    if i == 0 then pts[0].y
    else if i == |pts| then pts[|pts| - 1].y
    else
      var a, b := pts[i - 1], pts[i];
      if b.x - a.x <= EPSILON then b.y else Height(a, b, Share(a, b, x))
  }

  /** How far along from `a` to `b` a place is. */
  function Share(a: Point, b: Point, x: real): real
    requires b.x - a.x > 0.0
  {
    MinR((x - a.x) / (b.x - a.x), 1.0)
  }

  /** A share of the way from `a` to `b`. */
  function Height(a: Point, b: Point, t: real): real {
    a.y + (b.y - a.y) * t
  }

  /** The line at `x`. */
  function LineAt(pts: seq<Point>, x: real): real
    requires pts != []
  {
    Value(pts, LowerBound(pts, x), x)
  }

  /** At a point's own place, where no other is, the line is at the point. */
  lemma ThroughPoints(pts: seq<Point>, k: nat)
    requires Ascending(pts) && k < |pts| && (k > 0 ==> pts[k - 1].x < pts[k].x)
    ensures LineAt(pts, pts[k].x) == pts[k].y
  {
    LowerBoundIs(pts, pts[k].x, k);
    if k > 0 {
      if pts[k].x - pts[k - 1].x > EPSILON {
        ShareIs(pts[k - 1], pts[k], pts[k].x, pts[k].x);
      }
      Heights(pts[k - 1], pts[k]);
    }
  }

  // Interpolation

  /** Between two shares of the way, a line is between its heights there. */
  lemma Between(a: Point, b: Point, t0: real, t: real, t1: real, lo: real, hi: real)
    requires t0 <= t <= t1 && lo <= Height(a, b, t0) <= hi && lo <= Height(a, b, t1) <= hi
    ensures lo <= Height(a, b, t) <= hi
  {
    var d := b.y - a.y;
    BetweenSums(a.y, d * t0, d * t, d * t1, lo, hi) by {
      if d >= 0.0 {
        Rising(d, t0, t);
        Rising(d, t, t1);
      } else {
        Falling(d, t0, t);
        Falling(d, t, t1);
      }
    }
  }

  lemma BetweenSums(p: real, u: real, v: real, w: real, lo: real, hi: real)
    requires u <= v <= w || w <= v <= u
    requires lo <= p + u <= hi && lo <= p + w <= hi
    ensures lo <= p + v <= hi
  {
  }

  lemma Rising(d: real, s: real, t: real)
    requires d >= 0.0 && s <= t
    ensures d * s <= d * t
  {
  }

  lemma Falling(d: real, s: real, t: real)
    requires d <= 0.0 && s <= t
    ensures d * t <= d * s
  {
  }

  lemma ShareOrdered(x: real, y: real, a: real, span: real)
    requires span > 0.0 && x <= y
    ensures (x - a) / span <= (y - a) / span
  {
    Quotient(x - a, span);
    Quotient(y - a, span);
    var s, t := (x - a) / span, (y - a) / span;
    if s > t {
      Stretched(span, t, s);
    }
  }

  lemma Quotient(x: real, n: real)
    requires n > 0.0
    ensures x / n * n == x && (x >= 0.0 ==> x / n >= 0.0) && (x <= n ==> x / n <= 1.0)
  {
  }

  lemma Stretched(span: real, t: real, s: real)
    requires span > 0.0 && t < s
    ensures t * span < s * span
  {
  }

  // How high and low a line goes

  /** Nothing of the line from `left` to `right` lies outside `lo` to `hi`: not its ends,
      and not the points between, where it turns. */
  predicate Bounded(pts: seq<Point>, left: real, right: real, lo: real, hi: real)
    requires pts != []
  {
    && lo <= LineAt(pts, left) <= hi && lo <= LineAt(pts, right) <= hi
    && forall k :: 0 <= k < |pts| && left <= pts[k].x <= right ==> lo <= pts[k].y <= hi
  }

  lemma ShareIs(a: Point, b: Point, x: real, y: real)
    requires a.x <= x <= y <= b.x && b.x - a.x > 0.0
    ensures 0.0 <= Share(a, b, x) <= Share(a, b, y) <= 1.0
    ensures x == a.x ==> Share(a, b, x) == 0.0
    ensures y == b.x ==> Share(a, b, y) == 1.0
  {
    var span := b.x - a.x;
    ShareOrdered(x, y, a.x, span);
    Quotient(x - a.x, span);
    Quotient(y - a.x, span);
    assert span / span == 1.0 by {
      Quotient(span, span);
      OneTimes(span / span, span);
    }
  }

  lemma OneTimes(q: real, n: real)
    requires n > 0.0 && q * n == n
    ensures q == 1.0
  {
  }

  /** So all of it lies there. */
  lemma Bracketed(pts: seq<Point>, left: real, right: real, lo: real, hi: real, x: real)
    requires pts != [] && Ascending(pts) && left <= x <= right && Bounded(pts, left, right, lo, hi)
    ensures lo <= LineAt(pts, x) <= hi
  {
    var i := LowerBound(pts, x);
    LowerBoundMonotone(pts, left, x);
    LowerBoundMonotone(pts, x, right);
    if 0 < i < |pts| {
      SegmentBracketed(pts, left, right, lo, hi, x, i);
    } else if i == 0 {
      if pts[0].x > right {
        LowerBoundIs(pts, right, 0);
      }
    } else {
      assert i == |pts| && LowerBound(pts, right) == |pts|;
    }
  }

  lemma SegmentBracketed(pts: seq<Point>, left: real, right: real, lo: real, hi: real, x: real, i: nat)
    requires pts != [] && Ascending(pts) && left <= x <= right && Bounded(pts, left, right, lo, hi)
    requires i == LowerBound(pts, x) && 0 < i < |pts|
    ensures lo <= LineAt(pts, x) <= hi
  {
    hide Share, Height;
    var a, b := pts[i - 1], pts[i];
    assert a.x < x <= b.x;
    if b.x - a.x > EPSILON {
      var from, to := MaxR(left, a.x), MinR(right, b.x);
      ShareIs(a, b, from, x);
      ShareIs(a, b, x, to);
      LeftEnd(pts, left, right, lo, hi, x, i);
      RightEnd(pts, left, right, lo, hi, x, i);
      Between(a, b, Share(a, b, from), Share(a, b, x), Share(a, b, to), lo, hi);
    } else {
      RightStep(pts, left, right, lo, hi, x, i);
    }
  }

  lemma LeftEnd(pts: seq<Point>, left: real, right: real, lo: real, hi: real, x: real, i: nat)
    requires pts != [] && Ascending(pts) && left <= x <= right && Bounded(pts, left, right, lo, hi)
    requires i == LowerBound(pts, x) && 0 < i < |pts| && pts[i].x - pts[i - 1].x > EPSILON
    ensures var a, b := pts[i - 1], pts[i]; lo <= Height(a, b, Share(a, b, MaxR(left, a.x))) <= hi
  {
    hide Share, Height;
    var a, b := pts[i - 1], pts[i];
    if left > a.x {
      LowerBoundIs(pts, left, i);
    } else {
      ShareIs(a, b, a.x, x);
      Heights(a, b);
    }
  }

  lemma RightEnd(pts: seq<Point>, left: real, right: real, lo: real, hi: real, x: real, i: nat)
    requires pts != [] && Ascending(pts) && left <= x <= right && Bounded(pts, left, right, lo, hi)
    requires i == LowerBound(pts, x) && 0 < i < |pts| && pts[i].x - pts[i - 1].x > EPSILON
    ensures var a, b := pts[i - 1], pts[i]; lo <= Height(a, b, Share(a, b, MinR(right, b.x))) <= hi
  {
    hide Share, Height;
    var a, b := pts[i - 1], pts[i];
    if right < b.x {
      LowerBoundIs(pts, right, i);
    } else {
      ShareIs(a, b, x, b.x);
      Heights(a, b);
    }
  }

  lemma RightStep(pts: seq<Point>, left: real, right: real, lo: real, hi: real, x: real, i: nat)
    requires pts != [] && Ascending(pts) && left <= x <= right && Bounded(pts, left, right, lo, hi)
    requires i == LowerBound(pts, x) && 0 < i < |pts| && pts[i].x - pts[i - 1].x <= EPSILON
    ensures lo <= pts[i].y <= hi
  {
    if right < pts[i].x {
      LowerBoundIs(pts, right, i);
    }
  }

  lemma Heights(a: Point, b: Point)
    ensures Height(a, b, 0.0) == a.y && Height(a, b, 1.0) == b.y
  {
  }
}
