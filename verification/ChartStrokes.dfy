/** Which segments of a line matter to the pixels of one column. */
module ChartStrokes {
  import opened Basics
  import opened Geometry
  import opened ChartLines
  import opened ChartCoverage

  /** How high and low the segments from number `first`, short of `last`, go. */
  predicate Encloses(pts: seq<Point>, first: nat, last: nat, lo: real, hi: real)
    requires last < |pts|
  {
    forall k :: first <= k <= last && first < last ==> lo <= pts[k].y <= hi
  }

  predicate InReachOf(d: Option<real>, reach: real) {
    d.Some? && d.value < reach * reach
  }

  /** Nothing from `first`, short of `last`, comes within reach of `p`. */
  ghost predicate OutOfReach(pts: seq<Point>, first: nat, last: nat, p: Point, reach: real)
    requires last < |pts| || first >= last
  {
    forall j: nat, k: nat :: first <= j < last && k == j + 1 ==> Distance2(pts[j], pts[k], p) >= reach * reach
  }

  /** A segment that ends too far left, starts too far right, or lies too high or too low,
      is out of reach. */
  lemma FarSegment(a: Point, b: Point, p: Point, reach: real)
    requires reach > 0.0 && a.x <= b.x
    requires b.x < p.x - reach || a.x > p.x + reach || MaxR(a.y, b.y) < p.y - reach || MinR(a.y, b.y) > p.y + reach
    ensures Distance2(a, b, p) >= reach * reach
  {
    hide Distance2, Across, Height;
    if Distance2(a, b, p) < reach * reach {
      var t := InReach(a, b, p, reach);
      OnSegment(a, b, t);
      assert false;
    }
  }

  /** What the nearest of some segments is, of those before one and those from it on. */
  lemma {:induction false} NearestSplit(pts: seq<Point>, first: nat, mid: nat, last: nat, p: Point)
    requires first <= mid <= last < |pts|
    ensures Nearest2(pts, first, last, p) == Nearer(Nearest2(pts, first, mid, p), Nearest2(pts, mid, last, p))
    decreases last
  {
    hide Distance2;
    if mid < last {
      NearestSplit(pts, first, mid, last - 1, p);
    }
  }

  /** Segments out of reach are no nearer than the reach. */
  lemma {:induction false} NearestFar(pts: seq<Point>, first: nat, last: nat, p: Point, reach: real)
    requires last < |pts| && OutOfReach(pts, first, last, p, reach)
    ensures !InReachOf(Nearest2(pts, first, last, p), reach)
    decreases last
  {
    hide Distance2;
    if first < last {
      NearestFar(pts, first, last - 1, p, reach);
    }
  }

  /** The window is enough: what is in reach of it is what is in reach of the line, and as
      near. */
  lemma WindowIsEnough(pts: seq<Point>, first: nat, last: nat, p: Point, reach: real)
    requires |pts| >= 2 && first <= last < |pts|
    requires OutOfReach(pts, 0, first, p, reach) && OutOfReach(pts, last, |pts| - 1, p, reach)
    ensures var all, some := Nearest2(pts, 0, |pts| - 1, p), Nearest2(pts, first, last, p);
      (InReachOf(all, reach) <==> InReachOf(some, reach)) && (InReachOf(all, reach) ==> all == some)
  {
    hide OutOfReach, Nearest2;
    var n := |pts| - 1;
    NearestFar(pts, 0, first, p, reach);
    NearestFar(pts, last, n, p, reach);
    NearestSplit(pts, 0, first, n, p);
    NearestSplit(pts, first, last, n, p);
  }

  /** Where the window of a column starts and ends. */
  ghost predicate Window(pts: seq<Point>, first: nat, last: nat, left: real, right: real) {
    && first <= last < |pts|
    && (forall k: nat :: 0 < k <= first ==> pts[k].x < left)
    && (forall k: nat :: last <= k < |pts| - 1 ==> pts[k].x > right)
  }

  lemma OutsideWindow(pts: seq<Point>, first: nat, last: nat, p: Point, reach: real)
    requires |pts| >= 2 && Ascending(pts) && reach > 0.0 && Window(pts, first, last, p.x - reach, p.x + reach)
    ensures OutOfReach(pts, 0, first, p, reach) && OutOfReach(pts, last, |pts| - 1, p, reach)
  {
    hide Distance2;
    forall j: nat, k: nat | j < first && k == j + 1
      ensures Distance2(pts[j], pts[k], p) >= reach * reach
    {
      FarSegment(pts[j], pts[k], p, reach);
    }
    forall j: nat, k: nat | last <= j < |pts| - 1 && k == j + 1
      ensures Distance2(pts[j], pts[k], p) >= reach * reach
    {
      FarSegment(pts[j], pts[k], p, reach);
    }
  }

  /** A pixel above or below all of the window is out of its reach. */
  lemma OutsideRows(pts: seq<Point>, first: nat, last: nat, lo: real, hi: real, p: Point, reach: real)
    requires Ascending(pts) && first <= last < |pts| && reach > 0.0 && Encloses(pts, first, last, lo, hi)
    requires p.y < lo - reach || p.y > hi + reach
    ensures OutOfReach(pts, first, last, p, reach)
  {
    hide Distance2;
    forall j: nat, k: nat | first <= j < last && k == j + 1
      ensures Distance2(pts[j], pts[k], p) >= reach * reach
    {
      FarSegment(pts[j], pts[k], p, reach);
    }
  }

  /** So is one left of the line's first point or right of its last. */
  lemma OutsideColumns(pts: seq<Point>, p: Point, reach: real)
    requires |pts| >= 2 && Ascending(pts) && reach > 0.0
    requires p.x < pts[0].x - reach || p.x > pts[|pts| - 1].x + reach
    ensures OutOfReach(pts, 0, |pts| - 1, p, reach)
  {
    hide Distance2;
    forall j: nat, k: nat | j < |pts| - 1 && k == j + 1
      ensures Distance2(pts[j], pts[k], p) >= reach * reach
    {
      assert j > 0 ==> pts[0].x <= pts[j].x;
      assert k < |pts| - 1 ==> pts[k].x <= pts[|pts| - 1].x;
      FarSegment(pts[j], pts[k], p, reach);
    }
  }
}
