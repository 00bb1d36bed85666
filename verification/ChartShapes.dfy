/** Reading a chart's lines with a cursor that never goes back: heights at a place, and
    the range of heights between two. */
module ChartShapes {
  import opened Basics
  import opened Geometry
  import opened ChartLines

  /** A cursor on a line's points; each question is at or right of the one before. */
  class Walk {
    const pts: seq<Point>
    /** The first point at or past the last place asked for. */
    var i: nat

    predicate Valid()
      reads this
    {
      i <= |pts|
    }

    constructor (pts: seq<Point>)
      ensures Valid() && this.pts == pts && i == 0
    {
      this.pts, i := pts, 0;
    }

    /** Where a place falls that is no further left than those before. */
    method Seek(x: real) returns (at: nat)
      requires Valid() && i <= LowerBound(pts, x)
      modifies this
      ensures Valid() && at == i == LowerBound(pts, x)
    {
      while i < |pts| && pts[i].x < x
        invariant i <= LowerBound(pts, x)
        decreases |pts| - i
      {
        i := i + 1;
      }
      LowerBoundIs(pts, x, i);
      return i;
    }

    /** The line there. */
    method At(x: real) returns (y: real)
      requires Valid() && pts != [] && i <= LowerBound(pts, x)
      modifies this
      ensures Valid() && i == LowerBound(pts, x) && y == LineAt(pts, x)
    {
      var at := Seek(x);
      y := Value(pts, at, x);
    }

    /** The range of the line's heights between two places, with the lower bounds of both. */
    method Span(left: real, right: real) returns (lo: real, hi: real, il: nat, ir: nat)
      requires Valid() && pts != [] && Ascending(pts) && left <= right && i <= LowerBound(pts, left)
      modifies this
      ensures Valid() && i == il == LowerBound(pts, left) && ir == LowerBound(pts, right)
      ensures Bounded(pts, left, right, lo, hi)
      ensures Touched(pts, left, right, lo) && Touched(pts, left, right, hi)
    {
      hide Bounded, Touched, LowerBound, Value, Least, Most;
      il := Seek(left);
      var low: Option<real>, high: Option<real> := None, None;
      var found: Option<nat> := None;
      var at := il;
      while at < |pts| && pts[at].x <= right
        invariant il <= at <= |pts| && i == il
        invariant low == Lowest(pts[il..at]) && high == Highest(pts[il..at])
        invariant forall k :: il <= k < at ==> pts[k].x <= right
        invariant found.None? ==> forall k :: il <= k < at ==> pts[k].x < right
        invariant found.Some? ==> found.value == LowerBound(pts, right)
        decreases |pts| - at
      {
        if found.None? && pts[at].x >= right {
          FirstPast(pts, left, right, il, at);
          found := Some(at);
        }
        LowestNext(pts, il, at);
        low := Some(if low.None? then pts[at].y else MinR(low.value, pts[at].y));
        high := Some(if high.None? then pts[at].y else MaxR(high.value, pts[at].y));
        at := at + 1;
      }
      ir := if found.Some? then found.value else at;
      if found.None? {
        FirstPast(pts, left, right, il, at);
      }
      SpanIs(pts, left, right, il, at);
      var a, b := Value(pts, il, left), Value(pts, ir, right);
      lo := MinR(if low.Some? then MinR(low.value, a) else a, b);
      hi := MaxR(if high.Some? then MaxR(high.value, a) else a, b);
    }
  }

  function Lowest(points: seq<Point>): Option<real> {
    if points == [] then None else Some(Least(points).y)
  }

  function Highest(points: seq<Point>): Option<real> {
    if points == [] then None else Some(Most(points).y)
  }

  lemma LowestNext(pts: seq<Point>, il: nat, at: nat)
    requires il <= at < |pts|
    ensures Lowest(pts[il..at + 1])
      == Some(if il == at then pts[at].y else MinR(Lowest(pts[il..at]).value, pts[at].y))
    ensures Highest(pts[il..at + 1])
      == Some(if il == at then pts[at].y else MaxR(Highest(pts[il..at]).value, pts[at].y))
  {
    var more := pts[il..at + 1];
    assert more[..|more| - 1] == pts[il..at] && more[|more| - 1] == pts[at];
  }

  /** The first of the points from `il` on that is not before `right`. */
  lemma FirstPast(pts: seq<Point>, left: real, right: real, il: nat, at: nat)
    requires il == LowerBound(pts, left) && il <= at <= |pts| && left <= right
    requires at < |pts| ==> pts[at].x >= right
    requires forall k :: il <= k < at ==> pts[k].x < right
    ensures LowerBound(pts, right) == at
  {
    LowerBoundIs(pts, right, at);
  }

  lemma {:induction false} ExtremesAttained(points: seq<Point>)
    requires points != []
    ensures exists i :: 0 <= i < |points| && points[i].y == Least(points).y
    ensures exists i :: 0 <= i < |points| && points[i].y == Most(points).y
  {
    if |points| == 1 {
      assert points[0].y == Least(points).y && points[0].y == Most(points).y;
    } else {
      var front := points[..|points| - 1];
      ExtremesAttained(front);
      var i :| 0 <= i < |front| && front[i].y == Least(front).y;
      var j :| 0 <= j < |front| && front[j].y == Most(front).y;
      assert points[i] == front[i] && points[j] == front[j];
      assert points[|points| - 1].y == points[|front|].y;
    }
  }

  /** The points from `il` to `at` are those from `left` to `right`: with the line's two
      ends, they say how far it goes. */
  lemma SpanIs(pts: seq<Point>, left: real, right: real, il: nat, at: nat)
    requires pts != [] && Ascending(pts) && left <= right && il == LowerBound(pts, left) && il <= at <= |pts|
    requires at < |pts| ==> pts[at].x > right
    requires forall k :: il <= k < at ==> pts[k].x <= right
    ensures var a, b, low, high := LineAt(pts, left), LineAt(pts, right), Lowest(pts[il..at]), Highest(pts[il..at]);
      var lo := MinR(if low.Some? then MinR(low.value, a) else a, b);
      var hi := MaxR(if high.Some? then MaxR(high.value, a) else a, b);
      Bounded(pts, left, right, lo, hi) && Touched(pts, left, right, lo) && Touched(pts, left, right, hi)
  {
    hide LineAt, Least, Most, LowerBound;
    InnerBounded(pts, left, right, il, at);
    if il < at {
      InnerTouched(pts, left, right, il, at);
    }
  }

  lemma InnerBounded(pts: seq<Point>, left: real, right: real, il: nat, at: nat)
    requires pts != [] && Ascending(pts) && left <= right && il == LowerBound(pts, left) && il <= at <= |pts|
    requires at < |pts| ==> pts[at].x > right
    ensures forall k :: 0 <= k < |pts| && left <= pts[k].x <= right ==>
      il < at && Least(pts[il..at]).y <= pts[k].y <= Most(pts[il..at]).y
  {
    hide Least, Most;
    forall k | 0 <= k < |pts| && left <= pts[k].x <= right
      ensures il < at && Least(pts[il..at]).y <= pts[k].y <= Most(pts[il..at]).y
    {
      assert il <= k < at;
      assert pts[il..at][k - il] == pts[k];
      ExtremesHold(pts[il..at], k - il);
    }
  }

  lemma InnerTouched(pts: seq<Point>, left: real, right: real, il: nat, at: nat)
    requires pts != [] && Ascending(pts) && il == LowerBound(pts, left) && il < at <= |pts|
    requires forall k :: il <= k < at ==> pts[k].x <= right
    ensures Touched(pts, left, right, Least(pts[il..at]).y) && Touched(pts, left, right, Most(pts[il..at]).y)
  {
    hide Least, Most, LineAt;
    var inner := pts[il..at];
    ExtremesAttained(inner);
    var i :| 0 <= i < |inner| && inner[i].y == Least(inner).y;
    var j :| 0 <= j < |inner| && inner[j].y == Most(inner).y;
    assert pts[il + i] == inner[i] && pts[il + j] == inner[j];
    assert left <= pts[il].x;
  }

  /** The line really goes there: at one of the ends, or at a point between. */
  predicate Touched(pts: seq<Point>, left: real, right: real, y: real)
    requires pts != []
  {
    || LineAt(pts, left) == y
    || LineAt(pts, right) == y
    || exists k :: 0 <= k < |pts| && left <= pts[k].x <= right && pts[k].y == y
  }
}
