/** One column of a band: its samples, its rows, and which of them it covers whole. */
module ChartBands {
  import opened Basics
  import opened Geometry
  import opened ChartLines
  import opened ChartCoverage

  /** Places between which a band is drawn. */
  function StartOf(top: seq<Point>, bottom: seq<Point>): real
    requires top != [] && bottom != []
  {
    MaxR(MaxR(top[0].x, bottom[0].x), 0.0)
  }

  function EndOf(top: seq<Point>, bottom: seq<Point>, width: nat): real
    requires top != [] && bottom != []
  {
    MinR(MinR(top[|top| - 1].x, bottom[|bottom| - 1].x), width as real)
  }

  /** A column's four samples: whether each is in the band, and where the lines are there. */
  datatype Sample = Sample(inside: bool, top: real, bottom: real) {
    function Lo(): real {
      MinR(top, bottom)
    }

    function Hi(): real {
      MaxR(top, bottom)
    }
  }

  predicate Samples(top: seq<Point>, bottom: seq<Point>, col: int, ss: seq<Sample>)
    requires top != [] && bottom != []
  {
    && |ss| == SAMPLES
    && forall k :: 0 <= k < SAMPLES ==>
      ss[k] == Sample(InBand(top, bottom, Place(col, k)), LineAt(top, Place(col, k)), LineAt(bottom, Place(col, k)))
  }

  /** The height at `x`, searched from segment `cursor` rightwards; `on` is where the search ends. */
  method ReadLine(pts: seq<Point>, cursor: nat, x: real) returns (y: real, on: nat)
    requires pts != [] && Ascending(pts) && cursor < |pts| && (cursor > 0 ==> pts[cursor].x < x)
    ensures y == LineAt(pts, x)
    ensures on < |pts| && (on > 0 ==> pts[on].x < x)
  {
    hide LineAt;
    on := cursor;
    while on + 1 < |pts| && pts[on + 1].x < x
      invariant on < |pts| && (on > 0 ==> pts[on].x < x)
      decreases |pts| - on
    {
      on := on + 1;
    }
    var a := pts[on];
    // With no next point, both ends of the segment are this one.
    var b := if on + 1 < |pts| then pts[on + 1] else a;
    if x <= a.x {
      // Left of the segment: its first height holds.
      y := a.y;
    } else if b.x - a.x <= EPSILON {
      // A step takes its end.
      y := b.y;
    } else {
      y := Height(a, b, Share(a, b, x));
    }
    ReadLineIs(pts, on, x);
  }

  lemma ReadLineIs(pts: seq<Point>, on: nat, x: real)
    requires pts != [] && Ascending(pts) && on < |pts| && (on > 0 ==> pts[on].x < x)
    requires on + 1 < |pts| ==> pts[on + 1].x >= x
    ensures var a, b := pts[on], if on + 1 < |pts| then pts[on + 1] else pts[on];
      LineAt(pts, x) == if x <= a.x then a.y else if b.x - a.x <= EPSILON then b.y else Height(a, b, Share(a, b, x))
  {
    hide Height, Share;
    if x <= pts[on].x {
      LowerBoundIs(pts, x, 0);
    } else {
      LowerBoundIs(pts, x, on + 1);
    }
  }

  // What the samples come to

  /** The coverage of a row, sample by sample; an empty one adds nothing. */
  function CoverageOf(ss: seq<Sample>, row: int): real
    requires |ss| == SAMPLES
  {
    (Part(ss[0], row) + Part(ss[1], row) + Part(ss[2], row) + Part(ss[3], row)) / 4.0
  }

  function Part(s: Sample, row: int): real {
    if s.inside then Shared(s.top, s.bottom, row) else 0.0
  }

  lemma CoverageIs(top: seq<Point>, bottom: seq<Point>, col: int, ss: seq<Sample>, row: int)
    requires top != [] && bottom != [] && Samples(top, bottom, col, ss)
    ensures CoverageOf(ss, row) == BandCoverage(top, bottom, col, row)
  {
    hide InBand, LineAt, Shared, Place;
    assert forall k :: 0 <= k < SAMPLES ==> Part(ss[k], row) == Overlap(top, bottom, Place(col, k), row);
  }

  /** Whether every sample of the column is in the band and covers the whole row. */
  predicate WholeRow(ss: seq<Sample>, row: int) {
    forall k :: 0 <= k < |ss| ==> ss[k].inside && ss[k].Lo() <= row as real && row as real + 1.0 <= ss[k].Hi()
  }

  /** A row covered whole is covered fully: the same color all the way down. */
  lemma WholeIsFull(ss: seq<Sample>, row: int)
    requires |ss| == SAMPLES && WholeRow(ss, row)
    ensures CoverageOf(ss, row) == 1.0
  {
    assert forall k :: 0 <= k < SAMPLES ==> Part(ss[k], row) == 1.0;
  }

  /** The inside samples' least and greatest of two heights. */
  datatype Heights = Heights(loMin: real, loMax: real, hiMin: real, hiMax: real)

  ghost predicate HeightsOf(ss: seq<Sample>, h: Heights) {
    && (forall k :: 0 <= k < |ss| && ss[k].inside ==> h.loMin <= ss[k].Lo() <= h.loMax && h.hiMin <= ss[k].Hi() <= h.hiMax)
    && (exists k :: 0 <= k < |ss| && ss[k].inside && ss[k].Lo() == h.loMin)
    && (exists k :: 0 <= k < |ss| && ss[k].inside && ss[k].Lo() == h.loMax)
    && (exists k :: 0 <= k < |ss| && ss[k].inside && ss[k].Hi() == h.hiMin)
    && (exists k :: 0 <= k < |ss| && ss[k].inside && ss[k].Hi() == h.hiMax)
  }

  /** The rows a column touches, and of those the ones it covers whole. */
  datatype Rows = Rows(r0: nat, r1: nat, in0: nat, in1: nat)

  function FirstRow(h: Heights): nat {
    Max(h.loMin.Floor, 0)
  }

  function LastRow(h: Heights, height: nat): nat {
    Min(Max(Ceil(h.hiMax), 0), height)
  }

  /** None of the samples is off the band, and the bounds leave room for a whole row. */
  predicate HasWhole(ss: seq<Sample>, h: Heights) {
    (forall k :: 0 <= k < |ss| ==> ss[k].inside) && h.hiMin.Floor > Ceil(h.loMax)
  }

  function ClampRow(x: int, lo: nat, hi: nat): nat
    requires lo <= hi
  {
    Min(Max(x, lo), hi)
  }

  /** Clamped to the rows the column touches, which must not run backwards. */
  function RowsOf(ss: seq<Sample>, h: Heights, height: nat): Rows
    requires HasWhole(ss, h) ==> FirstRow(h) <= LastRow(h, height)
  {
    var r0, r1 := FirstRow(h), LastRow(h, height);
    if HasWhole(ss, h) then
      var in0, in1 := ClampRow(Ceil(h.loMax), r0, r1), ClampRow(h.hiMin.Floor, r0, r1);
      Rows(r0, r1, in0, Max(in0, in1))
    else Rows(r0, r1, r1, r1)
  }

  /** They do not run backwards if and only if the column starts no lower than the raster's
      bottom edge. */
  lemma ForwardsIff(ss: seq<Sample>, h: Heights, height: nat)
    requires HeightsOf(ss, h) && HasWhole(ss, h)
    ensures FirstRow(h) <= LastRow(h, height) <==> h.loMin.Floor <= height
  {
    var k :| 0 <= k < |ss| && ss[k].inside && ss[k].Lo() == h.loMin;
    assert ss[k].Lo() <= ss[k].Hi() <= h.hiMax;
  }

  /** Rows in the raster are covered whole just where that says, and not at all outside the
      rows the column touches. */
  lemma RowsAre(ss: seq<Sample>, h: Heights, height: nat, row: nat)
    requires |ss| == SAMPLES && HeightsOf(ss, h) && row < height
    requires HasWhole(ss, h) ==> FirstRow(h) <= LastRow(h, height)
    ensures var r := RowsOf(ss, h, height);
      (r.in0 <= row < r.in1 <==> WholeRow(ss, row))
      && (r.r0 <= r.r1 ==> r.r0 <= r.in0 <= r.in1 <= r.r1)
      && (!(r.r0 <= row < r.r1) ==> CoverageOf(ss, row) == 0.0)
  {
    hide HeightsOf, WholeRow, CoverageOf, Ceil;
    if !(FirstRow(h) <= row < LastRow(h, height)) {
      NoneOutside(ss, h, height, row);
    }
    WholeIs(ss, h, row);
    HeightsOrdered(ss, h);
  }

  lemma HeightsOrdered(ss: seq<Sample>, h: Heights)
    requires HeightsOf(ss, h)
    ensures h.loMin.Floor <= Ceil(h.loMax) && h.hiMin.Floor <= Ceil(h.hiMax)
  {
  }

  /** A row is covered whole if and only if it lies below the lowest top and above the
      highest bottom, of a column that has such rows. */
  lemma WholeIs(ss: seq<Sample>, h: Heights, row: int)
    requires |ss| == SAMPLES && HeightsOf(ss, h)
    ensures WholeRow(ss, row) <==> HasWhole(ss, h) && Ceil(h.loMax) <= row < h.hiMin.Floor
  {
    var i :| 0 <= i < |ss| && ss[i].inside && ss[i].Lo() == h.loMax;
    var j :| 0 <= j < |ss| && ss[j].inside && ss[j].Hi() == h.hiMin;
    CeilIs(h.loMax, row);
    FloorIs(h.hiMin, row);
    hide Ceil;
    if WholeRow(ss, row) {
      assert ss[i].Lo() <= row as real && row as real + 1.0 <= ss[j].Hi();
    }
  }

  lemma CeilIs(x: real, row: int)
    ensures Ceil(x) <= row <==> x <= row as real
  {
  }

  lemma FloorIs(x: real, row: int)
    ensures row < x.Floor <==> row as real + 1.0 <= x
  {
  }

  lemma NoneOutside(ss: seq<Sample>, h: Heights, height: nat, row: nat)
    requires |ss| == SAMPLES && HeightsOf(ss, h) && row < height && !(FirstRow(h) <= row < LastRow(h, height))
    ensures CoverageOf(ss, row) == 0.0
  {
    FloorIs(h.loMin, row);
    CeilIs(h.hiMax, row);
    hide Ceil;
    assert forall k :: 0 <= k < SAMPLES ==> Part(ss[k], row) == 0.0;
  }

  /** Heights with one sample more. */
  function Widened(h: Heights, s: Sample): Heights {
    Heights(MinR(h.loMin, s.Lo()), MaxR(h.loMax, s.Lo()), MinR(h.hiMin, s.Hi()), MaxR(h.hiMax, s.Hi()))
  }

  lemma HeightsNext(ss: seq<Sample>, n: nat, h: Option<Heights>)
    requires n < |ss| && (h.None? <==> forall k :: 0 <= k < n ==> !ss[k].inside)
    requires h.Some? ==> HeightsOf(ss[..n], h.value)
    ensures ss[n].inside ==>
      HeightsOf(ss[..n + 1], if h.None? then Heights(ss[n].Lo(), ss[n].Lo(), ss[n].Hi(), ss[n].Hi()) else Widened(h.value, ss[n]))
    ensures !ss[n].inside && h.Some? ==> HeightsOf(ss[..n + 1], h.value)
  {
    var before, after := ss[..n], ss[..n + 1];
    assert after[n] == ss[n] && forall k :: 0 <= k < n ==> after[k] == before[k];
    if h.Some? {
      var i :| 0 <= i < |before| && before[i].inside && before[i].Lo() == h.value.loMin;
      var j :| 0 <= j < |before| && before[j].inside && before[j].Lo() == h.value.loMax;
      var k :| 0 <= k < |before| && before[k].inside && before[k].Hi() == h.value.hiMin;
      var l :| 0 <= l < |before| && before[l].inside && before[l].Hi() == h.value.hiMax;
      assert after[i] == before[i] && after[j] == before[j] && after[k] == before[k] && after[l] == before[l];
    }
  }

  /** How high and low the samples inside go, if any are. */
  method MeasureHeights(ss: seq<Sample>) returns (h: Option<Heights>)
    ensures h.None? <==> forall k :: 0 <= k < |ss| ==> !ss[k].inside
    ensures h.Some? ==> HeightsOf(ss, h.value)
  {
    hide HeightsOf, Widened;
    h := None;
    for n := 0 to |ss|
      invariant h.None? <==> forall k :: 0 <= k < n ==> !ss[k].inside
      invariant h.Some? ==> HeightsOf(ss[..n], h.value)
    {
      HeightsNext(ss, n, h);
      if ss[n].inside {
        h := Some(if h.None? then Heights(ss[n].Lo(), ss[n].Lo(), ss[n].Hi(), ss[n].Hi()) else Widened(h.value, ss[n]));
      }
    }
    assert ss[..|ss|] == ss;
  }
}
