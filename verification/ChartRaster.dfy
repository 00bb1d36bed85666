/** Charts drawn on the CPU: the fast ways, held to the coverage each pixel should get. */
module ChartRaster {
  import opened Basics
  import opened Geometry
  import opened Words
  import opened ChartLines
  import opened ChartCoverage
  import opened ChartBits
  import opened ChartPixels
  import opened ChartBands
  import opened ChartStrokes

  /** Whether every sample of a pixel's column is in the band and covers its whole row. */
  predicate Whole(top: seq<Point>, bottom: seq<Point>, col: int, row: int)
    requires top != [] && bottom != []
  {
    forall k :: 0 <= k < SAMPLES ==>
      InBand(top, bottom, Place(col, k)) && Spanned(LineAt(top, Place(col, k)), LineAt(bottom, Place(col, k)), row)
  }

  /** Whether a row lies all between two heights. */
  predicate Spanned(t: real, b: real, row: int) {
    MinR(t, b) <= row as real && row as real + 1.0 <= MaxR(t, b)
  }

  /** What drawing a band makes of a pixel: it is blended at its coverage, a pixel covered
      whole byte by byte. */
  function BandPixel(d: Pixel, top: seq<Point>, bottom: seq<Point>, width: nat, col: int, row: int, ink: Pixel): Pixel {
    if top == [] || bottom == [] then d
    else if MinR(MinR(top[|top| - 1].x, bottom[|bottom| - 1].x), width as real) <= MaxR(MaxR(top[0].x, bottom[0].x), 0.0) then d
    else if Whole(top, bottom, col, row) then FillPixel(d, Scaled(ink, 256))
    else Blended(d, ink, BandCoverage(top, bottom, col, row))
  }

  lemma NothingToDraw(top: seq<Point>, bottom: seq<Point>, width: nat, ink: Pixel)
    requires top == [] || bottom == [] || EndOf(top, bottom, width) <= StartOf(top, bottom)
    ensures forall d, c: int, r: int :: BandPixel(d, top, bottom, width, c, r, ink) == d
  {
    hide Whole, FillPixel, Scaled, Blended, BandCoverage;
  }

  lemma BandPixelIs(d: Pixel, top: seq<Point>, bottom: seq<Point>, width: nat, col: int, row: int, ink: Pixel)
    requires top != [] && bottom != []
    ensures EndOf(top, bottom, width) > StartOf(top, bottom) ==>
      BandPixel(d, top, bottom, width, col, row, ink)
      == if Whole(top, bottom, col, row) then FillPixel(d, Scaled(ink, 256)) else Blended(d, ink, BandCoverage(top, bottom, col, row))
    ensures EndOf(top, bottom, width) <= StartOf(top, bottom) ==> BandPixel(d, top, bottom, width, col, row, ink) == d
  {
    hide Whole, FillPixel, Scaled, Blended, BandCoverage;
  }

  /** What drawing a line makes of one: it is blended at what is left of the line's reach
      at its distance. `root` is the square root. */
  function LinePixel(d: Pixel, pts: seq<Point>, reach: real, root: real -> real, col: int, row: int, ink: Pixel): Pixel {
    var nearest := if |pts| < 2 then None else Nearest2(pts, 0, |pts| - 1, Center(col, row));
    if InReachOf(nearest, reach) then Blended(d, ink, reach - root(nearest.value)) else d
  }

  /** No column that covers rows whole starts below the raster's bottom edge. */
  ghost predicate StartsInside(top: seq<Point>, bottom: seq<Point>, width: nat, height: nat)
    requires top != [] && bottom != []
  {
    forall col: int, ss, h :: 0 <= col < width && Samples(top, bottom, col, ss) && HeightsOf(ss, h) && HasWhole(ss, h) ==>
      h.loMin.Floor <= height
  }

  const LOW_TOP: seq<Point> := [Point(0.0, 20.0), Point(1.0, 20.0)]
  const LOW_BOTTOM: seq<Point> := [Point(0.0, 30.0), Point(1.0, 30.0)]

  /** A band from 20 to 30 on a raster ten pixels high: the rows its one column is clamped
      between are the wrong way round, so it is not one that filling takes. */
  lemma BackwardsBelow()
    ensures Ascending(LOW_TOP) && Ascending(LOW_BOTTOM) && EndOf(LOW_TOP, LOW_BOTTOM, 1) > StartOf(LOW_TOP, LOW_BOTTOM)
    ensures exists ss, h :: Samples(LOW_TOP, LOW_BOTTOM, 0, ss) && RunsBackwards(ss, h, 10)
    ensures !StartsInside(LOW_TOP, LOW_BOTTOM, 1, 10)
  {
    hide LineAt, InBand, HeightsOf, HasWhole, FirstRow, LastRow, RunsBackwards;
    var s := Sample(true, 20.0, 30.0);
    var ss, h := [s, s, s, s], Heights(20.0, 20.0, 30.0, 30.0);
    forall k | 0 <= k < SAMPLES
      ensures ss[k] == Sample(InBand(LOW_TOP, LOW_BOTTOM, Place(0, k)), LineAt(LOW_TOP, Place(0, k)), LineAt(LOW_BOTTOM, Place(0, k)))
    {
      Level(LOW_TOP, Place(0, k));
      Level(LOW_BOTTOM, Place(0, k));
      InLowBand(Place(0, k));
    }
    assert Samples(LOW_TOP, LOW_BOTTOM, 0, ss);
    LowHeights(ss, h);
    assert RunsBackwards(ss, h, 10);
    assert 0 <= 0 < 1;
  }

  lemma InLowBand(x: real)
    requires 0.0 < x <= 1.0
    ensures InBand(LOW_TOP, LOW_BOTTOM, x)
  {
  }

  lemma LowHeights(ss: seq<Sample>, h: Heights)
    requires |ss| == SAMPLES && forall k :: 0 <= k < |ss| ==> ss[k] == Sample(true, 20.0, 30.0)
    requires h == Heights(20.0, 20.0, 30.0, 30.0)
    ensures HeightsOf(ss, h) && HasWhole(ss, h) && RunsBackwards(ss, h, 10) && h.loMin.Floor > 10
  {
    assert ss[0].Lo() == 20.0 && ss[0].Hi() == 30.0;
  }

  /** A column some rows of which are covered whole, clamped between a row and one above it. */
  ghost predicate RunsBackwards(ss: seq<Sample>, h: Heights, height: nat) {
    HeightsOf(ss, h) && HasWhole(ss, h) && FirstRow(h) > LastRow(h, height)
  }

  /** A level line is at its height between its two points. */
  lemma Level(pts: seq<Point>, x: real)
    requires |pts| == 2 && pts[0].x < x <= pts[1].x && pts[0].y == pts[1].y
    ensures LineAt(pts, x) == pts[0].y
  {
    LowerBoundIs(pts, x, 1);
  }

  /** What a band's column makes of a pixel, but where it is to be filled with its row. */
  function ColumnPixel(d: Pixel, ss: seq<Sample>, row: int, ink: Pixel): Pixel
    requires |ss| == SAMPLES
  {
    if WholeRow(ss, row) then d else Blended(d, ink, CoverageOf(ss, row))
  }

  lemma BlendedNone(d: Pixel, ink: Pixel)
    ensures Blended(d, ink, 0.0) == d
  {
  }

  lemma NoneInside(ss: seq<Sample>, row: int)
    requires |ss| == SAMPLES && forall k :: 0 <= k < |ss| ==> !ss[k].inside
    ensures CoverageOf(ss, row) == 0.0 && !WholeRow(ss, row)
  {
    assert !ss[0].inside;
  }

  lemma WholeIsWholeRow(top: seq<Point>, bottom: seq<Point>, col: int, ss: seq<Sample>, row: int)
    requires top != [] && bottom != [] && Samples(top, bottom, col, ss)
    ensures WholeRow(ss, row) <==> Whole(top, bottom, col, row)
  {
    hide InBand, LineAt, Place;
  }

  class ChartRaster {
    /** Rows of pixels, top first. */
    var px: array2<Pixel>

    /** Make the raster `width` by `height`, every pixel transparent. */
    method Reset(width: nat, height: nat)
      modifies this
      ensures fresh(px) && px.Length0 == height && px.Length1 == width
      ensures forall row, col :: 0 <= row < height && 0 <= col < width ==> px[row, col] == Pixel(0, 0, 0, 0)
    {
      px := new Pixel[height, width]((r, c) => Pixel(0, 0, 0, 0));
    }

    /** Blend `src` over a pixel. */
    method Put(row: nat, col: nat, src: Src)
      requires row < px.Length0 && col < px.Length1 && Proper(src)
      modifies px
      ensures px[row, col] == OverPixel(old(px[row, col]), src)
      ensures forall r: nat, c: nat :: r < px.Length0 && c < px.Length1 && (r != row || c != col) ==> px[r, c] == old(px[r, c])
    {
      OverIsByChannel(px[row, col], src);
      px[row, col] := Unpack(Over(Pack(px[row, col]), Pack(src.px), src.keep));
    }

    method Blend(col: nat, row: nat, ink: Pixel, cov: real)
      requires row < px.Length0 && col < px.Length1
      modifies px
      ensures px[row, col] == Blended(old(px[row, col]), ink, cov)
      ensures forall r: nat, c: nat :: r < px.Length0 && c < px.Length1 && (r != row || c != col) ==> px[r, c] == old(px[r, c])
    {
      var c := Of256(cov);
      if c == 0 {
        return;
      }
      Put(row, col, Scaled(ink, c));
    }

    /** `Over` at each of the `len` pixels of row `row` from column `at`, and nowhere else. */
    method FillSpan(row: nat, at: nat, len: nat, src: Src)
      requires row < px.Length0 && at + len <= px.Length1 && Proper(src)
      modifies px
      ensures forall r: nat, c: nat :: r < px.Length0 && c < px.Length1 ==>
        px[r, c] == if r == row && at <= c < at + len then FillPixel(old(px[r, c]), src) else old(px[r, c])
    {
      hide FillPixel;
      for k := at to at + len
        invariant forall r: nat, c: nat :: r < px.Length0 && c < px.Length1 ==>
          px[r, c] == if r == row && at <= c < k then FillPixel(old(px[r, c]), src) else old(px[r, c])
      {
        px[row, k] := FillPixel(px[row, k], src);
      }
    }

    /** The pixels of one column in a range of rows, each by the share of it the samples cover. */
    method BlendRows(col: nat, from: nat, to: nat, ss: seq<Sample>, ink: Pixel)
      requires to <= px.Length0 && col < px.Length1 && |ss| == SAMPLES
      modifies px
      ensures forall r: nat, c: nat :: r < px.Length0 && c < px.Length1 ==>
        px[r, c] == if c == col && from <= r < to then Blended(old(px[r, c]), ink, CoverageOf(ss, r)) else old(px[r, c])
    {
      hide Blended, CoverageOf;
      if from < to {
        for row := from to to
          invariant forall r: nat, c: nat :: r < px.Length0 && c < px.Length1 ==>
            px[r, c] == if c == col && from <= r < row then Blended(old(px[r, c]), ink, CoverageOf(ss, r)) else old(px[r, c])
        {
          Blend(col, row, ink, CoverageOf(ss, row));
        }
      }
    }

    /** One column of a band: the rows it touches but does not cover whole are blended, and
        those it does are told. */
    method FillColumn(col: nat, ss: seq<Sample>, ink: Pixel) returns (in0: nat, in1: nat)
      requires col < px.Length1 && |ss| == SAMPLES
      requires forall h :: HeightsOf(ss, h) && HasWhole(ss, h) ==> h.loMin.Floor <= px.Length0
      modifies px
      ensures forall r: nat :: r < px.Length0 ==> (in0 <= r < in1 <==> WholeRow(ss, r))
      ensures in0 < in1 ==> in1 <= px.Length0
      ensures forall r: nat, c: nat :: r < px.Length0 && c < px.Length1 ==>
        px[r, c] == if c == col then ColumnPixel(old(px[r, c]), ss, r, ink) else old(px[r, c])
    {
      hide HeightsOf, HasWhole, RowsOf, WholeRow, Blended, CoverageOf;
      var found := MeasureHeights(ss);
      if found.None? {
        forall r: nat | r < px.Length0
          ensures CoverageOf(ss, r) == 0.0 && !WholeRow(ss, r)
        {
          NoneInside(ss, r);
        }
        forall d
          ensures Blended(d, ink, 0.0) == d
        {
          BlendedNone(d, ink);
        }
        return 0, 0;
      }
      var h := found.value;
      if HasWhole(ss, h) {
        ForwardsIff(ss, h, px.Length0);
      }
      var rows := RowsOf(ss, h, px.Length0);
      forall r: nat | r < px.Length0
        ensures (rows.in0 <= r < rows.in1 <==> WholeRow(ss, r))
        ensures rows.r0 <= rows.r1 ==> rows.r0 <= rows.in0 <= rows.in1 <= rows.r1
        ensures !(rows.r0 <= r < rows.r1) ==> CoverageOf(ss, r) == 0.0
      {
        RowsAre(ss, h, px.Length0, r);
      }
      RowsBound(ss, h, px.Length0);
      BlendRows(col, rows.r0, rows.in0, ss, ink);
      BlendRows(col, rows.in1, rows.r1, ss, ink);
      forall d
        ensures Blended(d, ink, 0.0) == d
      {
        BlendedNone(d, ink);
      }
      return rows.in0, rows.in1;
    }

    /** The columns of a band, left to right: their edges are blended, and the rows each
        covers whole are listed. */
    method FillColumns(top: seq<Point>, bottom: seq<Point>, first: nat, last: nat, ink: Pixel)
      returns (inner0: seq<int>, inner1: seq<int>)
      requires top != [] && bottom != [] && Ascending(top) && Ascending(bottom)
      requires first <= last <= px.Length1 && StartsInside(top, bottom, px.Length1, px.Length0)
      modifies px
      ensures |inner0| == |inner1| == last - first
      ensures Listed(top, bottom, first, inner0, inner1, px.Length0)
      ensures forall r: nat, c: nat :: r < px.Length0 && c < px.Length1 ==>
        px[r, c] == if first <= c < last && !Whole(top, bottom, c, r)
          then Blended(old(px[r, c]), ink, BandCoverage(top, bottom, c, r)) else old(px[r, c])
    {
      hide Whole, Blended, BandCoverage, HeightsOf, HasWhole, InBand, LineAt, CoverageOf, WholeRow, Listed;
      var ti: nat, bi: nat := 0, 0;
      ListedNone(top, bottom, first, px.Length0);
      inner0, inner1 := [], [];
      for col := first to last
        invariant ti < |top| && (ti > 0 ==> top[ti].x < Place(col, 0))
        invariant bi < |bottom| && (bi > 0 ==> bottom[bi].x < Place(col, 0))
        invariant |inner0| == |inner1| == col - first
        invariant Listed(top, bottom, first, inner0, inner1, px.Length0)
        invariant forall r: nat, c: nat :: r < px.Length0 && c < px.Length1 ==>
          px[r, c] == if first <= c < col && !Whole(top, bottom, c, r)
            then Blended(old(px[r, c]), ink, BandCoverage(top, bottom, c, r)) else old(px[r, c])
      {
        var ss;
        ss, ti, bi := ReadColumn(top, bottom, col, ti, bi);
        var in0, in1 := FillColumn(col, ss, ink);
        forall r: nat | r < px.Length0
          ensures WholeRow(ss, r) <==> Whole(top, bottom, col, r)
          ensures CoverageOf(ss, r) == BandCoverage(top, bottom, col, r)
        {
          WholeIsWholeRow(top, bottom, col, ss, r);
          CoverageIs(top, bottom, col, ss, r);
        }
        ListedNext(top, bottom, first, inner0, inner1, px.Length0, col, ss, in0, in1);
        inner0, inner1 := inner0 + [in0], inner1 + [in1];
      }
    }

    /** One row of a band: the columns that cover it whole, as runs of pixels. */
    method FillRow(row: nat, inner0: seq<int>, inner1: seq<int>, first: nat, src: Src)
      requires row < px.Length0 && |inner0| == |inner1| && first + |inner0| <= px.Length1 && Proper(src)
      modifies px
      ensures forall r: nat, c: nat :: r < px.Length0 && c < px.Length1 ==>
        px[r, c] == if r == row && c >= first && CoversRow(inner0, inner1, row, c - first)
          then FillPixel(old(px[r, c]), src) else old(px[r, c])
    {
      hide FillPixel, BitAt;
      var bits := RowBits(inner0, inner1, row);
      var columns, from := |inner0|, 0;
      while true
        invariant from <= columns
        invariant forall r: nat, c: nat :: r < px.Length0 && c < px.Length1 ==>
          px[r, c] == if r == row && first <= c < first + from && CoversRow(inner0, inner1, row, c - first)
            then FillPixel(old(px[r, c]), src) else old(px[r, c])
        decreases columns - from
      {
        var run, on := NextRun(bits, columns, from);
        RunCovers(bits, inner0, inner1, row, from, run, on);
        if run.None? {
          return;
        }
        FillSpan(row, first + run.value.0, run.value.1, src);
        from := on;
      }
    }

    /** The rows some column covers whole. */
    method FillRows(inner0: seq<int>, inner1: seq<int>, first: nat, src: Src)
      requires |inner0| == |inner1| && first + |inner0| <= px.Length1 && Proper(src)
      requires forall k :: 0 <= k < |inner0| ==> 0 <= inner0[k] && (inner0[k] < inner1[k] ==> inner1[k] <= px.Length0)
      modifies px
      ensures forall r: nat, c: nat :: r < px.Length0 && c < px.Length1 ==>
        px[r, c] == if c >= first && CoversRow(inner0, inner1, r, c - first) then FillPixel(old(px[r, c]), src) else old(px[r, c])
    {
      hide FillPixel;
      var rows := RowsOfAny(inner0, inner1);
      if rows.None? {
        return;
      }
      var (top, bottom) := rows.value;
      for row := top to bottom
        invariant forall r: nat, c: nat :: r < px.Length0 && c < px.Length1 ==>
          px[r, c] == if c >= first && r < row && CoversRow(inner0, inner1, r, c - first)
            then FillPixel(old(px[r, c]), src) else old(px[r, c])
      {
        FillRow(row, inner0, inner1, first, src);
      }
    }

    /** Fill the region between two lines, over the places both cover. */
    method FillBand(top: seq<Point>, bottom: seq<Point>, ink: Pixel)
      requires Ascending(top) && Ascending(bottom)
      requires top != [] && bottom != [] ==> StartsInside(top, bottom, px.Length1, px.Length0)
      modifies px
      ensures forall r: nat, c: nat :: r < px.Length0 && c < px.Length1 ==>
        px[r, c] == BandPixel(old(px[r, c]), top, bottom, px.Length1, c, r, ink)
    {
      hide Whole, Blended, BandCoverage, StartsInside, Listed, FillPixel, Scaled, StartOf, EndOf, BandPixel;
      if top == [] || bottom == [] {
        NothingToDraw(top, bottom, px.Length1, ink);
        return;
      }
      var width, x0, x1 := px.Length1, StartOf(top, bottom), EndOf(top, bottom, px.Length1);
      if x1 <= x0 {
        NothingToDraw(top, bottom, width, ink);
        return;
      }
      if px.Length0 == 0 {
        return;
      }
      EndsIn(top, bottom, width);
      var first: nat, last := x0.Floor, Min(Ceil(x1), width);
      var inner0, inner1 := FillColumns(top, bottom, first, last, ink);
      ListedRows(top, bottom, first, inner0, inner1, px.Length0);
      FillRows(inner0, inner1, first, Scaled(ink, 256));
      forall c: nat, r: nat | c < width && r < px.Length0
        ensures c >= first && CoversRow(inner0, inner1, r, c - first) <==> first <= c < last && Whole(top, bottom, c, r)
      {
        ListedAt(top, bottom, first, inner0, inner1, px.Length0, c, r);
      }
      forall r: nat, c: nat | r < px.Length0 && c < px.Length1
        ensures px[r, c] == BandPixel(old(px[r, c]), top, bottom, px.Length1, c, r, ink)
      {
        BandPixelIs(old(px[r, c]), top, bottom, width, c, r, ink);
        if first <= c < last && Whole(top, bottom, c, r) {
          assert px[r, c] == FillPixel(old(px[r, c]), Scaled(ink, 256));
        } else if first <= c < last {
          assert px[r, c] == Blended(old(px[r, c]), ink, BandCoverage(top, bottom, c, r));
        } else {
          OutsideBand(top, bottom, width, c, r);
          BlendedNone(old(px[r, c]), ink);
          assert px[r, c] == old(px[r, c]);
        }
      }
    }

    /** Every pixel comes to what its distance to the whole line makes of it, though each
        column is compared only with the segments `FindWindow` leaves. */
    method StrokeGraph(pts: seq<Point>, width: real, ink: Pixel, root: real -> real)
      requires Ascending(pts)
      modifies px
      ensures forall r: nat, c: nat :: r < px.Length0 && c < px.Length1 ==>
        px[r, c] == if width <= 0.0 then old(px[r, c])
          else LinePixel(old(px[r, c]), pts, width * 0.5 + 0.5, root, c, r, ink)
    {
      hide LinePixel, Window, Encloses, Ascending;
      var n := |pts|;
      if n < 2 || px.Length0 == 0 || px.Length1 == 0 || width <= 0.0 {
        NoLine(pts, width * 0.5 + 0.5, root, ink);
        return;
      }
      var reach := width * 0.5 + 0.5;
      var c0 := Max((pts[0].x - reach).Floor, 0);
      var c1 := Min(Max(Ceil(pts[n - 1].x + reach), 0), px.Length1);
      forall r: nat, c: nat, d | c < px.Length1 && !(c0 <= c < c1)
        ensures LinePixel(d, pts, reach, root, c, r, ink) == d
      {
        OutsideLine(d, pts, reach, root, c, r, ink);
      }
      if c0 < c1 {
        var first: nat := 0;
        for col: nat := c0 to c1
          invariant first < n - 1 && forall k: nat :: 0 < k <= first ==> pts[k].x < col as real + 0.5 - reach
          invariant forall r: nat, c: nat :: r < px.Length0 && c < px.Length1 ==>
            px[r, c] == if c0 <= c < col then LinePixel(old(px[r, c]), pts, reach, root, c, r, ink) else old(px[r, c])
        {
          first := StrokeColumn(pts, col, first, reach, ink, root);
        }
      }
    }

    /** One column of a line. */
    method StrokeColumn(pts: seq<Point>, col: nat, from: nat, reach: real, ink: Pixel, root: real -> real) returns (first: nat)
      requires |pts| >= 2 && Ascending(pts) && col < px.Length1 && reach > 0.0
      requires from < |pts| - 1 && forall k: nat :: 0 < k <= from ==> pts[k].x < col as real + 0.5 - reach
      modifies px
      ensures first < |pts| - 1 && forall k: nat :: 0 < k <= first ==> pts[k].x < col as real + 0.5 - reach
      ensures forall r: nat, c: nat :: r < px.Length0 && c < px.Length1 ==>
        px[r, c] == if c == col then LinePixel(old(px[r, c]), pts, reach, root, c, r, ink) else old(px[r, c])
    {
      hide LinePixel, Ascending, Nearest2, Window, Encloses;
      var last, lo, hi;
      first, last, lo, hi := FindWindow(pts, from, col as real + 0.5 - reach, col as real + 0.5 + reach);
      forall r: nat, d | r < px.Length0
        ensures LinePixel(d, pts, reach, root, col, r, ink) == WindowPixel(d, pts, first, last, reach, root, col, r, ink)
      {
        WindowPixelIs(d, pts, first, last, reach, root, col, r, ink);
      }
      if last > first {
        var r0 := Max((lo - reach).Floor, 0);
        var r1 := Min(Max(Ceil(hi + reach), 0), px.Length0);
        forall r: nat, d | r < px.Length0 && !(r0 <= r < r1)
          ensures WindowPixel(d, pts, first, last, reach, root, col, r, ink) == d
        {
          OutsideWindowRows(d, pts, first, last, lo, hi, reach, root, col, r, ink);
        }
        if r0 < r1 {
          StrokeRows(pts, col, first, last, r0, r1, reach, ink, root);
        }
      } else {
        forall r: nat, d | r < px.Length0
          ensures WindowPixel(d, pts, first, last, reach, root, col, r, ink) == d
        {
          EmptyWindow(d, pts, first, last, reach, root, col, r, ink);
        }
      }
    }

    /** A run of rows of one column: the squared distance of each to the nearest of the
        segments, and then the blending. */
    method StrokeRows(
      pts: seq<Point>, col: nat, first: nat, last: nat, r0: nat, r1: nat, reach: real, ink: Pixel, root: real -> real)
      requires first <= last < |pts| && col < px.Length1 && r0 <= r1 <= px.Length0
      modifies px
      ensures forall r: nat, c: nat :: r < px.Length0 && c < px.Length1 ==>
        px[r, c] == if c == col && r0 <= r < r1
          then WindowPixel(old(px[r, c]), pts, first, last, reach, root, c, r, ink) else old(px[r, c])
    {
      hide Nearest2, Blended;
      var d2 := Distances(pts, col, first, last, r0, r1);
      for k := r0 to r1
        invariant forall r: nat, c: nat :: r < px.Length0 && c < px.Length1 ==>
          px[r, c] == if c == col && r0 <= r < k
            then WindowPixel(old(px[r, c]), pts, first, last, reach, root, c, r, ink) else old(px[r, c])
      {
        var d := d2[k - r0];
        if InReachOf(d, reach) {
          Blend(col, k, ink, reach - root(d.value));
        }
      }
    }
  }

  /** A range of segments with all those not wholly left or right of the column, and the
      range of their heights. */
  method FindWindow(pts: seq<Point>, from: nat, left: real, right: real)
    returns (first: nat, last: nat, lo: real, hi: real)
    requires |pts| >= 2 && Ascending(pts) && from < |pts| - 1 && forall k: nat :: 0 < k <= from ==> pts[k].x < left
    ensures first < |pts| - 1 && forall k: nat :: 0 < k <= first ==> pts[k].x < left
    ensures Window(pts, first, last, left, right) && Encloses(pts, first, last, lo, hi)
  {
    first := from;
    while first + 1 < |pts| - 1 && pts[first + 1].x < left
      invariant first < |pts| - 1 && forall k: nat :: 0 < k <= first ==> pts[k].x < left
      decreases |pts| - first
    {
      first := first + 1;
    }
    last, lo, hi := first, pts[first].y, pts[first].y;
    while last < |pts| - 1 && pts[last].x <= right
      invariant first <= last <= |pts| - 1
      invariant forall k :: first <= k <= last && first < last ==> lo <= pts[k].y <= hi
      invariant first == last ==> lo == hi == pts[first].y
      decreases |pts| - last
    {
      var a, b := pts[last], pts[last + 1];
      lo := MinR(lo, MinR(a.y, b.y));
      hi := MaxR(hi, MaxR(a.y, b.y));
      last := last + 1;
    }
  }

  /** For each row, the least squared distance to any segment of the window. */
  method Distances(pts: seq<Point>, col: nat, first: nat, last: nat, r0: nat, r1: nat) returns (d2: seq<Option<real>>)
    requires first <= last < |pts| && r0 <= r1
    ensures |d2| == r1 - r0
    ensures forall k :: 0 <= k < |d2| ==> d2[k] == Nearest2(pts, first, last, Center(col, r0 + k))
  {
    hide Distance2;
    d2 := seq(r1 - r0, k => None);
    for s := first to last
      invariant |d2| == r1 - r0
      invariant forall k :: 0 <= k < |d2| ==> d2[k] == Nearest2(pts, first, s, Center(col, r0 + k))
    {
      ghost var was := d2;
      for k := 0 to |d2|
        invariant |d2| == |was|
        invariant forall j :: 0 <= j < k ==> d2[j] == Nearest2(pts, first, s + 1, Center(col, r0 + j))
        invariant forall j :: k <= j < |d2| ==> d2[j] == was[j]
      {
        d2 := d2[k := Nearer(d2[k], Some(Distance2(pts[s], pts[s + 1], Center(col, r0 + k))))];
      }
    }
  }

  /** What drawing only the segments of a window makes of a pixel. */
  function WindowPixel(
    d: Pixel, pts: seq<Point>, first: nat, last: nat, reach: real, root: real -> real, col: int, row: int, ink: Pixel): Pixel
    requires first <= last < |pts|
  {
    var nearest := Nearest2(pts, first, last, Center(col, row));
    if InReachOf(nearest, reach) then Blended(d, ink, reach - root(nearest.value)) else d
  }

  lemma WindowPixelIs(
    d: Pixel, pts: seq<Point>, first: nat, last: nat, reach: real, root: real -> real, col: int, row: int, ink: Pixel)
    requires |pts| >= 2 && Ascending(pts) && reach > 0.0
    requires Window(pts, first, last, col as real + 0.5 - reach, col as real + 0.5 + reach)
    ensures LinePixel(d, pts, reach, root, col, row, ink) == WindowPixel(d, pts, first, last, reach, root, col, row, ink)
  {
    hide Blended, Nearest2, OutOfReach;
    OutsideWindow(pts, first, last, Center(col, row), reach);
    WindowIsEnough(pts, first, last, Center(col, row), reach);
  }

  lemma OutsideWindowRows(
    d: Pixel, pts: seq<Point>, first: nat, last: nat, lo: real, hi: real, reach: real, root: real -> real, col: int,
    row: nat, ink: Pixel)
    requires Ascending(pts) && first <= last < |pts| && reach > 0.0 && Encloses(pts, first, last, lo, hi)
    requires row < Max((lo - reach).Floor, 0) || row >= Max(Ceil(hi + reach), 0)
    ensures WindowPixel(d, pts, first, last, reach, root, col, row, ink) == d
  {
    hide Blended, Nearest2, OutOfReach, Encloses, Ascending;
    OutsideRows(pts, first, last, lo, hi, Center(col, row), reach);
    NearestFar(pts, first, last, Center(col, row), reach);
  }

  lemma EmptyWindow(
    d: Pixel, pts: seq<Point>, first: nat, last: nat, reach: real, root: real -> real, col: int, row: int, ink: Pixel)
    requires first == last < |pts|
    ensures WindowPixel(d, pts, first, last, reach, root, col, row, ink) == d
  {
  }

  lemma OutsideLine(d: Pixel, pts: seq<Point>, reach: real, root: real -> real, c: nat, r: int, ink: Pixel)
    requires |pts| >= 2 && Ascending(pts) && reach > 0.0
    requires c < Max((pts[0].x - reach).Floor, 0) || c >= Max(Ceil(pts[|pts| - 1].x + reach), 0)
    ensures LinePixel(d, pts, reach, root, c, r, ink) == d
  {
    hide Blended, Nearest2, OutOfReach, Ascending;
    OutsideColumns(pts, Center(c, r), reach);
    NearestFar(pts, 0, |pts| - 1, Center(c, r), reach);
  }

  lemma NoLine(pts: seq<Point>, reach: real, root: real -> real, ink: Pixel)
    ensures |pts| < 2 ==> forall d, c: nat, r: nat :: LinePixel(d, pts, reach, root, c, r, ink) == d
  {
  }

  /** For each column, the rows it covers whole. */
  ghost predicate Listed(top: seq<Point>, bottom: seq<Point>, first: nat, inner0: seq<int>, inner1: seq<int>, height: nat)
    requires top != [] && bottom != []
  {
    && |inner0| == |inner1|
    && (forall c: nat, r: nat :: first <= c < first + |inner0| && r < height ==>
      (Whole(top, bottom, c, r) <==> CoversRow(inner0, inner1, r, c - first)))
    && (forall k :: 0 <= k < |inner0| ==> 0 <= inner0[k] && (inner0[k] < inner1[k] ==> inner1[k] <= height))
  }

  /** The first row some column covers whole, and where the last such ends. */
  method RowsOfAny(inner0: seq<int>, inner1: seq<int>) returns (rows: Option<(nat, nat)>)
    requires |inner0| == |inner1| && forall k :: 0 <= k < |inner0| ==> 0 <= inner0[k]
    ensures rows.None? ==> forall k :: 0 <= k < |inner0| ==> inner0[k] >= inner1[k]
    ensures rows.Some? ==> rows.value.0 < rows.value.1
    ensures rows.Some? ==> forall k :: 0 <= k < |inner0| && inner0[k] < inner1[k] ==> rows.value.0 <= inner0[k] && inner1[k] <= rows.value.1
    ensures rows.Some? ==> exists k :: 0 <= k < |inner0| && inner0[k] < inner1[k] == rows.value.1
  {
    rows := None;
    for i := 0 to |inner0|
      invariant rows.None? ==> forall k :: 0 <= k < i ==> inner0[k] >= inner1[k]
      invariant rows.Some? ==> rows.value.0 < rows.value.1
      invariant rows.Some? ==> forall k :: 0 <= k < i && inner0[k] < inner1[k] ==> rows.value.0 <= inner0[k] && inner1[k] <= rows.value.1
      invariant rows.Some? ==> exists k :: 0 <= k < i && inner0[k] < inner1[k] == rows.value.1
    {
      if inner1[i] > inner0[i] {
        ghost var was := rows;
        rows := Some(if rows.None? then (inner0[i], inner1[i]) else (Min(rows.value.0, inner0[i]), Max(rows.value.1, inner1[i])));
        if was.Some? && was.value.1 >= inner1[i] {
          var k :| 0 <= k < i && inner0[k] < inner1[k] == was.value.1;
          assert inner0[k] < inner1[k] == rows.value.1;
        } else {
          assert inner0[i] < inner1[i] == rows.value.1;
        }
      }
    }
  }

  /** Within the raster, a band starts in its columns. */
  lemma EndsIn(top: seq<Point>, bottom: seq<Point>, width: nat)
    requires top != [] && bottom != [] && StartOf(top, bottom) < EndOf(top, bottom, width)
    ensures 0 <= StartOf(top, bottom).Floor <= Min(Ceil(EndOf(top, bottom, width)), width)
  {
  }

  lemma ListedRows(top: seq<Point>, bottom: seq<Point>, first: nat, inner0: seq<int>, inner1: seq<int>, height: nat)
    requires top != [] && bottom != [] && Listed(top, bottom, first, inner0, inner1, height)
    ensures |inner0| == |inner1|
    ensures forall k :: 0 <= k < |inner0| ==> 0 <= inner0[k] && (inner0[k] < inner1[k] ==> inner1[k] <= height)
    ensures forall c: nat, r: nat :: first <= c < first + |inner0| && r < height ==>
      (Whole(top, bottom, c, r) <==> CoversRow(inner0, inner1, r, c - first))
  {
    hide Whole;
  }

  lemma ListedAt(
    top: seq<Point>, bottom: seq<Point>, first: nat, inner0: seq<int>, inner1: seq<int>, height: nat, c: nat, r: nat)
    requires top != [] && bottom != [] && Listed(top, bottom, first, inner0, inner1, height) && r < height
    ensures c >= first && CoversRow(inner0, inner1, r, c - first) <==>
      first <= c < first + |inner0| && Whole(top, bottom, c, r)
  {
    hide Whole;
  }

  /** A column left or right of the band has no sample in it. */
  lemma OutsideBand(top: seq<Point>, bottom: seq<Point>, width: nat, c: nat, r: int)
    requires top != [] && bottom != [] && c < width
    requires c < StartOf(top, bottom).Floor || c >= Min(Ceil(EndOf(top, bottom, width)), width)
    ensures !Whole(top, bottom, c, r) && BandCoverage(top, bottom, c, r) == 0.0
  {
    hide LineAt, Spanned;
    forall k: nat | k < SAMPLES
      ensures !InBand(top, bottom, Place(c, k))
    {
    }
    assert !InBand(top, bottom, Place(c, 0));
  }

  lemma ListedNone(top: seq<Point>, bottom: seq<Point>, first: nat, height: nat)
    requires top != [] && bottom != []
    ensures Listed(top, bottom, first, [], [], height)
  {
  }

  lemma ListedNext(
    top: seq<Point>, bottom: seq<Point>, first: nat, inner0: seq<int>, inner1: seq<int>, height: nat, col: nat,
    ss: seq<Sample>, in0: nat, in1: nat)
    requires top != [] && bottom != [] && Listed(top, bottom, first, inner0, inner1, height) && col == first + |inner0|
    requires forall r: nat :: r < height ==> (WholeRow(ss, r) <==> Whole(top, bottom, col, r))
    requires forall r: nat :: r < height ==> (in0 <= r < in1 <==> WholeRow(ss, r))
    requires in0 < in1 ==> in1 <= height
    ensures Listed(top, bottom, first, inner0 + [in0], inner1 + [in1], height)
  {
    hide Whole, WholeRow;
  }

  /** Which columns a run says cover the row. */
  lemma RunCovers(bits: seq<nat>, inner0: seq<int>, inner1: seq<int>, row: int, from: nat, run: Option<(nat, nat)>, on: nat)
    requires |inner0| == |inner1| && from <= |inner0| <= |bits| * WORD
    requires forall j: nat :: j / WORD < |bits| ==> (BitAt(bits, j) <==> CoversRow(inner0, inner1, row, j))
    requires run.None? ==> on == |inner0| && AllSet(bits, from, on, false)
    requires run.Some? ==> from <= run.value.0 && on == run.value.0 + run.value.1 <= |inner0|
    requires run.Some? ==> AllSet(bits, from, run.value.0, false) && AllSet(bits, run.value.0, on, true)
    ensures forall c: nat :: from <= c < on ==>
      (CoversRow(inner0, inner1, row, c) <==> run.Some? && run.value.0 <= c)
  {
    hide BitAt;
  }

  /** A column's four samples, read along both lines. */
  method ReadColumn(top: seq<Point>, bottom: seq<Point>, col: nat, ti: nat, bi: nat)
    returns (ss: seq<Sample>, t: nat, b: nat)
    requires top != [] && bottom != [] && Ascending(top) && Ascending(bottom)
    requires ti < |top| && (ti > 0 ==> top[ti].x < Place(col, 0))
    requires bi < |bottom| && (bi > 0 ==> bottom[bi].x < Place(col, 0))
    ensures Samples(top, bottom, col, ss)
    ensures t < |top| && (t > 0 ==> top[t].x < Place(col + 1, 0))
    ensures b < |bottom| && (b > 0 ==> bottom[b].x < Place(col + 1, 0))
  {
    hide InBand, LineAt;
    ss, t, b := [], ti, bi;
    for k := 0 to SAMPLES
      invariant |ss| == k && t < |top| && b < |bottom|
      invariant (t > 0 ==> top[t].x < Place(col, k)) && (b > 0 ==> bottom[b].x < Place(col, k))
      invariant forall j :: 0 <= j < k ==>
        ss[j] == Sample(InBand(top, bottom, Place(col, j)), LineAt(top, Place(col, j)), LineAt(bottom, Place(col, j)))
    {
      var x := Place(col, k);
      var y, z;
      y, t := ReadLine(top, t, x);
      z, b := ReadLine(bottom, b, x);
      ss := ss + [Sample(InBand(top, bottom, x), y, z)];
    }
  }

  lemma RowsBound(ss: seq<Sample>, h: Heights, height: nat)
    requires HasWhole(ss, h) ==> FirstRow(h) <= LastRow(h, height)
    ensures var r := RowsOf(ss, h, height); r.r1 <= height && r.in0 <= r.in1 <= r.r1
    ensures var r := RowsOf(ss, h, height); r.r0 <= r.r1 ==> r.r0 <= r.in0
    ensures var r := RowsOf(ss, h, height); r.r0 > r.r1 ==> r.in0 == r.in1 == r.r1
  {
    hide Ceil;
  }
}
