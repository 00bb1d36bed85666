/** Cutting a chart's shape into pieces. */
module ChartPieces {
  import opened Basics
  import opened Geometry
  import opened ChartLines
  import opened ChartCoverage
  import opened ChartShapes

  /** The width of a full piece, in pixels. */
  const PIECE_W: nat := 8
  /** Slack on a piece's rows. */
  const ROW_SLACK: real := 0.01

  /** The sides of a rectangle of pixels. */
  datatype Box = Box(x0: real, y0: real, x1: real, y1: real) {
    predicate Holds(p: Point) {
      x0 <= p.x < x1 && y0 <= p.y < y1
    }
  }

  /** A band between two lines, or a line of some width, and the pixels it can touch. */
  datatype Shape = Shape(band: bool, top: seq<Point>, bottom: seq<Point>, width: real, bounds: Box)

  /** Some whole columns of a shape, and the rows it can touch in them; for each of its
      lines where the searches of its pixels can end up; and for a band where its samples
      are, worked out once a column. */
  datatype Piece = Piece(rect: Box, shape: nat, a: (nat, nat), b: (nat, nat), columns: Option<nat>, column: nat)

  /** The heights read in one column of a band, one pair a sample. */
  datatype Column = Column(tops: seq<real>, bottoms: seq<real>)

  /** Points ascending in x, as a drawn line has them, steps clear of gaps. */
  predicate Drawable(pts: seq<Point>) {
    && Ascending(pts)
    && forall i, j :: 0 <= i < |pts| && j == i + 1 < |pts| ==> pts[j].x == pts[i].x || pts[j].x - pts[i].x > EPSILON
  }

  /** The greatest distance at which a pixel still gets ink; a band's is only ever inside. */
  function Reach(it: Shape): real {
    if it.band then 0.0 else it.width * 0.5 + 0.5
  }

  predicate Formed(it: Shape) {
    && 0.0 <= it.bounds.x0 && 0.0 <= it.bounds.y0
    && Drawable(it.top) && Drawable(it.bottom) && it.width >= 0.0
  }

  /** Whether there is anything to draw. */
  predicate Drawn(it: Shape) {
    && it.bounds.x0 < it.bounds.x1 && it.bounds.y0 < it.bounds.y1
    && it.top != [] && (it.band ==> it.bottom != [])
  }

  /** Whether the shape gives a pixel any coverage. */
  predicate Covers(it: Shape, col: int, row: int)
    requires it.top != [] && (it.band ==> it.bottom != [])
  {
    if it.band then BandCoverage(it.top, it.bottom, col, row) > 0.0
    else
      var d := Nearest2(it.top, 0, |it.top| - 1, Center(col, row));
      d.Some? && d.value < Reach(it) * Reach(it)
  }

  // What a strip of columns holds

  /** Where a segment is within reach of the strip, it is no higher or lower than the
      line there. */
  lemma SegmentInside(pts: seq<Point>, j: nat, t: real, left: real, right: real, lo: real, hi: real)
    requires Drawable(pts) && j + 1 < |pts| && 0.0 <= t <= 1.0 && Bounded(pts, left, right, lo, hi)
    requires left <= Across(pts[j], pts[j + 1], t) <= right
    ensures lo <= Height(pts[j], pts[j + 1], t) <= hi
  {
    hide Height, Across, Share, LineAt;
    var a, b := pts[j], pts[j + 1];
    var x := Across(a, b, t);
    OnSegment(a, b, t);
    if x == a.x && b.x > a.x {
      NoShare(a, b, t);
      Heights(a, b);
    } else if b.x > a.x {
      Bracketed(pts, left, right, lo, hi, x);
      LineOn(pts, j, x);
      ShareOf(a, b, t);
    }
  }

  lemma NoShare(a: Point, b: Point, t: real)
    requires b.x > a.x && Across(a, b, t) == a.x
    ensures t == 0.0
  {
    var d := b.x - a.x;
    assert d > 0.0 && t * d == 0.0;
  }

  /** Past a point, and no further than the next, the line is on the segment between. */
  lemma LineOn(pts: seq<Point>, j: nat, x: real)
    requires Drawable(pts) && j + 1 < |pts| && pts[j].x < x <= pts[j + 1].x
    ensures LineAt(pts, x) == Height(pts[j], pts[j + 1], Share(pts[j], pts[j + 1], x))
  {
    hide Height, Share;
    LowerBoundIs(pts, x, j + 1);
  }

  lemma ShareOf(a: Point, b: Point, t: real)
    requires b.x - a.x > 0.0 && 0.0 <= t <= 1.0
    ensures Share(a, b, Across(a, b, t)) == t
  {
    var d := b.x - a.x;
    QuotientOf(t, d);
    assert Across(a, b, t) - a.x == t * d;
  }

  lemma QuotientOf(t: real, d: real)
    requires d > 0.0
    ensures t * d / d == t
  {
  }

  /** A segment within reach of a pixel of the strip goes as far as the pixel's row. */
  lemma {:induction false} NearestInside(pts: seq<Point>, last: nat, p: Point, reach: real, left: real, right: real, lo: real, hi: real)
    requires Drawable(pts) && last < |pts| && reach > 0.0 && Bounded(pts, left, right, lo, hi)
    requires left <= p.x - reach && p.x + reach <= right
    requires Nearest2(pts, 0, last, p).Some? && Nearest2(pts, 0, last, p).value < reach * reach
    ensures lo - reach < p.y < hi + reach
    decreases last
  {
    hide Distance2, Height, Across, Bounded;
    var a, b := pts[last - 1], pts[last];
    if Distance2(a, b, p) < reach * reach {
      var t := InReach(a, b, p, reach);
      SegmentInside(pts, last - 1, t, left, right, lo, hi);
    } else {
      NearestInside(pts, last - 1, p, reach, left, right, lo, hi);
    }
  }

  /** A band that covers any of a pixel goes as far as the pixel's row, at a sample. */
  lemma BandInside(top: seq<Point>, bottom: seq<Point>, col: int, row: int, left: real, right: real, lo: real, hi: real)
    requires top != [] && bottom != [] && Drawable(top) && Drawable(bottom)
    requires Bounded(top, left, right, lo, hi) && Bounded(bottom, left, right, lo, hi)
    requires left <= col as real && col as real + 1.0 <= right
    requires BandCoverage(top, bottom, col, row) > 0.0
    ensures lo < row as real + 1.0 && row as real < hi
  {
    hide Overlap;
    var k: nat :| k < 4 && Overlap(top, bottom, Place(col, k), row) > 0.0;
    SampleInside(top, bottom, col, k, row, left, right, lo, hi);
  }

  lemma SampleInside(
    top: seq<Point>, bottom: seq<Point>, col: int, k: nat, row: int, left: real, right: real, lo: real, hi: real)
    requires top != [] && bottom != [] && Drawable(top) && Drawable(bottom) && k < 4
    requires Bounded(top, left, right, lo, hi) && Bounded(bottom, left, right, lo, hi)
    requires left <= col as real && col as real + 1.0 <= right
    requires Overlap(top, bottom, Place(col, k), row) > 0.0
    ensures lo < row as real + 1.0 && row as real < hi
  {
    hide LineAt;
    Bracketed(top, left, right, lo, hi, Place(col, k));
    Bracketed(bottom, left, right, lo, hi, Place(col, k));
  }

  lemma RowsHold(lo: real, hi: real, row: int)
    requires lo < row as real + 1.0 && row as real < hi
    ensures lo.Floor <= row && row + 1 <= Ceil(hi)
  {
  }

  // A band's samples

  function SampleOf(pts: seq<Point>, it: Shape, col: int, k: nat): real
    requires pts != [] && it.top != [] && it.bottom != []
  {
    if InBand(it.top, it.bottom, Place(col, k)) then LineAt(pts, Place(col, k)) else 0.0
  }

  function ColumnOf(it: Shape, col: int): Column
    requires it.top != [] && it.bottom != []
  {
    Column(seq(SAMPLES, k requires 0 <= k < SAMPLES => SampleOf(it.top, it, col, k)),
           seq(SAMPLES, k requires 0 <= k < SAMPLES => SampleOf(it.bottom, it, col, k)))
  }

  /** A walk that has not gone past a place. */
  predicate Upto(w: Walk, pts: seq<Point>, x: real)
    reads w
  {
    w.Valid() && w.pts == pts && w.i <= LowerBound(pts, x)
  }

  method SampleColumn(it: Shape, col: int, a: Walk, b: Walk) returns (c: Column)
    requires it.top != [] && it.bottom != [] && a != b
    requires Upto(a, it.top, Place(col, 0)) && Upto(b, it.bottom, Place(col, 0))
    modifies a, b
    ensures Upto(a, it.top, Place(col + 1, 0)) && Upto(b, it.bottom, Place(col + 1, 0))
    ensures c == ColumnOf(it, col)
  {
    hide LowerBound, LineAt, InBand;
    var tops, bottoms: seq<real> := [], [];
    for k := 0 to SAMPLES
      invariant Upto(a, it.top, Place(col, k)) && Upto(b, it.bottom, Place(col, k))
      invariant tops == ColumnOf(it, col).tops[..k] && bottoms == ColumnOf(it, col).bottoms[..k]
    {
      var t, u := 0.0, 0.0;
      var xs := Place(col, k);
      if InBand(it.top, it.bottom, xs) {
        t := a.At(xs);
        u := b.At(xs);
      }
      LowerBoundMonotone(it.top, xs, Place(col, k + 1));
      LowerBoundMonotone(it.bottom, xs, Place(col, k + 1));
      tops, bottoms := tops + [t], bottoms + [u];
    }
    LowerBoundMonotone(it.top, Place(col, SAMPLES), Place(col + 1, 0));
    LowerBoundMonotone(it.bottom, Place(col, SAMPLES), Place(col + 1, 0));
    c := Column(tops, bottoms);
  }

  /** The samples of some columns, in order. */
  ghost predicate Sampled(it: Shape, columns: seq<Column>, at: nat, c0: int, c1: int) {
    && it.top != [] && it.bottom != [] && c0 <= c1 && at + (c1 - c0) <= |columns|
    && forall col :: c0 <= col < c1 ==> columns[at + (col - c0)] == ColumnOf(it, col)
  }

  method SampleColumns(it: Shape, c0: int, c1: int, a: Walk, b: Walk, had: seq<Column>) returns (columns: seq<Column>)
    requires it.top != [] && it.bottom != [] && a != b && c0 <= c1
    requires Upto(a, it.top, Place(c0, 0)) && Upto(b, it.bottom, Place(c0, 0))
    modifies a, b
    ensures Upto(a, it.top, Place(c1, 0)) && Upto(b, it.bottom, Place(c1, 0))
    ensures had <= columns && Sampled(it, columns, |had|, c0, c1)
  {
    hide ColumnOf, LowerBound;
    columns := had;
    for col := c0 to c1
      invariant Upto(a, it.top, Place(col, 0)) && Upto(b, it.bottom, Place(col, 0))
      invariant had <= columns && |columns| == |had| + (col - c0) && Sampled(it, columns, |had|, c0, col)
    {
      var c := SampleColumn(it, col, a, b);
      columns := columns + [c];
    }
  }

  // One piece

  /** Where the columns of a strip end. */
  function EndOf(it: Shape, c0: int): int {
    Min(c0 + PIECE_W, Ceil(it.bounds.x1))
  }

  /** `range` holds every answer a search of the line from `left` to `right` can give. */
  ghost predicate Searched(pts: seq<Point>, left: real, right: real, range: (nat, nat)) {
    forall x :: left <= x <= right ==> range.0 <= LowerBound(pts, x) <= range.1
  }

  lemma SearchedIs(pts: seq<Point>, left: real, right: real)
    ensures Searched(pts, left, right, (LowerBound(pts, left), LowerBound(pts, right)))
  {
    hide LowerBound;
    forall x | left <= x <= right
      ensures LowerBound(pts, left) <= LowerBound(pts, x) <= LowerBound(pts, right)
    {
      LowerBoundMonotone(pts, left, x);
      LowerBoundMonotone(pts, x, right);
    }
  }

  /** What a piece is of its shape. */
  ghost predicate PieceOf(it: Shape, index: nat, p: Piece, columns: seq<Column>) {
    var c0, c1 := p.column, EndOf(it, p.column);
    && p.shape == index && c0 < c1
    && p.rect.x0 == MaxR(c0 as real, it.bounds.x0) && p.rect.x1 == MinR(c1 as real, it.bounds.x1)
    && it.bounds.y0 <= p.rect.y0 < p.rect.y1 <= it.bounds.y1
    && Searched(it.top, c0 as real - Reach(it), c1 as real + Reach(it), p.a)
    && (it.band ==> Searched(it.bottom, c0 as real - Reach(it), c1 as real + Reach(it), p.b))
    && (it.band <==> p.columns.Some?)
    && (it.band ==> Sampled(it, columns, p.columns.value, c0, c1))
  }

  /** Every pixel of the strip that the shape covers any of is between these rows. */
  ghost predicate RowsOf(it: Shape, c0: int, c1: int, lo: real, hi: real)
    requires it.top != [] && (it.band ==> it.bottom != [])
  {
    forall col, row :: c0 <= col < c1 && Covers(it, col, row) ==>
      lo - Reach(it) < row as real + 1.0 && row as real < hi + Reach(it)
  }

  lemma BoundedWider(pts: seq<Point>, left: real, right: real, lo: real, hi: real, lo': real, hi': real)
    requires pts != [] && Bounded(pts, left, right, lo, hi) && lo' <= lo && hi <= hi'
    ensures Bounded(pts, left, right, lo', hi')
  {
    hide LineAt;
  }

  lemma RowsAreOf(it: Shape, c0: int, c1: int, lo: real, hi: real)
    requires Formed(it) && it.top != [] && (it.band ==> it.bottom != [])
    requires Bounded(it.top, c0 as real - Reach(it), c1 as real + Reach(it), lo, hi)
    requires it.band ==> Bounded(it.bottom, c0 as real - Reach(it), c1 as real + Reach(it), lo, hi)
    ensures RowsOf(it, c0, c1, lo, hi)
  {
    hide Bounded, Nearest2, BandCoverage;
    var left, right := c0 as real - Reach(it), c1 as real + Reach(it);
    forall col, row | c0 <= col < c1 && Covers(it, col, row)
      ensures lo - Reach(it) < row as real + 1.0 && row as real < hi + Reach(it)
    {
      if it.band {
        BandInside(it.top, it.bottom, col, row, left, right, lo, hi);
      } else {
        NearestInside(it.top, |it.top| - 1, Center(col, row), Reach(it), left, right, lo, hi);
      }
    }
  }

  /** So their centers are too, once the rows are rounded out. */
  lemma CenterInRows(it: Shape, c0: int, c1: int, lo: real, hi: real, col: int, row: int)
    requires it.top != [] && (it.band ==> it.bottom != [])
    requires RowsOf(it, c0, c1, lo, hi) && c0 <= col < c1 && Covers(it, col, row)
    ensures (lo - Reach(it) - ROW_SLACK).Floor as real <= Center(col, row).y < Ceil(hi + Reach(it) + ROW_SLACK) as real
  {
    hide Covers;
    RowsHold(lo - Reach(it) - ROW_SLACK, hi + Reach(it) + ROW_SLACK, row);
  }

  /** The cursors `Pieces` moves from left to right: over the first line, over the second,
      and over each of them again for what single columns read. */
  class Walks {
    const alongA: Walk
    const alongB: Walk
    const walkA: Walk
    const walkB: Walk

    constructor (it: Shape)
      ensures fresh(alongA) && fresh(alongB) && fresh(walkA) && fresh(walkB) && Apart()
      ensures alongA.i == alongB.i == walkA.i == walkB.i == 0
      ensures alongA.pts == walkA.pts == it.top && alongB.pts == walkB.pts == it.bottom
    {
      alongA := new Walk(it.top);
      alongB := new Walk(it.bottom);
      walkA := new Walk(it.top);
      walkB := new Walk(it.bottom);
    }

    predicate Apart() {
      alongA != alongB && alongA != walkA && alongA != walkB && alongB != walkA && alongB != walkB && walkA != walkB
    }

    /** None has gone past what the columns from `c0` on are to ask for. */
    predicate Ready(it: Shape, c0: int, reach: real)
      reads alongA, alongB, walkA, walkB
    {
      && Upto(alongA, it.top, c0 as real - reach) && Upto(alongB, it.bottom, c0 as real - reach)
      && Upto(walkA, it.top, Place(c0, 0)) && Upto(walkB, it.bottom, Place(c0, 0))
    }
  }

  /** How high and low a shape goes over some columns, and where its searches end up. */
  method Extent(it: Shape, c0: int, c1: int, alongA: Walk, alongB: Walk)
    returns (lo: real, hi: real, a: (nat, nat), b: (nat, nat))
    requires Formed(it) && Drawn(it) && alongA != alongB && c0 < c1
    requires Upto(alongA, it.top, c0 as real - Reach(it)) && Upto(alongB, it.bottom, c0 as real - Reach(it))
    modifies alongA, alongB
    ensures Upto(alongA, it.top, c1 as real - Reach(it)) && Upto(alongB, it.bottom, c1 as real - Reach(it))
    ensures RowsOf(it, c0, c1, lo, hi)
    ensures Searched(it.top, c0 as real - Reach(it), c1 as real + Reach(it), a)
    ensures it.band ==> Searched(it.bottom, c0 as real - Reach(it), c1 as real + Reach(it), b)
  {
    hide LowerBound, LineAt, Bounded, Touched, RowsOf, Searched;
    // `left` to `right` has all the places the heights of these columns are taken at:
    // with a reach of zero, just the columns themselves.
    var left, right := c0 as real - Reach(it), c1 as real + Reach(it);
    var first, last;
    lo, hi, first, last := alongA.Span(left, right);
    a, b := (first, last), (0, 0);
    SearchedIs(it.top, left, right);
    LowerBoundMonotone(it.top, left, c1 as real - Reach(it));
    LowerBoundMonotone(it.bottom, left, c1 as real - Reach(it));
    if it.band {
      var low, high;
      low, high, first, last := alongB.Span(left, right);
      b := (first, last);
      SearchedIs(it.bottom, left, right);
      BoundedWider(it.top, left, right, lo, hi, MinR(lo, low), MaxR(hi, high));
      BoundedWider(it.bottom, left, right, low, high, MinR(lo, low), MaxR(hi, high));
      lo, hi := MinR(lo, low), MaxR(hi, high);
    }
    RowsAreOf(it, c0, c1, lo, hi);
  }

  /** Every pixel of the strip's columns within the bounds that the shape covers any of
      is in the piece. */
  ghost predicate StripHeld(it: Shape, c0: int, c1: int, p: Option<Piece>)
    requires it.top != [] && (it.band ==> it.bottom != [])
  {
    forall col, row :: c0 <= col < c1 && it.bounds.Holds(Center(col, row)) && Covers(it, col, row) ==>
      p.Some? && p.value.rect.Holds(Center(col, row))
  }

  lemma StripIsHeld(it: Shape, c0: int, c1: int, lo: real, hi: real, y0: real, y1: real, p: Option<Piece>)
    requires it.top != [] && (it.band ==> it.bottom != []) && RowsOf(it, c0, c1, lo, hi)
    requires y0 == MaxR((lo - Reach(it) - ROW_SLACK).Floor as real, it.bounds.y0)
    requires y1 == MinR(Ceil(hi + Reach(it) + ROW_SLACK) as real, it.bounds.y1)
    requires y1 > y0 <==> p.Some?
    requires p.Some? ==> p.value.rect == Box(MaxR(c0 as real, it.bounds.x0), y0, MinR(c1 as real, it.bounds.x1), y1)
    ensures StripHeld(it, c0, c1, p)
  {
    hide RowsOf, Covers;
    forall col, row | c0 <= col < c1 && it.bounds.Holds(Center(col, row)) && Covers(it, col, row)
      ensures p.Some? && p.value.rect.Holds(Center(col, row))
    {
      CenterInRows(it, c0, c1, lo, hi, col, row);
    }
  }

  method Strip(it: Shape, index: nat, c0: nat, w: Walks, had: seq<Column>) returns (p: Option<Piece>, columns: seq<Column>)
    requires Formed(it) && Drawn(it) && w.Apart() && w.Ready(it, c0, Reach(it)) && c0 < Ceil(it.bounds.x1)
    modifies w.alongA, w.alongB, w.walkA, w.walkB
    ensures w.Ready(it, EndOf(it, c0), Reach(it)) && had <= columns
    ensures p.Some? ==> p.value.column == c0 && PieceOf(it, index, p.value, columns)
    ensures StripHeld(it, c0, EndOf(it, c0), p)
  {
    hide LowerBound, RowsOf, Searched, Sampled, Covers, StripHeld, Drawable;
    var c1 := EndOf(it, c0);
    var lo, hi, a, b := Extent(it, c0, c1, w.alongA, w.alongB);
    var y0 := MaxR((lo - Reach(it) - ROW_SLACK).Floor as real, it.bounds.y0);
    var y1 := MinR(Ceil(hi + Reach(it) + ROW_SLACK) as real, it.bounds.y1);
    p, columns := None, had;
    LowerBoundMonotone(it.top, Place(c0, 0), Place(c1, 0));
    LowerBoundMonotone(it.bottom, Place(c0, 0), Place(c1, 0));
    if y1 > y0 {
      if it.band {
        columns := SampleColumns(it, c0, c1, w.walkA, w.walkB, had);
      }
      p := Some(Piece(Box(MaxR(c0 as real, it.bounds.x0), y0, MinR(c1 as real, it.bounds.x1), y1), index, a, b,
                      if it.band then Some(|had|) else None, c0));
    }
    StripIsHeld(it, c0, c1, lo, hi, y0, y1, p);
  }

  // All the pieces

  /** Pieces of a shape, each further right than those before. */
  ghost predicate PiecesOf(it: Shape, index: nat, out: seq<Piece>, columns: seq<Column>) {
    && (forall i :: 0 <= i < |out| ==> PieceOf(it, index, out[i], columns))
    && (forall i, j :: 0 <= i < j < |out| ==> out[i].column + PIECE_W <= out[j].column)
  }

  ghost predicate InSome(out: seq<Piece>, q: Point) {
    exists i :: 0 <= i < |out| && out[i].rect.Holds(q)
  }

  /** Different pieces share no pixel. */
  lemma PiecesApart(it: Shape, index: nat, out: seq<Piece>, columns: seq<Column>, i: nat, j: nat, q: Point)
    requires PiecesOf(it, index, out, columns) && i < j < |out|
    ensures !(out[i].rect.Holds(q) && out[j].rect.Holds(q))
  {
    hide Searched, Sampled;
    assert PieceOf(it, index, out[i], columns) && PieceOf(it, index, out[j], columns);
  }

  /** Every pixel within the bounds that the shape covers any of, left of a column. */
  ghost predicate HeldUpto(it: Shape, out: seq<Piece>, c: int)
    requires it.top != [] && (it.band ==> it.bottom != [])
  {
    forall col, row :: col < c && it.bounds.Holds(Center(col, row)) && Covers(it, col, row) ==> InSome(out, Center(col, row))
  }

  /** More samples change nothing for the pieces there are. */
  lemma MoreColumns(it: Shape, index: nat, p: Piece, columns: seq<Column>, more: seq<Column>)
    requires PieceOf(it, index, p, columns) && columns <= more
    ensures PieceOf(it, index, p, more)
  {
    hide Searched, ColumnOf;
    if it.band {
      var c0, c1, at := p.column, EndOf(it, p.column), p.columns.value;
      forall col | c0 <= col < c1
        ensures more[at + (col - c0)] == ColumnOf(it, col)
      {
        assert more[at + (col - c0)] == columns[at + (col - c0)];
      }
    }
  }

  lemma HeldNext(it: Shape, out: seq<Piece>, p: Option<Piece>, c0: int, c1: int)
    requires it.top != [] && (it.band ==> it.bottom != []) && c0 <= c1
    requires HeldUpto(it, out, c0) && StripHeld(it, c0, c1, p)
    ensures HeldUpto(it, if p.Some? then out + [p.value] else out, c1)
  {
    hide Covers;
    var more := if p.Some? then out + [p.value] else out;
    forall col, row | col < c1 && it.bounds.Holds(Center(col, row)) && Covers(it, col, row)
      ensures InSome(more, Center(col, row))
    {
      if col < c0 {
        var i :| 0 <= i < |out| && out[i].rect.Holds(Center(col, row));
        assert more[i].rect.Holds(Center(col, row));
      } else {
        assert more[|out|].rect.Holds(Center(col, row));
      }
    }
  }

  /** Nothing within the bounds is left of their first column, or right of their last. */
  lemma ColumnsOfBounds(it: Shape, col: int, row: int)
    requires it.bounds.Holds(Center(col, row))
    ensures it.bounds.x0.Floor <= col < Ceil(it.bounds.x1)
  {
  }

  /** `out` are the shape's pieces from left to right, and `columns` those there were followed
      by the band's own. With `whole` the bounds are all there is. */
  method Pieces(it: Shape, index: nat, whole: bool, had: seq<Column>) returns (out: seq<Piece>, columns: seq<Column>)
    requires Formed(it)
    ensures had <= columns
    ensures !Drawn(it) ==> out == []
    ensures Drawn(it) && whole ==> out == [Piece(it.bounds, index, (0, |it.top|), (0, |it.bottom|), None, 0)]
    ensures Drawn(it) && !whole ==> PiecesOf(it, index, out, columns) && HeldUpto(it, out, Ceil(it.bounds.x1))
  {
    hide PieceOf, StripHeld, HeldUpto, LowerBound, Covers, Drawable;
    out, columns := [], had;
    if !Drawn(it) {
      return;
    }
    if whole {
      out := [Piece(it.bounds, index, (0, |it.top|), (0, |it.bottom|), None, 0)];
      return;
    }
    var last := Ceil(it.bounds.x1);
    var c0: nat := it.bounds.x0.Floor;
    var w := new Walks(it);
    WalksStart(w, it, c0);
    HeldNone(it, c0);
    while c0 < last
      invariant w.Apart() && w.Ready(it, c0, Reach(it)) && had <= columns
      invariant PiecesOf(it, index, out, columns) && HeldUpto(it, out, c0)
      invariant c0 < last ==> forall i :: 0 <= i < |out| ==> out[i].column + PIECE_W <= c0
      decreases last - c0
    {
      ghost var before := columns;
      var p;
      p, columns := Strip(it, index, c0, w, columns);
      MoreColumnsAll(it, index, out, before, columns);
      HeldNext(it, out, p, c0, EndOf(it, c0));
      out := if p.Some? then out + [p.value] else out;
      c0 := EndOf(it, c0);
    }
    HeldToEnd(it, out, c0, last);
  }

  lemma WalksStart(w: Walks, it: Shape, c0: nat)
    requires w.alongA.i == w.alongB.i == w.walkA.i == w.walkB.i == 0
    requires w.alongA.pts == w.walkA.pts == it.top && w.alongB.pts == w.walkB.pts == it.bottom
    ensures w.Ready(it, c0, Reach(it))
  {
  }

  lemma HeldNone(it: Shape, c0: int)
    requires it.top != [] && (it.band ==> it.bottom != []) && c0 <= it.bounds.x0.Floor
    ensures HeldUpto(it, [], c0)
  {
    hide Covers;
    forall col, row | it.bounds.Holds(Center(col, row))
      ensures col >= c0
    {
      ColumnsOfBounds(it, col, row);
    }
  }

  lemma HeldToEnd(it: Shape, out: seq<Piece>, c0: int, last: int)
    requires it.top != [] && (it.band ==> it.bottom != []) && HeldUpto(it, out, c0) && c0 >= last
    ensures HeldUpto(it, out, last)
  {
    hide Covers;
  }

  lemma MoreColumnsAll(it: Shape, index: nat, out: seq<Piece>, columns: seq<Column>, more: seq<Column>)
    requires PiecesOf(it, index, out, columns) && columns <= more
    ensures PiecesOf(it, index, out, more)
  {
    hide PieceOf;
    forall i | 0 <= i < |out|
      ensures PieceOf(it, index, out[i], more)
    {
      MoreColumns(it, index, out[i], columns, more);
    }
  }

  /** The one piece a place is in. */
  ghost predicate Sole(out: seq<Piece>, i: int, q: Point) {
    0 <= i < |out| && out[i].rect.Holds(q) && forall j :: 0 <= j < |out| && out[j].rect.Holds(q) ==> j == i
  }

  /** So each pixel within the bounds that the shape covers any of is in one piece, and
      one only. */
  lemma EachPixelOnce(it: Shape, index: nat, out: seq<Piece>, columns: seq<Column>, col: int, row: int)
    requires Drawn(it) && PiecesOf(it, index, out, columns) && HeldUpto(it, out, Ceil(it.bounds.x1))
    requires it.bounds.Holds(Center(col, row)) && Covers(it, col, row)
    ensures exists i :: Sole(out, i, Center(col, row))
  {
    hide Covers, PieceOf;
    ColumnsOfBounds(it, col, row);
    var q := Center(col, row);
    assert InSome(out, q);
    var i :| 0 <= i < |out| && out[i].rect.Holds(q);
    forall j | 0 <= j < |out| && out[j].rect.Holds(q)
      ensures j == i
    {
      if j < i {
        PiecesApart(it, index, out, columns, j, i, q);
      } else if i < j {
        PiecesApart(it, index, out, columns, i, j, q);
      }
    }
    assert Sole(out, i, q);
  }
}
