/** What the definitions of coverage come to in plane geometry: lines are straight between
    their points, a band's coverage is the area of it in a pixel, and a stroke's distance is
    the least to any place on the line. */
module ChartMeaning {
  import opened Basics
  import opened Geometry
  import opened ChartLines
  import opened ChartCoverage
  import opened ChartPixels
  import opened ChartRaster

  // Lines

  /** Between two points that are no step, the line is the straight one through both. */
  lemma Straight(pts: seq<Point>, k: nat, x: real)
    requires Ascending(pts) && k + 1 < |pts| && pts[k].x < x <= pts[k + 1].x && pts[k + 1].x - pts[k].x > EPSILON
    ensures (LineAt(pts, x) - pts[k].y) * (pts[k + 1].x - pts[k].x) == (pts[k + 1].y - pts[k].y) * (x - pts[k].x)
  {
    LowerBoundIs(pts, x, k + 1);
    StraightAt(pts[k], pts[k + 1], x);
  }

  lemma StraightAt(a: Point, b: Point, x: real)
    requires a.x < x <= b.x
    ensures (Height(a, b, Share(a, b, x)) - a.y) * (b.x - a.x) == (b.y - a.y) * (x - a.x)
  {
    var w, v := b.x - a.x, x - a.x;
    var t := v / w;
    assert t * w == v;
    assert t <= 1.0 by {
      if t > 1.0 {
        Rising(w, 1.0, t);
      }
    }
    var d := b.y - a.y;
    assert d * t * w == d * (t * w);
  }

  /** Left of all points and right of them it stays at the first one's height and the last's. */
  lemma Level(pts: seq<Point>, x: real)
    requires Ascending(pts) && pts != []
    ensures x <= pts[0].x ==> LineAt(pts, x) == pts[0].y
    ensures x > pts[|pts| - 1].x ==> LineAt(pts, x) == pts[|pts| - 1].y
  {
    if x <= pts[0].x {
      LowerBoundIs(pts, x, 0);
    } else if x > pts[|pts| - 1].x {
      LowerBoundIs(pts, x, |pts|);
    }
  }

  // Bands

  /** A band of level edges covers a pixel by as much of its height as lies between them,
      whichever edge is the upper. */
  lemma LevelBand(top: seq<Point>, bottom: seq<Point>, col: int, row: int, t: real, b: real)
    requires top != [] && bottom != []
    requires forall k :: 0 <= k < SAMPLES ==> InBand(top, bottom, Place(col, k))
    requires forall k :: 0 <= k < SAMPLES ==> LineAt(top, Place(col, k)) == t && LineAt(bottom, Place(col, k)) == b
    ensures var low, high := MinR(t, b), MaxR(t, b);
      var from, to := (if low > row as real then low else row as real), (if high < row as real + 1.0 then high else row as real + 1.0);
      BandCoverage(top, bottom, col, row) == if to > from then to - from else 0.0
  {
    hide LineAt, InBand;
    assert Overlap(top, bottom, Place(col, 0), row) == Shared(t, b, row);
    assert Overlap(top, bottom, Place(col, 1), row) == Shared(t, b, row);
    assert Overlap(top, bottom, Place(col, 2), row) == Shared(t, b, row);
    assert Overlap(top, bottom, Place(col, 3), row) == Shared(t, b, row);
  }

  /** An edge that slopes across a pixel and leaves it by neither its top nor its bottom covers
      it by all that is below the edge, exactly: the places are spread evenly over it. */
  lemma SlopedBand(top: seq<Point>, bottom: seq<Point>, col: int, row: int, middle: real, slope: real)
    requires top != [] && bottom != []
    requires forall k :: 0 <= k < SAMPLES ==> InBand(top, bottom, Place(col, k))
    requires forall k :: 0 <= k < SAMPLES ==>
      && LineAt(top, Place(col, k)) == middle + slope * (Place(col, k) - (col as real + 0.5))
      && row as real <= LineAt(top, Place(col, k)) <= row as real + 1.0 <= LineAt(bottom, Place(col, k))
    ensures BandCoverage(top, bottom, col, row) == row as real + 1.0 - middle
  {
    hide LineAt, InBand;
    var c := col as real + 0.5;
    SlopedAt(top, bottom, col, row, 0);
    SlopedAt(top, bottom, col, row, 1);
    SlopedAt(top, bottom, col, row, 2);
    SlopedAt(top, bottom, col, row, 3);
    assert Place(col, 0) - c == -0.375 && Place(col, 1) - c == -0.125 && Place(col, 2) - c == 0.125 && Place(col, 3) - c == 0.375;
  }

  lemma SlopedAt(top: seq<Point>, bottom: seq<Point>, col: int, row: int, k: nat)
    requires top != [] && bottom != [] && k < SAMPLES && InBand(top, bottom, Place(col, k))
    requires row as real <= LineAt(top, Place(col, k)) <= row as real + 1.0 <= LineAt(bottom, Place(col, k))
    ensures Overlap(top, bottom, Place(col, k), row) == row as real + 1.0 - LineAt(top, Place(col, k))
  {
    hide LineAt, InBand;
  }

  /** Where one of the lines does not reach, or off the raster's left edge, nothing is covered. */
  lemma PastTheEnds(top: seq<Point>, bottom: seq<Point>, col: int, row: int)
    requires top != [] && bottom != []
    requires var end := MinR(top[|top| - 1].x, bottom[|bottom| - 1].x);
      || col as real + 1.0 <= MaxR(top[0].x, bottom[0].x) || col as real >= end || col < 0
    ensures BandCoverage(top, bottom, col, row) == 0.0
  {
    hide LineAt, Shared;
    assert !InBand(top, bottom, Place(col, 0));
    assert !InBand(top, bottom, Place(col, 1));
    assert !InBand(top, bottom, Place(col, 2));
    assert !InBand(top, bottom, Place(col, 3));
  }

  // Strokes

  /** The distance to a segment is the least to any place on it. */
  lemma DistanceIsLeast(a: Point, b: Point, p: Point, t: real)
    requires 0.0 <= t <= 1.0
    ensures Distance2(a, b, p) <= Apart2(a, b, t, p)
    ensures Apart2(a, b, t, p)
      == (Across(a, b, t) - p.x) * (Across(a, b, t) - p.x) + (Height(a, b, t) - p.y) * (Height(a, b, t) - p.y)
    ensures 0.0 <= Along(a, b, p) <= 1.0 && Distance2(a, b, p) == Apart2(a, b, Along(a, b, p), p)
  {
    Apart2Is(a, b, t, p);
    AlongIs(a, b, p);
    hide Along, Apart2, Across, Height;
    NoFarther(a, b, p, t);
  }

  lemma NoFarther(a: Point, b: Point, p: Point, t: real)
    requires 0.0 <= t <= 1.0
    ensures Apart2(a, b, Along(a, b, p), p) <= Apart2(a, b, t, p)
  {
    hide *;
    AlongIsFoot(a, b, p);
    ApartIs(a, b, Along(a, b, p), p);
    ApartIs(a, b, t, p);
    FootIs(a, b, p);
    Lowest(Length2(a, b), Toward(a, b, p), Foot(a, b, p), t);
  }

  /** What of a squared distance depends on the place. */
  function Curve(len2: real, s: real, t: real): real {
    len2 * (t * t) - 2.0 * (s * t)
  }

  predicate IsFoot(len2: real, s: real, v: real) {
    len2 >= 0.0 && if len2 > 0.0 then v * len2 == s else s == 0.0
  }

  lemma AlongIsFoot(a: Point, b: Point, p: Point)
    ensures Along(a, b, p) == Clamp(Foot(a, b, p), 0.0, 1.0)
  {
  }

  lemma ApartIs(a: Point, b: Point, t: real, p: Point)
    ensures Apart2(a, b, t, p) == Curve(Length2(a, b), Toward(a, b, p), t) + Length2(a, p)
  {
    ApartOf(a, b, t, p, b.x - a.x, b.y - a.y, p.x - a.x, p.y - a.y, Length2(a, b), Toward(a, b, p));
  }

  lemma ApartOf(a: Point, b: Point, t: real, p: Point, dx: real, dy: real, px: real, py: real, len2: real, s: real)
    requires dx == b.x - a.x && dy == b.y - a.y && px == p.x - a.x && py == p.y - a.y
    requires len2 == dx * dx + dy * dy && s == px * dx + py * dy
    ensures Apart2(a, b, t, p) == Curve(len2, s, t) + (px * px + py * py)
  {
    Parabola(dx, dy, px, py, t);
  }

  lemma FootIs(a: Point, b: Point, p: Point)
    ensures IsFoot(Length2(a, b), Toward(a, b, p), Foot(a, b, p))
  {
    LengthIs(a, b, p);
    hide Length2, Toward;
    if Length2(a, b) > 0.0 {
      var i := 1.0 / Length2(a, b);
      assert i * Length2(a, b) == 1.0;
      assert Foot(a, b, p) == Toward(a, b, p) * i;
      Cancels(Toward(a, b, p), i, Length2(a, b), Foot(a, b, p));
    }
  }

  lemma Cancels(s: real, i: real, l: real, v: real)
    requires i * l == 1.0 && v == s * i
    ensures v * l == s
  {
    assert s * i * l == s * (i * l);
  }

  lemma LengthIs(a: Point, b: Point, p: Point)
    ensures Length2(a, b) >= 0.0 && (Length2(a, b) == 0.0 ==> Toward(a, b, p) == 0.0)
  {
    var dx, dy := b.x - a.x, b.y - a.y;
    Square(dx);
    Square(dy);
    if Length2(a, b) == 0.0 {
      NoLength(dx, dy, Length2(a, b));
    }
  }

  lemma NoLength(dx: real, dy: real, len2: real)
    requires len2 == dx * dx + dy * dy && len2 <= 0.0
    ensures dx == 0.0 && dy == 0.0
  {
    var x, y := dx * dx, dy * dy;
    Square(dx);
    Square(dy);
    if dx != 0.0 {
      Positive(dx, x);
    }
    if dy != 0.0 {
      Positive(dy, y);
    }
  }

  lemma Positive(x: real, z: real)
    requires x != 0.0 && z == x * x
    ensures z > 0.0
  {
    if x > 0.0 {
      Product2(x, x, z);
    } else {
      Product2(-x, -x, z);
    }
  }

  lemma Product2(x: real, y: real, z: real)
    requires x > 0.0 && y > 0.0 && z == x * y
    ensures z > 0.0
  {
  }

  lemma Parabola(dx: real, dy: real, px: real, py: real, t: real)
    ensures (t * dx - px) * (t * dx - px) + (t * dy - py) * (t * dy - py)
      == (dx * dx + dy * dy) * (t * t) - 2.0 * ((px * dx + py * dy) * t) + (px * px + py * py)
  {
    OneSquare(dx, px, t);
    OneSquare(dy, py, t);
  }

  lemma OneSquare(d: real, p: real, t: real)
    ensures (t * d - p) * (t * d - p) == d * d * (t * t) - 2.0 * (p * d * t) + p * p
  {
  }

  /** Of a parabola's values from zero to one, that nearest its vertex is lowest. */
  lemma Lowest(len2: real, s: real, v: real, t: real)
    requires IsFoot(len2, s, v) && 0.0 <= t <= 1.0
    ensures Curve(len2, s, Clamp(v, 0.0, 1.0)) <= Curve(len2, s, t)
  {
    var u := Clamp(v, 0.0, 1.0);
    if len2 > 0.0 {
      var off := (t - u) * (t + u - 2.0 * v);
      OffVertex(u, v, t, off);
      Square2(len2, off);
      assert off == t * t - u * u - 2.0 * (v * t) + 2.0 * (v * u);
      assert len2 * off == len2 * (t * t) - len2 * (u * u) - 2.0 * (len2 * (v * t)) + 2.0 * (len2 * (v * u));
      assert len2 * (v * t) == s * t && len2 * (v * u) == s * u;
    }
  }

  lemma OffVertex(u: real, v: real, t: real, off: real)
    requires 0.0 <= t <= 1.0 && u == Clamp(v, 0.0, 1.0) && off == (t - u) * (t + u - 2.0 * v)
    ensures off >= 0.0
  {
    if v < 0.0 {
      Square2(t, t - 2.0 * v);
    } else if v > 1.0 {
      Square2(1.0 - t, 2.0 * v - t - 1.0);
      assert off == (1.0 - t) * (2.0 * v - t - 1.0);
    } else {
      Square(t - u);
      assert off == (t - u) * (t - u);
    }
  }

  lemma Square2(x: real, y: real)
    requires x >= 0.0 && y >= 0.0
    ensures x * y >= 0.0
  {
  }

  /** The nearest of some segments is the least of their distances, and one's. */
  lemma {:induction false} NearestIsLeast(pts: seq<Point>, first: nat, last: nat, p: Point) returns (i: nat)
    requires first < last < |pts|
    ensures Nearest2(pts, first, last, p).Some?
    ensures forall j :: first <= j < last ==> Nearest2(pts, first, last, p).value <= Distance2(pts[j], pts[j + 1], p)
    ensures first <= i < last && Nearest2(pts, first, last, p).value == Distance2(pts[i], pts[i + 1], p)
  {
    hide Distance2;
    var front, d := Nearest2(pts, first, last - 1, p), Distance2(pts[last - 1], pts[last], p);
    i := last - 1;
    if first < last - 1 {
      var before := NearestIsLeast(pts, first, last - 1, p);
      if front.value <= d {
        i := before;
      }
    }
    assert pts[last - 1 + 1] == pts[last];
  }

  /** A pixel whose centre is a pixel's breadth inside the line is all ink, and one out of its
      reach is left alone; `root` is a square root. */
  lemma StrokeEnds(d: Pixel, pts: seq<Point>, reach: real, root: real -> real, col: int, row: int, ink: Pixel)
    requires |pts| >= 2 && reach >= 1.0 && forall x: real :: x >= 0.0 ==> root(x) >= 0.0 && root(x) * root(x) == x
    ensures Nearest2(pts, 0, |pts| - 1, Center(col, row)).Some?
    ensures var near := Nearest2(pts, 0, |pts| - 1, Center(col, row)).value;
      && (near >= reach * reach ==> LinePixel(d, pts, reach, root, col, row, ink) == d)
      && (near <= (reach - 1.0) * (reach - 1.0) && near < reach * reach && ink.alpha == 255 ==>
            LinePixel(d, pts, reach, root, col, row, ink) == ink)
  {
    hide Nearest2, OverPixel, Scaled;
    var i := NearestIsLeast(pts, 0, |pts| - 1, Center(col, row));
    var near := Nearest2(pts, 0, |pts| - 1, Center(col, row)).value;
    OpaqueAndClear(d, ink);
    if near <= (reach - 1.0) * (reach - 1.0) && near < reach * reach {
      NotNegative(pts[i], pts[i + 1], Center(col, row));
      RootAtMost(root(near), reach - 1.0);
    }
  }

  lemma NotNegative(a: Point, b: Point, p: Point)
    ensures Distance2(a, b, p) >= 0.0
  {
    hide Along;
    var t := Along(a, b, p);
    Square(t * (b.x - a.x) - (p.x - a.x));
    Square(t * (b.y - a.y) - (p.y - a.y));
  }

  lemma RootAtMost(x: real, y: real)
    requires x >= 0.0 && y >= 0.0 && x * x <= y * y
    ensures x <= y
  {
    if x > y {
      Product2(x - y, x + y, (x - y) * (x + y));
      Difference(x, y);
    }
  }

  lemma Difference(x: real, y: real)
    ensures (x - y) * (x + y) == x * x - y * y
  {
  }
}
