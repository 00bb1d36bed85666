/** How much of a pixel a chart's shape covers: the plain definitions that the fast
    ways of drawing it are held to. */
module ChartCoverage {
  import opened Basics
  import opened Geometry
  import opened ChartLines

  /** At how many places in a pixel's width a band's height is read. */
  const SAMPLES: nat := 4

  /** Where the `k`th sample of a column is. */
  function Place(col: int, k: nat): real {
    col as real + (k as real + 0.5) / 4.0
  }

  function Center(col: int, row: int): Point {
    Point(col as real + 0.5, row as real + 0.5)
  }

  /** `x` is on the raster and within the extents of the two lines. */
  predicate InBand(top: seq<Point>, bottom: seq<Point>, x: real)
    requires top != [] && bottom != []
  {
    && MaxR(MaxR(top[0].x, bottom[0].x), 0.0) <= x
    && x <= MinR(top[|top| - 1].x, bottom[|bottom| - 1].x)
  }

  /** How much of a row the band takes at one place. */
  function Overlap(top: seq<Point>, bottom: seq<Point>, x: real, row: int): real
    requires top != [] && bottom != []
  {
    if InBand(top, bottom, x) then Shared(LineAt(top, x), LineAt(bottom, x), row) else 0.0
  }

  /** How much of a row lies between two heights. */
  function Shared(t: real, b: real, row: int): real {
    MaxR(MinR(MaxR(t, b), row as real + 1.0) - MaxR(MinR(t, b), row as real), 0.0)
  }

  /** The band's coverage of a pixel: the mean over the samples of its column. */
  function BandCoverage(top: seq<Point>, bottom: seq<Point>, col: int, row: int): real
    requires top != [] && bottom != []
  {
    (Overlap(top, bottom, Place(col, 0), row) + Overlap(top, bottom, Place(col, 1), row)
     + Overlap(top, bottom, Place(col, 2), row) + Overlap(top, bottom, Place(col, 3), row)) / 4.0
  }

  // A line's coverage

  function Clamp(t: real, lo: real, hi: real): real {
    if t < lo then lo else if t > hi then hi else t
  }

  function Length2(a: Point, b: Point): real {
    (b.x - a.x) * (b.x - a.x) + (b.y - a.y) * (b.y - a.y)
  }

  /** How far `p` is from `a` in the direction of `b`, times the segment's length. */
  function Toward(a: Point, b: Point, p: Point): real {
    (p.x - a.x) * (b.x - a.x) + (p.y - a.y) * (b.y - a.y)
  }

  /** The share of the way along the straight line through a segment that is nearest to `p`. */
  function Foot(a: Point, b: Point, p: Point): real {
    Toward(a, b, p) * if Length2(a, b) > 0.0 then 1.0 / Length2(a, b) else 0.0
  }

  /** How far along a segment is nearest to `p`. */
  function Along(a: Point, b: Point, p: Point): real {
    Clamp(Foot(a, b, p), 0.0, 1.0)
  }

  /** The square of the distance from `p` to what is `t` of the way from `a` to `b`. */
  function Apart2(a: Point, b: Point, t: real, p: Point): real {
    var qx, qy := t * (b.x - a.x) - (p.x - a.x), t * (b.y - a.y) - (p.y - a.y);
    qx * qx + qy * qy
  }

  function Distance2(a: Point, b: Point, p: Point): real {
    Apart2(a, b, Along(a, b, p), p)
  }

  /** The smaller of two distances, either of which may be infinite. */
  function Nearer(a: Option<real>, b: Option<real>): Option<real> {
    if a.None? then b else if b.None? then a else Some(MinR(a.value, b.value))
  }

  /** To the nearest of the segments from number `first`, short of `last`. */
  function Nearest2(pts: seq<Point>, first: nat, last: nat, p: Point): Option<real>
    requires last < |pts| || first >= last
    decreases last
  {
    if first >= last then None
    else Nearer(Nearest2(pts, first, last - 1, p), Some(Distance2(pts[last - 1], pts[last], p)))
  }

  // What reach means

  lemma SquareLess(q: real, r: real)
    requires q * q < r * r && r > 0.0
    ensures -r < q < r
  {
    if q >= r {
      Squares(r, q);
    } else if q <= -r {
      Squares(r, -q);
    }
  }

  lemma Squares(r: real, q: real)
    requires 0.0 < r <= q
    ensures r * r <= q * q
  {
    assert r * r <= r * q by {
      Rising(r, r, q);
    }
    assert q * r <= q * q by {
      Rising(q, r, q);
    }
  }

  /** The place a share of the way along a segment. */
  function Across(a: Point, b: Point, t: real): real {
    a.x + t * (b.x - a.x)
  }

  /** Within reach of a segment: within reach, both ways, of some place on it. */
  lemma InReach(a: Point, b: Point, p: Point, reach: real) returns (t: real)
    requires reach > 0.0 && Distance2(a, b, p) < reach * reach
    ensures 0.0 <= t <= 1.0
    ensures -reach < Across(a, b, t) - p.x < reach && -reach < Height(a, b, t) - p.y < reach
  {
    hide Along, Height, Across;
    t := Along(a, b, p);
    assert 0.0 <= t <= 1.0 by {
      AlongIs(a, b, p);
    }
    var qx, qy := Across(a, b, t) - p.x, Height(a, b, t) - p.y;
    Apart2Is(a, b, t, p);
    SquaresUnder(qx, qy, reach * reach);
    SquareLess(qx, reach);
    SquareLess(qy, reach);
  }

  lemma AlongIs(a: Point, b: Point, p: Point)
    ensures 0.0 <= Along(a, b, p) <= 1.0
  {
  }

  lemma Apart2Is(a: Point, b: Point, t: real, p: Point)
    ensures Apart2(a, b, t, p)
      == (Across(a, b, t) - p.x) * (Across(a, b, t) - p.x) + (Height(a, b, t) - p.y) * (Height(a, b, t) - p.y)
  {
    var qx, qy := t * (b.x - a.x) - (p.x - a.x), t * (b.y - a.y) - (p.y - a.y);
    assert qx == Across(a, b, t) - p.x;
    assert qy == Height(a, b, t) - p.y;
  }

  lemma SquaresUnder(x: real, y: real, r: real)
    requires x * x + y * y < r
    ensures x * x < r && y * y < r
  {
    Square(x);
    Square(y);
  }

  lemma Square(x: real)
    ensures x * x >= 0.0
  {
  }

  /** A place on a segment lies between its ends. */
  lemma OnSegment(a: Point, b: Point, t: real)
    requires a.x <= b.x && 0.0 <= t <= 1.0
    ensures a.x <= Across(a, b, t) <= b.x
    ensures a.x == b.x ==> Across(a, b, t) == a.x
    ensures MinR(a.y, b.y) <= Height(a, b, t) <= MaxR(a.y, b.y)
  {
    Rising(b.x - a.x, 0.0, t);
    Rising(b.x - a.x, t, 1.0);
    Heights(a, b);
    Between(a, b, 0.0, t, 1.0, MinR(a.y, b.y), MaxR(a.y, b.y));
  }
}
