/** Draw commands, what they look like resolved, and what drawing them does to a point. */
module Drawing {
  import opened Basics
  import opened Geometry

  datatype Color = Color(r: real, g: real, b: real, a: real)

  /** How a run of text is set: its style, alignment, and field semantics. */
  datatype Look = Look(style: nat, halign: nat, valign: nat, ellipsis: bool, field: bool, caret: bool)

  /** A range into one of a list's arenas. */
  datatype Span = Span(start: nat, len: nat) {
    function End(): nat {
      start + len
    }
  }

  /** One drawing primitive. In a display list points and texts are spans of its
      arenas; resolved, they are the points and texts themselves. */
  datatype DrawCmd<P, S> =
    | Clear(color: Color)
    | FillRect(rect: Rect, color: Color)
    | FillRoundRect(rect: Rect, radius: real, color: Color)
    | StrokeRect(rect: Rect, color: Color, width: real)
    | StrokeRoundRect(rect: Rect, radius: real, color: Color, width: real)
    | Line(from: Point, to: Point, color: Color, width: real)
    | Polyline(points: P, color: Color, width: real)
    | FillPolygon(points: P, color: Color)
    | Band(top: P, bottom: P, color: Color)
    | Graph(points: P, color: Color, width: real)
    | Text(text: S, rect: Rect, look: Look, color: Color)
    | Icon(icon: nat, rect: Rect, size: real, color: Color)
    | Image(path: S, rect: Rect)
    | PushClip(rect: Rect)
    | PopClip

  type Cmd = DrawCmd<Span, Span>
  type Drawn = DrawCmd<seq<Point>, string>

  /** How far past its exact edges a command may still change pixels. */
  const FRINGE: real := 1.0

  /** The commands that say where to draw, not what, and the one that fills everything. */
  predicate Structural<P, S>(c: DrawCmd<P, S>) {
    c.Clear? || c.PushClip? || c.PopClip?
  }

  /** A rectangle no point outside of which the command changes, whatever the clip; there is
      none for a command that fills everything or moves the clip. */
  function Bounds(c: Drawn): (r: Option<Rect>)
    ensures r.None? <==> Structural(c)
  {
    match c
    case Clear(_) => None
    case PushClip(_) => None
    case PopClip => None
    case FillRect(rect, _) => Some(rect.Inset(-FRINGE, -FRINGE))
    case FillRoundRect(rect, _, _) => Some(rect.Inset(-FRINGE, -FRINGE))
    case Image(_, rect) => Some(rect.Inset(-FRINGE, -FRINGE))
    case StrokeRect(rect, _, width) => Some(rect.Inset(-(width * 0.5 + FRINGE), -(width * 0.5 + FRINGE)))
    case StrokeRoundRect(rect, _, _, width) => Some(rect.Inset(-(width * 0.5 + FRINGE), -(width * 0.5 + FRINGE)))
    case Line(from, to, _, width) => Some(SpreadOf([from, to], width * 0.5 + FRINGE))
    case Polyline(points, _, width) => Some(SpreadOf(points, width * 0.5 + FRINGE))
    case Graph(points, _, width) => Some(SpreadOf(points, width * 0.5 + FRINGE))
    case FillPolygon(points, _) => Some(SpreadOf(points, FRINGE))
    case Band(top, bottom, _) => Some(Union(SpreadOf(top, FRINGE), SpreadOf(bottom, FRINGE)))
    case Text(_, rect, _, _) => Some(rect.Inset(-FRINGE, -FRINGE))
    case Icon(_, rect, size, _) =>
      var c := rect.Center();
      Some(Union(rect, Rect(c.x - size * 0.5, c.y - size * 0.5, size, size)).Inset(-FRINGE, -FRINGE))
  }

  // Where there is ink

  function Mix(a: Point, b: Point, t: real): Point {
    Point(a.x + t * (b.x - a.x), a.y + t * (b.y - a.y))
  }

  predicate Close(p: Point, q: Point, m: real) {
    -m < p.x - q.x < m && -m < p.y - q.y < m
  }

  /** `q` is on the path's piece from its point `i` to the next; from the last there is none. */
  predicate OnPiece(path: seq<Point>, i: nat, t: real, q: Point) {
    i < |path| && 0.0 <= t <= 1.0 && q == Mix(path[i], path[if i + 1 < |path| then i + 1 else i], t)
  }

  ghost predicate OnPath(path: seq<Point>, q: Point) {
    exists i: nat, t: real :: OnPiece(path, i, t, q)
  }

  predicate IsMix(a: Point, b: Point, t: real, q: Point) {
    0.0 <= t <= 1.0 && q == Mix(a, b, t)
  }

  /** `q` is on a straight line from a point of one path to a point of the other. */
  ghost predicate Joins(one: seq<Point>, other: seq<Point>, q: Point) {
    exists a, b, t: real :: OnPath(one, a) && OnPath(other, b) && IsMix(a, b, t, q)
  }

  ghost predicate NearPath(path: seq<Point>, p: Point, m: real) {
    exists q :: OnPath(path, q) && Close(p, q, m)
  }

  ghost predicate NearBetween(one: seq<Point>, other: seq<Point>, p: Point, m: real) {
    exists q :: Joins(one, other, q) && Close(p, q, m)
  }

  predicate InRect(r: Rect, q: Point) {
    r.x <= q.x <= r.x + r.w && r.y <= q.y <= r.y + r.h
  }

  ghost predicate NearRect(r: Rect, p: Point, m: real) {
    exists q :: InRect(r, q) && Close(p, q, m)
  }

  /** A rectangle's edges, all the way round; none when a size is negative. */
  function Edges(r: Rect): seq<Point> {
    if r.w < 0.0 || r.h < 0.0 then []
    else [Point(r.x, r.y), Point(r.x + r.w, r.y), Point(r.x + r.w, r.y + r.h), Point(r.x, r.y + r.h), Point(r.x, r.y)]
  }

  function Closed(path: seq<Point>): seq<Point> {
    if path == [] then [] else path + [path[0]]
  }

  /** Where a command can change a pixel: near what it fills, the edges it strokes, or the line
      it draws; a band fills all between its two lines, a polygon all between any two points
      of its outline, and an icon its glyph in the middle of its place. */
  ghost predicate Inked(c: Drawn, p: Point) {
    match c
    case Clear(_) => true
    case PushClip(_) => false
    case PopClip => false
    case FillRect(rect, _) => NearRect(rect, p, 1.0)
    case FillRoundRect(rect, _, _) => NearRect(rect, p, 1.0)
    case Image(_, rect) => NearRect(rect, p, 1.0)
    case Text(_, rect, _, _) => NearRect(rect, p, 1.0)
    case StrokeRect(rect, _, width) => NearPath(Edges(rect), p, width / 2.0 + 1.0)
    case StrokeRoundRect(rect, _, _, width) => NearPath(Edges(rect), p, width / 2.0 + 1.0)
    case Line(from, to, _, width) => NearPath([from, to], p, width / 2.0 + 1.0)
    case Polyline(points, _, width) => NearPath(points, p, width / 2.0 + 1.0)
    case Graph(points, _, width) => NearPath(points, p, width / 2.0 + 1.0)
    case FillPolygon(points, _) => NearBetween(Closed(points), Closed(points), p, 1.0)
    case Band(top, bottom, _) => NearBetween(top, bottom, p, 1.0)
    case Icon(_, rect, size, _) =>
      || NearRect(rect, p, 1.0)
      || NearRect(Rect(rect.x + (rect.w - size) / 2.0, rect.y + (rect.h - size) / 2.0, size, size), p, 1.0)
  }

  /** `q` is inside `r` by the margin. */
  predicate Inside(r: Rect, m: real, q: Point) {
    r.x + m <= q.x <= r.Right() - m && r.y + m <= q.y <= r.Bottom() - m
  }

  lemma InsideHolds(r: Rect, m: real, q: Point, p: Point)
    requires Inside(r, m, q) && Close(p, q, m)
    ensures r.Contains(p)
  {
  }

  lemma Weighted(lo: real, hi: real, a: real, b: real, t: real)
    requires lo <= a <= hi && lo <= b <= hi && 0.0 <= t <= 1.0
    ensures lo <= a + t * (b - a) <= hi
  {
    if a <= b {
      NotNegative(t, b - a);
      NotNegative(1.0 - t, b - a);
      assert (1.0 - t) * (b - a) == b - a - t * (b - a);
    } else {
      NotNegative(t, a - b);
      NotNegative(1.0 - t, a - b);
      assert (1.0 - t) * (a - b) == a - b - t * (a - b);
      assert t * (b - a) == -(t * (a - b));
    }
  }

  lemma NotNegative(a: real, b: real)
    requires a >= 0.0 && b >= 0.0
    ensures a * b >= 0.0
  {
  }

  lemma MixInside(r: Rect, m: real, a: Point, b: Point, t: real)
    requires Inside(r, m, a) && Inside(r, m, b) && 0.0 <= t <= 1.0
    ensures Inside(r, m, Mix(a, b, t))
  {
    Weighted(r.x + m, r.Right() - m, a.x, b.x, t);
    Weighted(r.y + m, r.Bottom() - m, a.y, b.y, t);
  }

  predicate AllInside(r: Rect, m: real, path: seq<Point>) {
    forall i :: 0 <= i < |path| ==> Inside(r, m, path[i])
  }

  lemma PathInside(r: Rect, m: real, path: seq<Point>, q: Point)
    requires AllInside(r, m, path) && OnPath(path, q)
    ensures Inside(r, m, q)
  {
    hide Mix, Inside;
    var i: nat, t: real :| OnPiece(path, i, t, q);
    MixInside(r, m, path[i], path[if i + 1 < |path| then i + 1 else i], t);
  }

  lemma NearPathInside(r: Rect, m: real, path: seq<Point>, p: Point)
    requires AllInside(r, m, path) && NearPath(path, p, m)
    ensures r.Contains(p)
  {
    hide OnPath, AllInside, Close, Inside;
    var q :| OnPath(path, q) && Close(p, q, m);
    PathInside(r, m, path, q);
    InsideHolds(r, m, q, p);
  }

  lemma NearBetweenInside(r: Rect, m: real, one: seq<Point>, other: seq<Point>, p: Point)
    requires AllInside(r, m, one) && AllInside(r, m, other) && NearBetween(one, other, p, m)
    ensures r.Contains(p)
  {
    hide OnPath, AllInside, Close, Inside, Mix;
    var q :| Joins(one, other, q) && Close(p, q, m);
    var a, b, t: real :| OnPath(one, a) && OnPath(other, b) && IsMix(a, b, t, q);
    PathInside(r, m, one, a);
    PathInside(r, m, other, b);
    MixInside(r, m, a, b, t);
    InsideHolds(r, m, q, p);
  }

  lemma SpreadInside(points: seq<Point>, m: real)
    ensures AllInside(SpreadOf(points, m), m, points)
  {
    forall i | 0 <= i < |points|
      ensures Inside(SpreadOf(points, m), m, points[i])
    {
      ExtremesHold(points, i);
    }
  }

  lemma UnionInside(a: Rect, b: Rect, m: real, points: seq<Point>)
    requires AllInside(a, m, points)
    ensures AllInside(Union(a, b), m, points) && AllInside(Union(b, a), m, points)
  {
  }

  lemma RectInside(r: Rect, outer: Rect, m: real, p: Point)
    requires Within(r, outer) && NearRect(r, p, m)
    ensures outer.Inset(-m, -m).Contains(p)
  {
  }

  lemma EdgesInside(r: Rect, m: real)
    requires 0.0 <= m
    ensures AllInside(r.Inset(-m, -m), m, Edges(r))
  {
  }

  lemma NoneClose(path: seq<Point>, p: Point, m: real)
    requires m <= 0.0
    ensures !NearPath(path, p, m)
  {
  }

  /** All the ink of a command is in its bounds. */
  lemma InkedIsBounded(c: Drawn, p: Point)
    requires Inked(c, p) && Bounds(c).Some?
    ensures Bounds(c).value.Contains(p)
  {
    hide NearRect, NearPath, NearBetween, AllInside, SpreadOf, Union, Edges;
    match c
    case FillRect(rect, _) => RectInside(rect, rect, 1.0, p);
    case FillRoundRect(rect, _, _) => RectInside(rect, rect, 1.0, p);
    case Image(_, rect) => RectInside(rect, rect, 1.0, p);
    case Text(_, rect, _, _) => RectInside(rect, rect, 1.0, p);
    case StrokeRect(rect, _, width) => StrokeBounded(rect, width, p);
    case StrokeRoundRect(rect, _, _, width) => StrokeBounded(rect, width, p);
    case Line(from, to, _, width) => PathBounded([from, to], width, p);
    case Polyline(points, _, width) => PathBounded(points, width, p);
    case Graph(points, _, width) => PathBounded(points, width, p);
    case FillPolygon(points, _) =>
      SpreadInside(points, 1.0);
      ClosedInside(SpreadOf(points, 1.0), 1.0, points);
      NearBetweenInside(SpreadOf(points, 1.0), 1.0, Closed(points), Closed(points), p);
    case Band(top, bottom, _) =>
      var a, b := SpreadOf(top, 1.0), SpreadOf(bottom, 1.0);
      SpreadInside(top, 1.0);
      SpreadInside(bottom, 1.0);
      UnionInside(a, b, 1.0, top);
      UnionInside(b, a, 1.0, bottom);
      NearBetweenInside(Union(a, b), 1.0, top, bottom, p);
    case Icon(_, rect, size, _) => IconBounded(rect, size, p);
  }

  lemma ClosedInside(r: Rect, m: real, points: seq<Point>)
    requires AllInside(r, m, points)
    ensures AllInside(r, m, Closed(points))
  {
    hide Inside;
  }

  lemma PathBounded(points: seq<Point>, width: real, p: Point)
    requires NearPath(points, p, width / 2.0 + 1.0)
    ensures SpreadOf(points, width * 0.5 + FRINGE).Contains(p)
  {
    hide NearPath, AllInside, SpreadOf;
    SpreadInside(points, width * 0.5 + FRINGE);
    NearPathInside(SpreadOf(points, width * 0.5 + FRINGE), width * 0.5 + FRINGE, points, p);
  }

  lemma StrokeBounded(rect: Rect, width: real, p: Point)
    requires NearPath(Edges(rect), p, width / 2.0 + 1.0)
    ensures rect.Inset(-(width * 0.5 + FRINGE), -(width * 0.5 + FRINGE)).Contains(p)
  {
    hide NearPath, AllInside, Edges;
    var m := width * 0.5 + FRINGE;
    if m <= 0.0 {
      NoneClose(Edges(rect), p, m);
    } else {
      EdgesInside(rect, m);
      NearPathInside(rect.Inset(-m, -m), m, Edges(rect), p);
    }
  }

  lemma IconBounded(rect: Rect, size: real, p: Point)
    requires var glyph := Rect(rect.x + (rect.w - size) / 2.0, rect.y + (rect.h - size) / 2.0, size, size);
      NearRect(rect, p, 1.0) || NearRect(glyph, p, 1.0)
    ensures var c := rect.Center();
      Union(rect, Rect(c.x - size * 0.5, c.y - size * 0.5, size, size)).Inset(-FRINGE, -FRINGE).Contains(p)
  {
    hide NearRect;
    var c := rect.Center();
    var glyph := Rect(c.x - size * 0.5, c.y - size * 0.5, size, size);
    assert glyph == Rect(rect.x + (rect.w - size) / 2.0, rect.y + (rect.h - size) / 2.0, size, size);
    UnionIsHull(rect, glyph, rect);
    if NearRect(rect, p, 1.0) {
      RectInside(rect, Union(rect, glyph), 1.0, p);
    } else {
      RectInside(glyph, Union(rect, glyph), 1.0, p);
    }
  }

  // What drawing does

  /** What a command makes of the color at a point it may paint. */
  type Ink = (Drawn, Point, Color) -> Color

  /** Only clearing takes no notice of what was there, and what a command does not ink it leaves
      as it is. */
  ghost predicate Paints(ink: Ink) {
    && (forall c, p, k :: !Inked(c, p) ==> ink(c, p, k) == k)
    && (forall col, p, k, l :: ink(Clear(col), p, k) == ink(Clear(col), p, l))
  }

  /** And the bounds of a rectangle are no more than its ink and the edge of that. */
  lemma RectIsInked(rect: Rect, color: Color, p: Point)
    requires rect.w >= 0.0 && rect.h >= 0.0
    ensures var b := Bounds(FillRect(rect, color)).value;
      Inked(FillRect(rect, color), p) <==> b.Contains(p) && p.x != b.x && p.y != b.y
  {
    var b := Bounds(FillRect(rect, color)).value;
    if b.Contains(p) && p.x != b.x && p.y != b.y {
      var q := Point(MinR(MaxR(p.x, rect.x), rect.x + rect.w), MinR(MaxR(p.y, rect.y), rect.y + rect.h));
      assert InRect(rect, q) && Close(p, q, 1.0);
    }
  }

  /** Those of lines and outlines are no larger than the room around their points. */
  lemma PathBoundsAreLeast(points: seq<Point>, color: Color, width: real, outer: Rect)
    requires points != [] && AllInside(outer, width / 2.0 + 1.0, points)
    ensures Within(Bounds(DrawCmd.Polyline(points, color, width)).value, outer)
  {
    SpreadIsTight(points, width * 0.5 + FRINGE, outer);
  }

  lemma BandBoundsAreLeast(top: seq<Point>, bottom: seq<Point>, color: Color, outer: Rect)
    requires top != [] && bottom != [] && AllInside(outer, 1.0, top + bottom)
    ensures Within(Bounds(DrawCmd.Band(top, bottom, color)).value, outer)
  {
    assert forall i :: 0 <= i < |top| ==> (top + bottom)[i] == top[i];
    assert forall i :: 0 <= i < |bottom| ==> (top + bottom)[|top| + i] == bottom[i];
    SpreadIsTight(top, 1.0, outer);
    SpreadIsTight(bottom, 1.0, outer);
    UnionIsHull(SpreadOf(top, 1.0), SpreadOf(bottom, 1.0), outer);
  }

  /** What a command leaves as it is includes all outside its bounds. */
  lemma OutsideStays(ink: Ink, c: Drawn, p: Point, k: Color)
    requires Paints(ink) && Bounds(c).Some? && !Bounds(c).value.Contains(p)
    ensures ink(c, p, k) == k
  {
    if Inked(c, p) {
      InkedIsBounded(c, p);
    }
  }

  function Last<T>(s: seq<T>): T
    requires s != []
  {
    s[|s| - 1]
  }

  function Front<T>(s: seq<T>): seq<T>
    requires s != []
  {
    s[..|s| - 1]
  }

  /** The clips in force after some commands, each cut to the one around it. */
  function Clips(cmds: seq<Drawn>): seq<Rect> {
    if cmds == [] then []
    else
      var clips := Clips(Front(cmds));
      match Last(cmds)
      case PushClip(r) => clips + [if clips == [] then r else Last(clips).Intersect(r)]
      case PopClip => if clips == [] then [] else Front(clips)
      case _ => clips
  }

  predicate Unclipped(clips: seq<Rect>, p: Point) {
    clips == [] || Last(clips).Contains(p)
  }

  /** The rectangles pushed and not popped, as they were pushed. */
  function Pushed(cmds: seq<Drawn>): seq<Rect> {
    if cmds == [] then []
    else
      var pushed := Pushed(Front(cmds));
      match Last(cmds)
      case PushClip(r) => pushed + [r]
      case PopClip => if pushed == [] then [] else Front(pushed)
      case _ => pushed
  }

  predicate InAll(rects: seq<Rect>, n: nat, p: Point)
    requires n <= |rects|
  {
    forall i :: 0 <= i < n ==> rects[i].Contains(p)
  }

  lemma SameInAll(a: seq<Rect>, b: seq<Rect>, n: nat, p: Point)
    requires n <= |a| && n <= |b| && forall i :: 0 <= i < n ==> a[i] == b[i]
    ensures InAll(a, n, p) <==> InAll(b, n, p)
  {
    hide Rect.Contains;
  }

  lemma InOneMore(a: seq<Rect>, n: nat, p: Point)
    requires n < |a|
    ensures InAll(a, n + 1, p) <==> InAll(a, n, p) && a[n].Contains(p)
  {
    hide Rect.Contains;
  }

  lemma {:induction false} ClipsNested(cmds: seq<Drawn>, p: Point)
    ensures |Clips(cmds)| == |Pushed(cmds)|
    ensures forall d :: 0 <= d < |Clips(cmds)| ==> (Clips(cmds)[d].Contains(p) <==> InAll(Pushed(cmds), d + 1, p))
  {
    hide Rect.Contains, Rect.Intersect;
    if cmds != [] {
      var front := Front(cmds);
      ClipsNested(front, p);
      var clips, pushed := Clips(front), Pushed(front);
      var all := Pushed(cmds);
      assert forall i :: 0 <= i < |all| && i < |pushed| ==> all[i] == pushed[i];
      forall d | 0 <= d < |Clips(cmds)|
        ensures Clips(cmds)[d].Contains(p) <==> InAll(all, d + 1, p)
      {
        if d < |clips| {
          SameInAll(all, pushed, d + 1, p);
        } else {
          var r := Last(cmds).rect;
          assert all[d] == r;
          SameInAll(all, pushed, d, p);
          InOneMore(all, d, p);
          if d > 0 {
            IntersectHolds(Last(clips), r, p);
            assert clips[d - 1].Contains(p) <==> InAll(pushed, d, p);
          }
        }
      }
    }
  }

  /** A point is drawn at if and only if it is in every rectangle that is pushed. */
  lemma UnclippedIff(cmds: seq<Drawn>, p: Point)
    ensures Unclipped(Clips(cmds), p) <==> forall i :: 0 <= i < |Pushed(cmds)| ==> Pushed(cmds)[i].Contains(p)
  {
    ClipsNested(cmds, p);
    var n := |Clips(cmds)|;
    if n > 0 {
      assert Clips(cmds)[n - 1].Contains(p) <==> InAll(Pushed(cmds), n, p);
    }
  }

  /** The color at `p` once `cmds` have been drawn over `k`. */
  function ColorAt(ink: Ink, cmds: seq<Drawn>, p: Point, k: Color): Color {
    if cmds == [] then k
    else
      var before := ColorAt(ink, Front(cmds), p, k);
      if Last(cmds).PushClip? || Last(cmds).PopClip? || !Unclipped(Clips(Front(cmds)), p) then before
      else ink(Last(cmds), p, before)
  }

  /** A list that starts by clearing looks the same over anything. */
  lemma {:induction false} ClearedFirst(ink: Ink, cmds: seq<Drawn>, p: Point, k: Color, l: Color)
    requires Paints(ink) && cmds != [] && cmds[0].Clear?
    ensures ColorAt(ink, cmds, p, k) == ColorAt(ink, cmds, p, l)
  {
    if |cmds| == 1 {
      assert Front(cmds) == [];
    } else {
      ClearedFirst(ink, Front(cmds), p, k, l);
    }
  }

  /** Whether a command can touch `area`. */
  predicate Touches(c: Drawn, area: Rect) {
    Structural(c) || !Bounds(c).value.Intersect(area).IsEmpty()
  }

  /** Drawing again only the commands that touch `area`. */
  function ColorWithin(ink: Ink, cmds: seq<Drawn>, area: Rect, p: Point, k: Color): Color {
    if cmds == [] then k
    else
      var before := ColorWithin(ink, Front(cmds), area, p, k);
      var c := Last(cmds);
      if c.PushClip? || c.PopClip? || !Touches(c, area) || !Unclipped(Clips(Front(cmds)), p) then before
      else ink(c, p, before)
  }

  /** In `area` that is the same as drawing them all. */
  lemma {:induction false} TouchingIsEnough(ink: Ink, cmds: seq<Drawn>, area: Rect, p: Point, k: Color)
    requires Paints(ink) && area.Contains(p)
    ensures ColorWithin(ink, cmds, area, p, k) == ColorAt(ink, cmds, p, k)
  {
    if cmds != [] {
      TouchingIsEnough(ink, Front(cmds), area, p, k);
      var c := Last(cmds);
      if !Touches(c, area) {
        IntersectHolds(Bounds(c).value, area, p);
        EmptyHolds(Bounds(c).value.Intersect(area), p);
        OutsideStays(ink, c, p, ColorAt(ink, Front(cmds), p, k));
      }
    }
  }
}
