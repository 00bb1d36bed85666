/** Drawing only what each frame changes, over the pixels kept from the one before. */
module Partial {
  import opened Basics
  import opened Geometry
  import opened Drawing
  import opened Display
  import opened Damage

  /** The share of the window at which `Damage` stops telling rectangles. */
  const WHOLE_AT: real := 0.9

  /** `r` grown out to whole pixels. */
  function WholeDips(r: Rect): Rect {
    var x, y := r.x.Floor as real, r.y.Floor as real;
    Rect(x, y, Ceil(r.x + r.w) as real - x, Ceil(r.y + r.h) as real - y)
  }

  predicate Whole(r: Rect) {
    r.x == r.x.Floor as real && r.y == r.y.Floor as real && r.w == r.w.Floor as real && r.h == r.h.Floor as real
  }

  /** It holds `r`, lies on whole pixels, and is the smallest such rectangle. */
  lemma WholeDipsIsHull(r: Rect, outer: Rect)
    ensures Whole(WholeDips(r)) && Within(r, WholeDips(r))
    ensures Whole(outer) && Within(r, outer) ==> Within(WholeDips(r), outer)
  {
    hide Ceil;
    Outward(r.x, r.x + r.w, outer.x.Floor, outer.x.Floor + outer.w.Floor);
    Outward(r.y, r.y + r.h, outer.y.Floor, outer.y.Floor + outer.h.Floor);
    IntegralFloor(r.x.Floor);
    IntegralFloor(r.y.Floor);
    IntegralFloor(Ceil(r.x + r.w) - r.x.Floor);
    IntegralFloor(Ceil(r.y + r.h) - r.y.Floor);
  }

  lemma Outward(low: real, high: real, a: int, b: int)
    ensures low.Floor as real <= low && high <= Ceil(high) as real
    ensures a as real <= low ==> a <= low.Floor
    ensures high <= b as real ==> Ceil(high) <= b
  {
  }

  lemma IntegralFloor(n: int)
    ensures (n as real).Floor == n
  {
  }

  function Area(rects: seq<Rect>): real {
    if rects == [] then 0.0
    else
      var r := rects[|rects| - 1];
      Area(rects[..|rects| - 1]) + r.w * r.h
  }

  /** Areas add up, however the rectangles are listed. */
  lemma {:induction false} AreaAdds(a: seq<Rect>, b: seq<Rect>)
    ensures Area(a + b) == Area(a) + Area(b)
    ensures |b| == 1 ==> Area(b) == b[0].w * b[0].h
  {
    if b == [] {
      assert a + b == a;
    } else {
      var n := |b| - 1;
      AreaAdds(a, b[..n]);
      assert (a + b)[..|a + b| - 1] == a + b[..n];
    }
  }

  /** Scale and size of what is drawn on. */
  type Surface = (real, Size)

  /** Whatever differs between the frames is covered, by a few rectangles on whole pixels. */
  ghost predicate Tells(was: seq<Drawn>, now: seq<Drawn>, rects: seq<Rect>) {
    && Comparable(was, now)
    && |rects| <= MAX_RECTS
    && (forall i :: 0 <= i < |rects| ==> Whole(rects[i]))
    && forall p :: Covered(Changed(was, now), p) ==> Covered(rects, p)
  }

  class Frames {
    /** What `Damage` compares with. */
    var prev: DisplayList
    var damage: seq<Rect>
    /** What the newest frame was painted for. */
    var surface: Option<Surface>

    constructor ()
      ensures fresh(prev) && prev.Valid() && surface.None?
    {
      prev := new DisplayList();
      damage, surface := [], None;
    }

    /** Swaps lists: `dl` is compared with from now on, and the list compared with so far is
        free. */
    method Keep(dl: DisplayList) returns (spare: DisplayList)
      modifies this`prev
      ensures prev == dl && spare == old(prev)
    {
      spare := prev;
      prev := dl;
    }

    /** Rectangles on whole pixels that cover all differences from `prev`, or `None`: another
        surface than last time, another structure, or too large an area. */
    method Damage(dl: DisplayList, scale: real, size: Size) returns (some: Option<seq<Rect>>)
      requires dl.Valid() && prev.Valid()
      modifies this`damage, this`surface
      ensures surface == Some((scale, size))
      ensures some.Some? ==> old(surface) == surface && Tells(prev.Shown(), dl.Shown(), some.value)
      ensures some.Some? <==>
        && old(surface) == surface && Comparable(prev.Shown(), dl.Shown())
        && Area(Rounded(Merged(Changed(prev.Shown(), dl.Shown())))) < size.w * size.h * 0.9
      ensures some.Some? ==> some.value == Rounded(Merged(Changed(prev.Shown(), dl.Shown())))
      ensures old(surface) == surface && Differences(prev.Shown(), dl.Shown()) == Some([]) && size.w * size.h > 0.0 ==>
        some == Some([])
    {
      hide Holds, Scattered, DisplayList.Valid, ResolveAll, Whole, WholeDips, Changed, Comparable, Tells, Area, Merged;
      var same := surface == Some((scale, size));
      surface := Some((scale, size));
      if !same {
        return None;
      }
      var told, rects := DamageSince(dl, prev);
      if !told {
        return None;
      }
      ghost var raw := rects;
      rects := AllWhole(rects);
      damage := rects;
      WholeTells(prev.Shown(), dl.Shown(), raw, rects);
      ScatteredNone();
      AreaOfNone();
      return if Area(rects) < size.w * size.h * WHOLE_AT then Some(rects) else None;
    }
  }

  /** Each rectangle rounded out. */
  function Rounded(raw: seq<Rect>): (rects: seq<Rect>)
    ensures |rects| == |raw| && forall i :: 0 <= i < |raw| ==> rects[i] == WholeDips(raw[i])
  {
    seq(|raw|, i requires 0 <= i < |raw| => WholeDips(raw[i]))
  }

  method AllWhole(raw: seq<Rect>) returns (rects: seq<Rect>)
    ensures rects == Rounded(raw)
  {
    rects := raw;
    for i := 0 to |raw|
      invariant |rects| == |raw|
      invariant forall j :: 0 <= j < i ==> rects[j] == WholeDips(raw[j])
      invariant forall j :: i <= j < |raw| ==> rects[j] == raw[j]
    {
      rects := rects[i := WholeDips(rects[i])];
    }
  }

  /** The changed areas, if the frames can be compared. */
  ghost function Differences(was: seq<Drawn>, now: seq<Drawn>): Option<seq<Rect>> {
    if Comparable(was, now) then Some(Changed(was, now)) else None
  }

  lemma AreaOfNone()
    ensures Area([]) == 0.0
  {
  }

  lemma ScatteredNone()
    ensures Scattered([])
  {
  }

  lemma WholeTells(was: seq<Drawn>, now: seq<Drawn>, raw: seq<Rect>, rects: seq<Rect>)
    requires Comparable(was, now) && Holds(raw, Changed(was, now)) && |raw| <= MAX_RECTS
    requires |rects| == |raw| && forall i :: 0 <= i < |raw| ==> rects[i] == WholeDips(raw[i])
    ensures Tells(was, now, rects)
  {
    hide Changed, WholeDips, Whole;
    forall i | 0 <= i < |rects|
      ensures Whole(rects[i])
    {
      WholeDipsIsHull(raw[i], ZERO);
    }
    forall p | Covered(Changed(was, now), p)
      ensures Covered(rects, p)
    {
      assert Covered(raw, p);
      var i :| 0 <= i < |raw| && raw[i].Contains(p);
      WholeDipsIsHull(raw[i], ZERO);
      WithinHolds(raw[i], rects[i], p);
    }
  }

  // What is on show

  /** One pass for every rectangle, limited to it and to the commands that reach into it. */
  function Repainted(ink: Ink, cmds: seq<Drawn>, rects: seq<Rect>, p: Point, k: Color): Color {
    if rects == [] then k
    else
      var area, before := rects[|rects| - 1], Repainted(ink, cmds, rects[..|rects| - 1], p, k);
      if area.Contains(p) then ColorWithin(ink, cmds, area, p, before) else before
  }

  lemma {:induction false} RepaintedIsDrawn(ink: Ink, cmds: seq<Drawn>, rects: seq<Rect>, p: Point, k: Color, l: Color)
    requires Paints(ink) && cmds != [] && cmds[0].Clear?
    ensures Repainted(ink, cmds, rects, p, k) == if Covered(rects, p) then ColorAt(ink, cmds, p, l) else k
  {
    if rects != [] {
      var front, area := rects[..|rects| - 1], rects[|rects| - 1];
      RepaintedIsDrawn(ink, cmds, front, p, k, l);
      assert forall i :: 0 <= i < |front| ==> front[i] == rects[i];
      if area.Contains(p) {
        var before := Repainted(ink, cmds, front, p, k);
        TouchingIsEnough(ink, cmds, area, p, before);
        ClearedFirst(ink, cmds, p, before, l);
      }
    }
  }

  /** How a painter that goes over the commands once finds out which it can leave out. */
  type Picks = (Drawn, seq<Rect>) -> bool

  /** It leaves out none that touches any of the rectangles; it may draw more. */
  ghost predicate Careful(picks: Picks) {
    forall c, rects, i :: 0 <= i < |rects| && Touches(c, rects[i]) ==> picks(c, rects)
  }

  /** What the commands that are picked make of the color at a point. */
  function Picked(ink: Ink, picks: Picks, cmds: seq<Drawn>, rects: seq<Rect>, p: Point, k: Color): Color {
    if cmds == [] then k
    else
      var before := Picked(ink, picks, Front(cmds), rects, p, k);
      var c := Last(cmds);
      if c.PushClip? || c.PopClip? || !picks(c, rects) || !Unclipped(Clips(Front(cmds)), p) then before
      else ink(c, p, before)
  }

  /** One pass, clipped to all of the rectangles together. */
  function OnePass(ink: Ink, picks: Picks, cmds: seq<Drawn>, rects: seq<Rect>, p: Point, k: Color): Color {
    if Covered(rects, p) then Picked(ink, picks, cmds, rects, p, k) else k
  }

  lemma {:induction false} PickedIsDrawn(ink: Ink, picks: Picks, cmds: seq<Drawn>, rects: seq<Rect>, p: Point, k: Color)
    requires Paints(ink) && Careful(picks) && Covered(rects, p)
    ensures Picked(ink, picks, cmds, rects, p, k) == ColorAt(ink, cmds, p, k)
  {
    hide Paints, Rect.Intersect, Rect.IsEmpty, Bounds;
    if cmds != [] {
      PickedIsDrawn(ink, picks, Front(cmds), rects, p, k);
      var i :| 0 <= i < |rects| && rects[i].Contains(p);
      var c := Last(cmds);
      if !Touches(c, rects[i]) {
        IntersectHolds(Bounds(c).value, rects[i], p);
        EmptyHolds(Bounds(c).value.Intersect(rects[i]), p);
        OutsideStays(ink, c, p, ColorAt(ink, Front(cmds), p, k));
      }
    }
  }

  /** The two ways of repainting come to the same, whichever commands the one pass spares. */
  lemma OnePassIsRepainted(ink: Ink, picks: Picks, cmds: seq<Drawn>, rects: seq<Rect>, p: Point, k: Color)
    requires Paints(ink) && Careful(picks) && cmds != [] && cmds[0].Clear?
    ensures OnePass(ink, picks, cmds, rects, p, k) == Repainted(ink, cmds, rects, p, k)
  {
    RepaintedIsDrawn(ink, cmds, rects, p, k, k);
    if Covered(rects, p) {
      PickedIsDrawn(ink, picks, cmds, rects, p, k);
    }
  }

  /** Repainting what a frame damages makes the last frame's picture into this one's. */
  lemma RepaintIsWhole(
    ink: Ink, picks: Picks, was: seq<Drawn>, now: seq<Drawn>, rects: seq<Rect>, p: Point, k: Color)
    requires Paints(ink) && Careful(picks) && Tells(was, now, rects) && now != [] && now[0].Clear?
    ensures OnePass(ink, picks, now, rects, p, ColorAt(ink, was, p, k)) == ColorAt(ink, now, p, k)
    ensures Repainted(ink, now, rects, p, ColorAt(ink, was, p, k)) == ColorAt(ink, now, p, k)
  {
    hide Careful, Tells;
    RepaintedIsDrawn(ink, now, rects, p, ColorAt(ink, was, p, k), k);
    OnePassIsRepainted(ink, picks, now, rects, p, ColorAt(ink, was, p, k));
    if !Covered(rects, p) {
      Untold(was, now, rects, p);
      UnchangedElsewhere(ink, was, now, p, k);
    }
  }

  lemma Untold(was: seq<Drawn>, now: seq<Drawn>, rects: seq<Rect>, p: Point)
    requires Tells(was, now, rects) && !Covered(rects, p)
    ensures Comparable(was, now) && !Covered(Changed(was, now), p)
  {
    hide Comparable, Changed, Whole;
  }

  /** The picture is what drawing the commands, over anything, shows. */
  ghost predicate Shows(shown: Point -> Color, ink: Ink, cmds: seq<Drawn>) {
    forall p, k :: shown(p) == ColorAt(ink, cmds, p, k)
  }

  /** A window that keeps its pixels, and is drawn to frame by frame. */
  class Window {
    var frames: Frames
    var dl: DisplayList
    /** What each command does, on each surface. */
    const ink: Surface -> Ink
    const picks: Picks
    ghost var shown: Point -> Color

    ghost predicate Repr()
      reads this, frames
    {
      frames.prev != dl
    }

    /** On show is the newest frame, as drawing all of it over anything would show it. */
    ghost predicate Valid()
      reads this, frames, frames.prev, dl
    {
      && Repr() && dl.Valid() && frames.prev.Valid()
      && (forall s :: Paints(ink(s))) && Careful(picks)
      && (frames.surface.Some? ==> dl.Shown() != [] && dl.Shown()[0].Clear?)
      && (frames.surface.Some? ==> Shows(shown, ink(frames.surface.value), dl.Shown()))
    }

    constructor (ink: Surface -> Ink, picks: Picks, blank: Point -> Color)
      requires (forall s :: Paints(ink(s))) && Careful(picks)
      ensures Valid() && fresh(frames) && fresh(frames.prev) && fresh(dl)
    {
      this.ink, this.picks, shown := ink, picks, blank;
      frames := new Frames();
      dl := new DisplayList();
    }

    /** Paint the next frame and show it: only what it changes, where that can be told. */
    method Next(ds: seq<Drawn>, scale: real, size: Size)
      requires Valid() && Fresh(ds) != [] && Fresh(ds)[0].Clear?
      modifies this, frames, frames.prev
      ensures Valid() && frames == old(frames) && {dl, frames.prev} == old({dl, frames.prev})
      ensures dl.Shown() == Fresh(ds) && frames.surface == Some((scale, size))
      ensures Shows(shown, ink((scale, size)), Fresh(ds))
    {
      hide DisplayList.Valid, ResolveAll, Paints, Tells, Shows, ColorAt, OnePass, Careful, Changed, Merged, Rounded, Comparable, Area;
      ghost var before := frames.surface;
      dl := frames.Keep(dl);
      dl.Clear();
      dl.DrawAll(ds);
      assert [] + Fresh(ds) == Fresh(ds);
      ghost var was := frames.prev.Shown();
      var damage := frames.Damage(dl, scale, size);
      ghost var pen, pick, showing := ink((scale, size)), picks, shown;
      if damage.None? {
        shown := p => ColorAt(pen, Fresh(ds), p, showing(p));
      } else {
        shown := p => OnePass(pen, pick, Fresh(ds), damage.value, p, showing(p));
      }
      NextShows(pen, pick, was, Fresh(ds), damage, showing, shown);
    }
  }

  lemma NextShows(
    pen: Ink, pick: Picks, was: seq<Drawn>, now: seq<Drawn>, damage: Option<seq<Rect>>, showing: Point -> Color,
    shown: Point -> Color)
    requires Paints(pen) && Careful(pick) && now != [] && now[0].Clear?
    requires damage.None? ==> shown == ((p: Point) => ColorAt(pen, now, p, showing(p)))
    requires damage.Some? ==> Tells(was, now, damage.value) && Shows(showing, pen, was)
    requires damage.Some? ==> shown == ((p: Point) => OnePass(pen, pick, now, damage.value, p, showing(p)))
    ensures Shows(shown, pen, now)
  {
    hide Paints, Tells, Careful, OnePass;
    forall p, k
      ensures shown(p) == ColorAt(pen, now, p, k)
    {
      if damage.None? {
        ClearedFirst(pen, now, p, showing(p), k);
      } else {
        assert showing(p) == ColorAt(pen, was, p, k);
        RepaintIsWhole(pen, pick, was, now, damage.value, p, k);
      }
    }
  }
}
