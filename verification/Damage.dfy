/** Comparing two display lists: the areas in which their pictures can differ. */
module Damage {
  import opened Basics
  import opened Geometry
  import opened Drawing
  import opened Display

  /** `Near` takes two rectangles for one when they come closer than this on both axes. */
  const MERGE_GAP: real := 8.0
  /** More separate rectangles than this are merged into one. */
  const MAX_RECTS: nat := 16

  /** Equality of two commands of different lists, spans compared by what they stand for. */
  predicate SameCmd(ca: Cmd, pointsA: seq<Point>, stringsA: string, cb: Cmd, pointsB: seq<Point>, stringsB: string)
    requires Held(ca, |pointsA|, |stringsA|) && Held(cb, |pointsB|, |stringsB|)
  {
    match (ca, cb)
    case (Polyline(pa, ka, wa), Polyline(pb, kb, wb)) =>
      ka == kb && wa == wb && Slice(pointsA, pa) == Slice(pointsB, pb)
    case (Graph(pa, ka, wa), Graph(pb, kb, wb)) =>
      ka == kb && wa == wb && Slice(pointsA, pa) == Slice(pointsB, pb)
    case (FillPolygon(pa, ka), FillPolygon(pb, kb)) =>
      ka == kb && Slice(pointsA, pa) == Slice(pointsB, pb)
    case (Band(ta, ba, ka), Band(tb, bb, kb)) =>
      ka == kb && Slice(pointsA, ta) == Slice(pointsB, tb) && Slice(pointsA, ba) == Slice(pointsB, bb)
    case (Text(ta, ra, la, ka), Text(tb, rb, lb, kb)) =>
      // Spans may differ; the characters may not.
      Cmd.Text(ta, ra, la, ka) == Cmd.Text(ta, rb, lb, kb) && Slice(stringsA, ta) == Slice(stringsB, tb)
    case (Image(pa, ra), Image(pb, rb)) =>
      ra == rb && Slice(stringsA, pa) == Slice(stringsB, pb)
    case _ => ca == cb
  }

  /** Where the arenas hold things does not matter, only what they hold. */
  lemma SameIsResolvedSame(
    ca: Cmd, pointsA: seq<Point>, stringsA: string, cb: Cmd, pointsB: seq<Point>, stringsB: string)
    requires Held(ca, |pointsA|, |stringsA|) && Held(cb, |pointsB|, |stringsB|)
    ensures SameCmd(ca, pointsA, stringsA, cb, pointsB, stringsB)
      <==> Resolve(ca, pointsA, stringsA) == Resolve(cb, pointsB, stringsB)
  {
  }

  // Which lists can be compared, and what drawing makes of their differences

  /** Command by command, the frames differ only in what they draw, not in structure. */
  predicate Comparable(was: seq<Drawn>, now: seq<Drawn>) {
    && |was| == |now|
    && forall i :: 0 <= i < |was| && (Structural(was[i]) || Structural(now[i])) ==> was[i] == now[i]
  }

  /** One of two commands clears everything, or moves the clip. */
  predicate Restructured(a: Drawn, b: Drawn) {
    a.Clear? || a.PushClip? || a.PopClip? || b.Clear? || b.PushClip? || b.PopClip?
  }

  lemma ComparableIs(was: seq<Drawn>, now: seq<Drawn>)
    ensures Comparable(was, now) <==>
      |was| == |now| && forall i :: 0 <= i < |was| && Restructured(was[i], now[i]) ==> was[i] == now[i]
  {
  }

  predicate Covered(rects: seq<Rect>, p: Point) {
    exists i :: 0 <= i < |rects| && rects[i].Contains(p)
  }

  /** The area `c` can paint, cut to the clip in force, if there is any. */
  function Cut(c: Drawn, clips: seq<Rect>): seq<Rect>
    requires !Structural(c)
  {
    var r := if clips == [] then Bounds(c).value else Last(clips).Intersect(Bounds(c).value);
    if r.IsEmpty() then [] else [r]
  }

  /** The areas of all the commands that differ, old and new. */
  function Changed(was: seq<Drawn>, now: seq<Drawn>): seq<Rect>
    requires Comparable(was, now)
  {
    if was == [] then []
    else
      Changed(Front(was), Front(now))
      + if Last(was) == Last(now) then [] else Cut(Last(was), Clips(Front(was))) + Cut(Last(now), Clips(Front(was)))
  }

  /** Comparable lists clip alike. */
  lemma {:induction false} SameClips(was: seq<Drawn>, now: seq<Drawn>)
    requires Comparable(was, now)
    ensures Clips(was) == Clips(now)
  {
    if was != [] {
      assert Last(was) == was[|was| - 1] && Last(now) == now[|was| - 1];
      SameClips(Front(was), Front(now));
    }
  }

  /** Outside the area it was cut to, a command changes nothing. */
  lemma CutIsAll(ink: Ink, c: Drawn, clips: seq<Rect>, p: Point, k: Color)
    requires Paints(ink) && !Structural(c) && !Covered(Cut(c, clips), p) && Unclipped(clips, p)
    ensures ink(c, p, k) == k
  {
    var b := Bounds(c).value;
    var r := if clips == [] then b else Last(clips).Intersect(b);
    EmptyHolds(r, p);
    if clips != [] {
      IntersectHolds(Last(clips), b, p);
    }
    assert !r.IsEmpty() ==> Cut(c, clips)[0] == r;
    OutsideStays(ink, c, p, k);
  }

  /** At a point no change covers, both frames are the same color. */
  lemma {:induction false} UnchangedElsewhere(ink: Ink, was: seq<Drawn>, now: seq<Drawn>, p: Point, k: Color)
    requires Paints(ink) && Comparable(was, now) && !Covered(Changed(was, now), p)
    ensures ColorAt(ink, was, p, k) == ColorAt(ink, now, p, k)
  {
    hide Paints, Bounds;
    if was != [] {
      var before, a, b := Changed(Front(was), Front(now)), Last(was), Last(now);
      var more := Changed(was, now)[|before|..];
      CoveredParts(before, more, p);
      assert before + more == Changed(was, now);
      UnchangedElsewhere(ink, Front(was), Front(now), p, k);
      SameClips(Front(was), Front(now));
      assert Structural(a) || Structural(b) ==> a == b by {
        assert a == was[|was| - 1] && b == now[|was| - 1];
      }
      if a != b && Unclipped(Clips(Front(was)), p) {
        var clips, l := Clips(Front(was)), ColorAt(ink, Front(was), p, k);
        assert more == Cut(a, clips) + Cut(b, clips);
        CoveredParts(Cut(a, clips), Cut(b, clips), p);
        CutIsAll(ink, a, clips, p, l);
        CutIsAll(ink, b, clips, p, l);
      }
    }
  }

  lemma CoveredParts(a: seq<Rect>, b: seq<Rect>, p: Point)
    ensures Covered(a + b, p) <==> Covered(a, p) || Covered(b, p)
  {
    assert forall i :: 0 <= i < |a| ==> (a + b)[i] == a[i];
    assert forall i :: 0 <= i < |b| ==> (a + b)[|a| + i] == b[i];
  }

  /** Command `n` differs, and one of its two forms reaches to `p` where it is not clipped. */
  ghost predicate DiffersAt(was: seq<Drawn>, now: seq<Drawn>, p: Point, n: nat)
    requires Comparable(was, now)
  {
    && n < |was| && was[n] != now[n] && Unclipped(Clips(was[..n]), p)
    && (Bounds(was[n]).value.Contains(p) || Bounds(now[n]).value.Contains(p))
  }

  lemma CutHolds(c: Drawn, clips: seq<Rect>, p: Point)
    requires !Structural(c)
    ensures Covered(Cut(c, clips), p) <==> Bounds(c).value.Contains(p) && Unclipped(clips, p)
  {
    hide Bounds, Rect.Intersect, Rect.Contains, Rect.IsEmpty;
    var b := Bounds(c).value;
    var r := if clips == [] then b else Last(clips).Intersect(b);
    EmptyHolds(r, p);
    if clips != [] {
      IntersectHolds(Last(clips), b, p);
    }
    assert !r.IsEmpty() ==> Cut(c, clips) == [r] && Cut(c, clips)[0] == r;
  }

  /** The changed areas cover a point if and only if a command that differs reaches there. */
  lemma {:induction false} ChangedIff(was: seq<Drawn>, now: seq<Drawn>, p: Point)
    requires Comparable(was, now)
    ensures Covered(Changed(was, now), p) <==> exists n: nat :: DiffersAt(was, now, p, n)
  {
    hide Comparable, Covered, Changed;
    if was == [] {
      NothingChanged(now, p);
    } else {
      ComparableFront(was, now);
      ChangedIff(Front(was), Front(now), p);
      LastChanged(was, now, p);
      hide DiffersAt;
      forall n: nat
        ensures DiffersAt(was, now, p, n) ==> n < |was|
        ensures n < |was| - 1 ==> (DiffersAt(was, now, p, n) <==> DiffersAt(Front(was), Front(now), p, n))
        ensures DiffersAt(Front(was), Front(now), p, n) ==> n < |was| - 1
      {
        FrontDiffers(was, now, p, n);
      }
    }
  }

  lemma NothingChanged(now: seq<Drawn>, p: Point)
    requires Comparable([], now)
    ensures !Covered(Changed([], now), p)
  {
  }

  lemma ComparableFront(was: seq<Drawn>, now: seq<Drawn>)
    requires Comparable(was, now) && was != []
    ensures now != [] && Comparable(Front(was), Front(now))
  {
  }

  lemma FrontDiffers(was: seq<Drawn>, now: seq<Drawn>, p: Point, n: nat)
    requires Comparable(was, now) && was != [] && now != [] && Comparable(Front(was), Front(now))
    ensures DiffersAt(was, now, p, n) ==> n < |was|
    ensures n < |was| - 1 ==> (DiffersAt(was, now, p, n) <==> DiffersAt(Front(was), Front(now), p, n))
    ensures DiffersAt(Front(was), Front(now), p, n) ==> n < |was| - 1
  {
    hide Bounds, Clips, Unclipped, Rect.Contains;
    assert n < |was| - 1 ==> Front(was)[..n] == was[..n];
  }

  lemma LastChanged(was: seq<Drawn>, now: seq<Drawn>, p: Point)
    requires Comparable(was, now) && was != [] && now != [] && Comparable(Front(was), Front(now))
    ensures Covered(Changed(was, now), p) <==> Covered(Changed(Front(was), Front(now)), p) || DiffersAt(was, now, p, |was| - 1)
  {
    hide Bounds, Cut, Rect.Contains, Covered, Clips, Unclipped;
    var m := |was| - 1;
    var a, b, clips := Last(was), Last(now), Clips(Front(was));
    assert was[..m] == Front(was);
    assert a == was[m] && b == now[m];
    if a != b {
      CoveredParts(Changed(Front(was), Front(now)), Cut(a, clips) + Cut(b, clips), p);
      CoveredParts(Cut(a, clips), Cut(b, clips), p);
      CutHolds(a, clips, p);
      CutHolds(b, clips, p);
    } else {
      assert Changed(Front(was), Front(now)) + [] == Changed(Front(was), Front(now));
    }
  }

  // Merging

  /** Whether two rectangles overlap or come within the gap of each other. */
  predicate Near(a: Rect, b: Rect) {
    && a.x <= b.Right() + MERGE_GAP
    && b.x <= a.Right() + MERGE_GAP
    && a.y <= b.Bottom() + MERGE_GAP
    && b.y <= a.Bottom() + MERGE_GAP
  }

  predicate EightApart(a: Rect, b: Rect, p: Point, q: Point) {
    InRect(a, p) && InRect(b, q) && -8.0 <= p.x - q.x <= 8.0 && -8.0 <= p.y - q.y <= 8.0
  }

  /** Rectangles are near if and only if somewhere they are eight or less apart on both axes. */
  lemma NearIff(a: Rect, b: Rect)
    requires a.w >= 0.0 && a.h >= 0.0 && b.w >= 0.0 && b.h >= 0.0
    ensures Near(a, b) <==> exists p, q :: EightApart(a, b, p, q)
  {
    var p := Point(MaxR(a.x, MinR(b.x, a.Right())), MaxR(a.y, MinR(b.y, a.Bottom())));
    var q := Point(MinR(MaxR(p.x, b.x), b.Right()), MinR(MaxR(p.y, b.y), b.Bottom()));
    if Near(a, b) {
      assert EightApart(a, b, p, q);
    }
  }

  /** No point is lost, and nothing reaches further than the rectangles did together. */
  ghost predicate Holds(rects: seq<Rect>, all: seq<Rect>) {
    && (forall p :: Covered(all, p) ==> Covered(rects, p))
    && (forall outer :: AllWithin(all, outer) ==> AllWithin(rects, outer))
  }

  predicate AllWithin(rects: seq<Rect>, outer: Rect) {
    forall i :: 0 <= i < |rects| ==> Within(rects[i], outer)
  }

  predicate Scattered(rects: seq<Rect>) {
    forall i, j :: 0 <= i < j < |rects| ==> !Near(rects[i], rects[j])
  }

  /** Two rectangles become one, the last taking the second's place. */
  function Joined(rects: seq<Rect>, i: nat, j: nat): (r: seq<Rect>)
    requires i < j < |rects|
    ensures |r| == |rects| - 1
  {
    rects[i := Union(rects[i], rects[j])][j := rects[|rects| - 1]][..|rects| - 1]
  }

  lemma JoinedHolds(rects: seq<Rect>, i: nat, j: nat, all: seq<Rect>)
    requires i < j < |rects| && Holds(rects, all)
    ensures Holds(Joined(rects, i, j), all)
  {
    var r := Joined(rects, i, j);
    forall p | Covered(all, p)
      ensures Covered(r, p)
    {
      var m :| 0 <= m < |rects| && rects[m].Contains(p);
      JoinedCovers(rects, i, j, m, p);
    }
    forall outer | AllWithin(all, outer)
      ensures AllWithin(r, outer)
    {
      assert AllWithin(rects, outer);
      UnionIsHull(rects[i], rects[j], outer);
    }
  }

  lemma JoinedCovers(rects: seq<Rect>, i: nat, j: nat, m: nat, p: Point)
    requires i < j < |rects| && m < |rects| && rects[m].Contains(p)
    ensures Covered(Joined(rects, i, j), p)
  {
    var r := Joined(rects, i, j);
    UnionIsHull(rects[i], rects[j], ZERO);
    if m == i || m == j {
      WithinHolds(rects[m], Union(rects[i], rects[j]), p);
      assert r[i].Contains(p);
    } else if m == |rects| - 1 {
      assert r[j].Contains(p);
    } else {
      assert r[m].Contains(p);
    }
  }

  /** One pass of rectangle `i` over those from `j` on: what it takes in is joined to it.
      And whether it took in any. */
  function Sweep(rects: seq<Rect>, i: nat, j: nat): (r: (seq<Rect>, bool))
    requires i < j && i < |rects|
    ensures i < |r.0| <= |rects| && (r.1 ==> |r.0| < |rects|) && (!r.1 ==> r.0 == rects)
    decreases |rects|, |rects| - j
  {
    if j >= |rects| then (rects, false)
    else if Near(rects[i], rects[j]) then (Sweep(Joined(rects, i, j), i, j).0, true)
    else Sweep(rects, i, j + 1)
  }

  /** The rectangles passed over and over, each until it takes in no more; and of each,
      whether it ever did. */
  datatype Settled = Settled(rects: seq<Rect>, grown: seq<bool>)

  /** Goes on from where the first few are done with, and `growing` says whether the next
      has taken any in. */
  function Settle(rects: seq<Rect>, grown: seq<bool>, growing: bool): (s: Settled)
    requires |grown| <= |rects|
    ensures |s.rects| == |s.grown| <= |rects|
    decreases |rects|, |rects| - |grown|
  {
    if |grown| == |rects| then Settled(rects, grown)
    else
      var (r, grew) := Sweep(rects, |grown|, |grown| + 1);
      if grew then Settle(r, grown, true) else Settle(r, grown + [growing], false)
  }

  function Hull(rects: seq<Rect>): Rect
    requires rects != []
  {
    if |rects| == 1 then rects[0] else Union(Hull(rects[..|rects| - 1]), rects[|rects| - 1])
  }

  /** What merging makes of some rectangles. */
  function Merged(all: seq<Rect>): seq<Rect> {
    var s := Settle(all, [], false);
    if |s.rects| > MAX_RECTS then [Hull(s.rects)] else s.rects
  }

  /** Each rectangle takes in what is near it, and too many become one. */
  method Merge(all: seq<Rect>) returns (rects: seq<Rect>)
    ensures rects == Merged(all)
    ensures Holds(rects, all) && |rects| <= MAX_RECTS && |rects| <= |all|
    ensures Scattered(all) && |all| <= MAX_RECTS ==> rects == all
  {
    hide Holds, Joined;
    HoldsItself(all);
    rects := all;
    var i := 0;
    ghost var grown: seq<bool>, growing := [], false;
    while i < |rects|
      invariant Holds(rects, all) && |rects| <= |all|
      invariant Scattered(all) ==> rects == all
      invariant |grown| == i <= |rects| && Settle(all, [], false) == Settle(rects, grown, growing)
      decreases |rects|, |rects| - i
    {
      var grew := false;
      var j := i + 1;
      ghost var before := rects;
      while j < |rects|
        invariant i < j && i < |rects| && Holds(rects, all)
        invariant |rects| <= |before| <= |all| && (grew ==> |rects| < |before|) && (!grew ==> rects == before)
        invariant Scattered(all) ==> rects == all && !grew
        invariant Sweep(before, i, i + 1) == (Sweep(rects, i, j).0, grew || Sweep(rects, i, j).1)
        decreases |rects| - j
      {
        if Near(rects[i], rects[j]) {
          JoinedHolds(rects, i, j, all);
          rects := Joined(rects, i, j);
          grew := true;
        } else {
          j := j + 1;
        }
      }
      // What has grown may be near some that it was not near before.
      if grew {
        growing := true;
      } else {
        i := i + 1;
        grown, growing := grown + [growing], false;
      }
    }
    if |rects| > MAX_RECTS {
      rects := JoinAll(rects, all);
    }
  }

  // When rectangles near each other are left

  /** Nothing past rectangle `i` has grown yet, and of those before it, each is near none
      of the others but such as have. */
  ghost predicate SettledSoFar(rects: seq<Rect>, grown: seq<bool>, growing: bool) {
    && |grown| <= |rects|
    && (forall k, j :: 0 <= k < j < |grown| && Near(rects[k], rects[j]) ==> grown[j])
    && (forall k, j :: 0 <= k < |grown| <= j < |rects| && Near(rects[k], rects[j]) ==> j == |grown| && growing)
  }

  /** One of the rectangles past the one numbered `i`. */
  ghost predicate Past(rects: seq<Rect>, i: nat, r: Rect) {
    exists n :: i < n < |rects| && rects[n] == r
  }

  /** A pass leaves nothing near that it has gone by, and moves the others about at most. */
  lemma {:induction false} SweepLeaves(rects: seq<Rect>, i: nat, j: nat)
    requires i < j && i < |rects|
    ensures Sweep(rects, i, j).0[..i] == rects[..i]
    ensures forall m :: i < m < |Sweep(rects, i, j).0| ==> Past(rects, i, Sweep(rects, i, j).0[m])
    ensures !Sweep(rects, i, j).1 ==> forall m :: j <= m < |rects| ==> !Near(rects[i], rects[m])
    decreases |rects|, |rects| - j
  {
    if j < |rects| {
      if Near(rects[i], rects[j]) {
        var less := Joined(rects, i, j);
        SweepLeaves(less, i, j);
        forall m | i < m < |Sweep(rects, i, j).0|
          ensures Past(rects, i, Sweep(rects, i, j).0[m])
        {
          assert Past(less, i, Sweep(less, i, j).0[m]);
          var n :| i < n < |less| && less[n] == Sweep(less, i, j).0[m];
          assert less[n] == if n == j then rects[|rects| - 1] else rects[n];
        }
      } else {
        SweepLeaves(rects, i, j + 1);
      }
    } else {
      forall m | i < m < |Sweep(rects, i, j).0|
        ensures Past(rects, i, Sweep(rects, i, j).0[m])
      {
        assert rects[m] == Sweep(rects, i, j).0[m];
      }
    }
  }

  lemma {:induction false} SettleLeaves(rects: seq<Rect>, grown: seq<bool>, growing: bool)
    requires SettledSoFar(rects, grown, growing)
    ensures SettledSoFar(Settle(rects, grown, growing).rects, Settle(rects, grown, growing).grown, false)
    decreases |rects|, |rects| - |grown|
  {
    if |grown| < |rects| {
      var i := |grown|;
      var (r, grew) := Sweep(rects, i, i + 1);
      SweepLeaves(rects, i, i + 1);
      assert forall k :: 0 <= k < i ==> r[k] == r[..i][k] == rects[k];
      assert forall m :: i < m < |r| ==> Past(rects, i, r[m]);
      if grew {
        SettleLeaves(r, grown, true);
      } else {
        SettleLeaves(r, grown + [growing], false);
      }
    }
  }

  /** Of two rectangles left that are near each other the later has grown, and not been
      looked at again from the earlier one's side. So none near each other are left if and
      only if none that has grown is near an earlier one. */
  lemma ScatteredIff(all: seq<Rect>)
    ensures var s := Settle(all, [], false);
      Scattered(s.rects) <==> forall i, j :: 0 <= i < j < |s.rects| && s.grown[j] ==> !Near(s.rects[i], s.rects[j])
  {
    hide Settle, Near;
    SettleLeaves(all, [], false);
  }

  /** Two rectangles that grow together until they hold a third, which was near neither. */
  lemma NearOnesLeft()
    ensures var a, b, c := Rect(0.0, 0.0, 10.0, 10.0), Rect(30.0, 0.0, 10.0, 40.0), Rect(0.0, 30.0, 35.0, 10.0);
      Merged([a, b, c]) == [a, Rect(0.0, 0.0, 40.0, 40.0)] && !Scattered(Merged([a, b, c]))
  {
    var a, b, c := Rect(0.0, 0.0, 10.0, 10.0), Rect(30.0, 0.0, 10.0, 40.0), Rect(0.0, 30.0, 35.0, 10.0);
    var d := Rect(0.0, 0.0, 40.0, 40.0);
    hide *;
    NearThere(a, b, c, d);
    LastTwoJoin(a, b, c, d);
    MergedFew([a, b, c], [a, d], [false, true]);
    NotApart(a, d);
  }

  lemma MergedFew(all: seq<Rect>, rects: seq<Rect>, grown: seq<bool>)
    requires Settle(all, [], false) == Settled(rects, grown) && |rects| == 2
    ensures Merged(all) == rects
  {
  }

  lemma NotApart(a: Rect, b: Rect)
    requires Near(a, b)
    ensures !Scattered([a, b])
  {
    assert [a, b][0] == a && [a, b][1] == b;
  }

  /** Where just the last two of three are near each other, they join, whatever that is
      near then. */
  lemma LastTwoJoin(a: Rect, b: Rect, c: Rect, d: Rect)
    requires !Near(a, b) && !Near(a, c) && Near(b, c) && d == Union(b, c)
    ensures Settle([a, b, c], [], false) == Settled([a, d], [false, true])
  {
    var all, two := [a, b, c], [a, d];
    hide Near, Sweep, Settle, Union;
    Goes(all, 0, 1);
    Goes(all, 0, 2);
    Goes(all, 0, 3);
    Goes(all, 1, 2);
    Goes(two, 1, 2);
    assert Joined(all, 1, 2) == two;
    Settles(all, [], false);
    Settles(all, [false], false);
    Settles(two, [false], true);
    Settles(two, [false, true], false);
    assert [] + [false] == [false] && [false] + [true] == [false, true];
  }

  lemma NearThere(a: Rect, b: Rect, c: Rect, d: Rect)
    requires a == Rect(0.0, 0.0, 10.0, 10.0) && b == Rect(30.0, 0.0, 10.0, 40.0) && c == Rect(0.0, 30.0, 35.0, 10.0)
    requires d == Rect(0.0, 0.0, 40.0, 40.0)
    ensures !Near(a, b) && !Near(a, c) && Near(b, c) && Near(a, d) && Union(b, c) == d
  {
  }

  lemma Goes(rects: seq<Rect>, i: nat, j: nat)
    requires i < j && i < |rects|
    ensures Sweep(rects, i, j) ==
      if j >= |rects| then (rects, false)
      else if Near(rects[i], rects[j]) then (Sweep(Joined(rects, i, j), i, j).0, true)
      else Sweep(rects, i, j + 1)
  {
  }

  lemma Settles(rects: seq<Rect>, grown: seq<bool>, growing: bool)
    requires |grown| <= |rects|
    ensures Settle(rects, grown, growing) ==
      if |grown| == |rects| then Settled(rects, grown)
      else
        var (r, grew) := Sweep(rects, |grown|, |grown| + 1);
        if grew then Settle(r, grown, true) else Settle(r, grown + [growing], false)
  {
  }

  lemma HoldsItself(all: seq<Rect>)
    ensures Holds(all, all)
  {
  }

  method JoinAll(rects: seq<Rect>, ghost all: seq<Rect>) returns (one: seq<Rect>)
    requires Holds(rects, all) && rects != []
    ensures Holds(one, all) && one == [Hull(rects)]
  {
    var r := rects[0];
    for i := 1 to |rects|
      invariant r == Hull(rects[..i])
      invariant forall m :: 0 <= m < i ==> Within(rects[m], r)
      invariant forall outer :: AllWithin(rects, outer) ==> Within(r, outer)
    {
      forall outer: Rect | true
        ensures Within(r, Union(r, rects[i])) && Within(rects[i], Union(r, rects[i]))
        ensures AllWithin(rects, outer) ==> Within(Union(r, rects[i]), outer)
      {
        UnionIsHull(r, rects[i], outer);
      }
      assert rects[..i + 1][..i] == rects[..i];
      r := Union(r, rects[i]);
    }
    assert rects[..|rects|] == rects;
    one := [r];
    forall p | Covered(all, p)
      ensures Covered(one, p)
    {
      var m :| 0 <= m < |rects| && rects[m].Contains(p);
      WithinHolds(rects[m], r, p);
      assert one[0].Contains(p);
    }
  }

  /** Outside what the merged rectangles hold, nothing differs. */
  lemma UnchangedOutside(ink: Ink, was: seq<Drawn>, now: seq<Drawn>, rects: seq<Rect>, p: Point, k: Color)
    requires Paints(ink) && Comparable(was, now) && Holds(rects, Changed(was, now)) && !Covered(rects, p)
    ensures ColorAt(ink, was, p, k) == ColorAt(ink, now, p, k)
  {
    UnchangedElsewhere(ink, was, now, p, k);
  }

  /** Frames that draw the same have no damage. */
  lemma {:induction false} SameIsUndamaged(was: seq<Drawn>)
    ensures Comparable(was, was) && Changed(was, was) == []
  {
    if was != [] {
      SameIsUndamaged(Front(was));
    }
  }

  /** `Merged` of the areas in `Changed`, provided the two lists are `Comparable`; `told` says
      whether they are. */
  method DamageSince(list: DisplayList, prev: DisplayList) returns (told: bool, out: seq<Rect>)
    requires list.Valid() && prev.Valid()
    ensures told <==> Comparable(prev.Shown(), list.Shown())
    ensures told <==>
      && |prev.Shown()| == |list.Shown()|
      && forall i :: 0 <= i < |list.Shown()| && Restructured(prev.Shown()[i], list.Shown()[i]) ==>
           prev.Shown()[i] == list.Shown()[i]
    ensures told ==> out == Merged(Changed(prev.Shown(), list.Shown()))
    ensures told ==> Holds(out, Changed(prev.Shown(), list.Shown())) && |out| <= MAX_RECTS
    ensures told && Scattered(Changed(prev.Shown(), list.Shown())) && |Changed(prev.Shown(), list.Shown())| <= MAX_RECTS ==>
      out == Changed(prev.Shown(), list.Shown())
  {
    hide Holds, Scattered, Resolve, Held, Bounds, SameCmd, Ordered, Depth, Merged;
    out := [];
    if |list.cmds| != |prev.cmds| {
      return false, [];
    }
    ghost var was, now := prev.Shown(), list.Shown();
    // Comparable lists push and pop alike, so `clips` holds for either.
    var clips: seq<Rect> := [];
    for n := 0 to |list.cmds|
      invariant Comparable(was[..n], now[..n]) && clips == Clips(was[..n]) && out == Changed(was[..n], now[..n])
    {
      var old_, new_ := prev.cmds[n], list.cmds[n];
      ghost var a, b := was[n], now[n];
      SameIsResolvedSame(old_, prev.points, prev.strings, new_, list.points, list.strings);
      var same := SameCmd(old_, prev.points, prev.strings, new_, list.points, list.strings);
      ResolvedKind(old_, prev.points, prev.strings);
      ResolvedKind(new_, list.points, list.strings);
      Step(was, now, n);
      if old_.PushClip? && new_.PushClip? && same {
        clips := clips + [if clips == [] then new_.rect else Last(clips).Intersect(new_.rect)];
      } else if old_.PopClip? && new_.PopClip? {
        clips := if clips == [] then [] else Front(clips);
      } else if same {
      } else if Structural(old_) || Structural(new_) {
        return false, [];
      } else {
        var before := Resolve(old_, prev.points, prev.strings);
        var after := Resolve(new_, list.points, list.strings);
        out := out + Cut(before, clips) + Cut(after, clips);
      }
    }
    assert was[..|was|] == was && now[..|now|] == now;
    out := Merge(out);
    told := true;
  }

  lemma Step(was: seq<Drawn>, now: seq<Drawn>, n: nat)
    requires n < |was| == |now| && Comparable(was[..n], now[..n])
    ensures Comparable(was, now) && (Structural(was[n]) || Structural(now[n])) ==> was[n] == now[n]
    ensures was[n] == now[n] || !(Structural(was[n]) || Structural(now[n])) ==>
      Comparable(was[..n + 1], now[..n + 1])
      && Changed(was[..n + 1], now[..n + 1]) == Changed(was[..n], now[..n])
        + if was[n] == now[n] then [] else Cut(was[n], Clips(was[..n])) + Cut(now[n], Clips(was[..n]))
    ensures Clips(was[..n + 1]) ==
      match was[n]
      case PushClip(r) => Clips(was[..n]) + [if Clips(was[..n]) == [] then r else Last(Clips(was[..n])).Intersect(r)]
      case PopClip => if Clips(was[..n]) == [] then [] else Front(Clips(was[..n]))
      case _ => Clips(was[..n])
  {
    assert Front(was[..n + 1]) == was[..n] && Front(now[..n + 1]) == now[..n];
    assert forall i :: 0 <= i < n ==> was[..n + 1][i] == was[..n][i] && now[..n + 1][i] == now[..n][i];
    assert was[..n + 1][n] == was[n] && now[..n + 1][n] == now[n];
  }
}
