/** How many steps a usage history is held in, at a reach that does not change. */
module UsageReach {
  import opened Basics
  import opened UsageFade
  import opened UsageFolds
  import opened UsageHistory

  /** What a history holds at a reach that has not changed: what has left, the steps and
      the raw stretches are all there was, in order; the steps are each whole, there only
      behind as many raw stretches as there is room for, and none ends beyond the reach. */
  ghost predicate Holding(
    reach: int, log: seq<Stretch>, aged: seq<seq<Stretch>>, steps: seq<seq<Stretch>>, raw: seq<Stretch>)
  {
    && Tiled(log) && raw != [] && log == Flatten(aged) + Flatten(steps) + raw
    && Cut(steps, StepMs(reach))
    && (steps != [] ==> |raw| == RAW_FRAMES)
    && (forall i :: 0 <= i < |steps| ==> steps[i] != [] && steps[i][|steps[i]| - 1].end >= log[|log| - 1].end - reach)
  }

  /** That is how a history is, all along, from pushing stretch after stretch. */
  lemma HistoryHolds(h: History)
    requires h.Valid() && h.raw != [] && h.StepsCut(StepMs(h.reach)) && h.Brimming()
    requires h.HeldWithin(h.log[|h.log| - 1].end - h.reach)
    ensures Holding(h.reach, h.log, h.aged, h.Steps(), h.raw)
  {
    hide *;
    LogParts(h);
    forall i | 0 <= i < |h.Steps()|
      ensures h.Steps()[i] != [] && h.Steps()[i][|h.Steps()[i]| - 1].end >= h.log[|h.log| - 1].end - h.reach
    {
      StepHeld(h, i, h.log[|h.log| - 1].end - h.reach);
    }
    HoldingIf(h);
  }

  lemma HoldingIf(h: History)
    requires Tiled(h.log) && h.raw != [] && h.log == Flatten(h.aged) + Flatten(h.Steps()) + h.raw
    requires h.StepsCut(StepMs(h.reach)) && h.Brimming()
    requires forall i :: 0 <= i < |h.Steps()| ==>
      h.Steps()[i] != [] && h.Steps()[i][|h.Steps()[i]| - 1].end >= h.log[|h.log| - 1].end - h.reach
    ensures Holding(h.reach, h.log, h.aged, h.Steps(), h.raw)
  {
    hide Tiled, Flatten, Cut;
  }

  lemma LogParts(h: History)
    requires h.Valid()
    ensures Tiled(h.log) && h.log == Flatten(h.aged) + Flatten(h.Steps()) + h.raw
  {
    hide Tiled, IsFold, Replayed, Flatten, AreFolds;
    h.HeldAreFolds();
    FlattenAppend(h.Steps(), Singles(h.raw));
    FlattenSingles(h.raw);
  }

  lemma StepHeld(h: History, i: nat, horizon: int)
    requires h.Valid() && h.HeldWithin(horizon) && i < |h.Steps()|
    ensures h.Steps()[i] != [] && h.Steps()[i][|h.Steps()[i]| - 1].end >= horizon
  {
    hide Tiled, IsFold, Replayed, Flatten;
    h.HeldAreFolds();
    assert h.Groups()[i] == h.Steps()[i] && IsFold(h.Held()[i], h.Groups()[i]);
    FoldEnds(h.Held()[i], h.Steps()[i]);
  }

  // No more than so many

  /** The most steps a reach is held in: as many of their width as it takes to go back
      from the raw stretches to its end, and one. */
  function MostSteps(reach: int): int {
    1 + (reach - RAW_FRAMES + StepMs(reach) - 1) / StepMs(reach)
  }

  /** Each step ends further on than the one before, in a later step of the clock. */
  lemma {:induction false} StepsAdvance(steps: seq<seq<Stretch>>, w: int, n: nat)
    requires w > 0 && Cut(steps, w) && Tiled(Flatten(steps)) && n < |steps|
    ensures steps[0] != [] && steps[n] != [] && steps[n][0].end / w >= steps[0][0].end / w + n
    decreases n
  {
    if n > 0 {
      StepsAdvance(steps, w, n - 1);
      assert steps[n - 1] != [] && steps[n] != [];
      StepsInOrder(steps, n);
      Monotone(steps[n - 1][0].end, steps[n][0].end, w);
      assert steps[n - 1][0].end / w != steps[n][0].end / w;
    }
  }

  lemma StepsInOrder(steps: seq<seq<Stretch>>, n: nat)
    requires 0 < n < |steps| && Tiled(Flatten(steps)) && steps[n - 1] != [] && steps[n] != []
    ensures steps[n - 1][0].end <= steps[n][0].end
  {
    hide Tiled, Flatten;
    var pair := [steps[n - 1], steps[n]];
    FlattenAppend(steps[..n + 1], steps[n + 1..]);
    assert steps[..n + 1] + steps[n + 1..] == steps;
    TiledPart(Flatten(steps[..n + 1]), Flatten(steps[n + 1..]));
    FlattenAppend(steps[..n - 1], pair);
    assert steps[..n - 1] + pair == steps[..n + 1];
    TiledPart(Flatten(steps[..n - 1]), Flatten(pair));
    FlattenSnoc(pair);
    assert pair[..1] == [steps[n - 1]];
    FlattenOne(steps[n - 1]);
    assert Flatten(pair) == steps[n - 1] + steps[n];
    TiledOrder(Flatten(pair), 0, |steps[n - 1]|);
  }

  /** So many raw stretches take at least so many milliseconds. */
  lemma {:induction false} TakesTime(fs: seq<Stretch>)
    requires Tiled(fs) && fs != []
    ensures fs[|fs| - 1].end - fs[0].Start() >= |fs|
  {
    if |fs| > 1 {
      var n := |fs| - 1;
      assert fs == fs[..n] + [fs[n]];
      TiledPart(fs[..n], [fs[n]]);
      TakesTime(fs[..n]);
    }
  }

  lemma FarApart(first: int, last: int, w: int, n: nat)
    requires w > 0 && last / w >= first / w + n
    ensures last - first > (n - 1) * w
  {
    var a, b := first / w, last / w;
    assert first < a * w + w && b * w <= last;
    Multiples(a + n, b, w);
    assert (a + n) * w == a * w + n * w;
  }

  lemma AtMost(n: nat, w: int, most: int)
    requires w > 0 && (n - 1) * w < most
    ensures n <= (most + w - 1) / w
  {
    var q := (most + w - 1) / w;
    assert most + w - 1 < q * w + w;
    if n > q {
      Multiples(q, n - 1, w);
    }
  }

  /** Whatever was recorded, a history is held in no more steps than that. */
  lemma StepsAtMost(reach: int, log: seq<Stretch>, aged: seq<seq<Stretch>>, steps: seq<seq<Stretch>>, raw: seq<Stretch>)
    requires Holding(reach, log, aged, steps, raw) && steps != []
    ensures |steps| <= MostSteps(reach)
  {
    hide Tiled, Cut, Flatten, StepMs;
    var w, n := StepMs(reach), |steps| - 1;
    TiledPart(Flatten(aged) + Flatten(steps), raw);
    TiledPart(Flatten(aged), Flatten(steps));
    StepsAdvance(steps, w, n);
    LastJoinsRaw(log, aged, steps, raw);
    TakesTime(raw);
    EndsInStep(steps, w, 0);
    EndsInStep(steps, w, n);
    FarApart(steps[0][|steps[0]| - 1].end, steps[n][|steps[n]| - 1].end, w, n);
    AtMost(n, w, reach - RAW_FRAMES);
  }

  lemma EndsInStep(steps: seq<seq<Stretch>>, w: int, i: nat)
    requires w > 0 && Cut(steps, w) && i < |steps|
    ensures steps[i] != [] && steps[i][|steps[i]| - 1].end / w == steps[i][0].end / w
  {
  }

  lemma LastJoinsRaw(log: seq<Stretch>, aged: seq<seq<Stretch>>, steps: seq<seq<Stretch>>, raw: seq<Stretch>)
    requires Tiled(log) && raw != [] && steps != [] && steps[|steps| - 1] != []
    requires log == Flatten(aged) + Flatten(steps) + raw
    ensures steps[|steps| - 1][|steps[|steps| - 1]| - 1].end == raw[0].Start() && log[|log| - 1] == raw[|raw| - 1]
  {
    hide Tiled;
    FlattenSnoc(steps);
    TiledPart(Flatten(aged) + Flatten(steps), raw);
  }

  // And as many, of some

  /** Stretches each in a step of its own, and then short ones, as many as are kept raw. */
  function Stairs(w: int, n: nat): Stretch
    requires w > 1
  {
    if n == 0 then BLANK.(end := w - 1, span := 1)
    else if n == 1 then BLANK.(end := w, span := 1)
    else if n <= STEPS then BLANK.(end := n * w, span := w)
    else BLANK.(end := STEPS * w + n - STEPS, span := 1)
  }

  const ALL: nat := STEPS + 1 + RAW_FRAMES

  function AllStairs(w: int, n: nat): seq<Stretch>
    requires w > 1
  {
    seq(n, i requires 0 <= i => Stairs(w, i))
  }

  lemma StairsTiled(w: int, n: nat)
    requires w > 1
    ensures Tiled(AllStairs(w, n))
    ensures forall i :: 0 <= i < n ==> AllStairs(w, n)[i].Formed() && AllStairs(w, n)[i].end >= w - 1
  {
    BlankFormed();
    var fs := AllStairs(w, n);
    forall j | 0 < j < n
      ensures fs[j - 1].end == fs[j].Start()
    {
      assert 2 <= j <= STEPS ==> (j - 1) * w == j * w - w;
    }
    forall i | 0 <= i < n
      ensures fs[i].Formed() && fs[i].end >= w - 1
    {
      if 2 <= i {
        Multiples(1, if i <= STEPS then i else STEPS, w);
      }
    }
  }

  lemma StairsSteps(w: int, i: nat)
    requires w > 1 && i <= STEPS
    ensures Stairs(w, i).end / w == i
  {
    if i >= 1 {
      DivisionUndoes(i, w);
    }
  }

  lemma DivisionUndoes(i: int, w: int)
    requires w > 0
    ensures i * w / w == i
  {
    var q := i * w / w;
    assert q * w <= i * w < q * w + w;
    if q < i {
      Multiples(q + 1, i, w);
    } else if q > i {
      Multiples(i + 1, q, w);
    }
  }

  /** Of stretches each in its own step of the clock no two are in one step. */
  lemma {:induction false} StepsOfOne(steps: seq<seq<Stretch>>, w: int)
    requires w > 1 && Cut(steps, w) && Flatten(steps) == AllStairs(w, |Flatten(steps)|) && |Flatten(steps)| <= STEPS + 1
    ensures |steps| == |Flatten(steps)|
  {
    if steps != [] {
      var most, last := steps[..|steps| - 1], steps[|steps| - 1];
      FlattenSnoc(steps);
      LastIsOne(steps, w, Flatten(most));
      CutMost(steps, w);
      hide Flatten, Stairs, Cut;
      assert Flatten(most) == Flatten(steps)[..|Flatten(steps)| - 1];
      assert AllStairs(w, |Flatten(steps)|)[..|Flatten(steps)| - 1] == AllStairs(w, |Flatten(steps)| - 1);
      StepsOfOne(most, w);
    } else {
      FlattenNone(steps);
    }
  }

  lemma LastIsOne(steps: seq<seq<Stretch>>, w: int, before: seq<Stretch>)
    requires w > 1 && Cut(steps, w) && steps != []
    requires before + steps[|steps| - 1] == AllStairs(w, |before| + |steps[|steps| - 1]|)
    requires |before| + |steps[|steps| - 1]| <= STEPS + 1
    ensures |steps[|steps| - 1]| == 1
  {
    hide Stairs;
    var last, b := steps[|steps| - 1], |before|;
    assert last != [];
    if |last| > 1 {
      assert last[0] == (before + last)[b] && last[1] == (before + last)[b + 1];
      assert last[1].end / w == last[0].end / w;
      StairsSteps(w, b);
      StairsSteps(w, b + 1);
    }
  }

  lemma CutMost(steps: seq<seq<Stretch>>, w: int)
    requires w > 0 && Cut(steps, w) && steps != []
    ensures Cut(steps[..|steps| - 1], w)
  {
  }

  /** The longest reach that is never held in more than 720 steps. */
  const WITHIN_720: int := 7_190_600

  lemma MostWithin(reach: int)
    requires reach >= STEP_MIN_MS
    ensures MostSteps(reach) <= STEPS <==> reach <= WITHIN_720
  {
    var w := StepMs(reach);
    if w == STEP_MIN_MS {
    } else {
      assert w == reach / STEPS && reach >= STEPS * w;
      Multiples(STEP_MIN_MS + 1, w, STEPS);
      AtLeast(reach - RAW_FRAMES + w - 1, STEPS, w);
    }
  }

  lemma AtLeast(x: int, n: int, w: int)
    requires w > 0 && x >= n * w
    ensures x / w >= n
  {
    DivisionUndoes(n, w);
    Monotone(n * w, x, w);
  }

  /** The stairs climbed: all within the reach, and a step to each but the raw ones. */
  lemma StairsHold(reach: int)
    requires reach > WITHIN_720
    ensures var w := StepMs(reach);
      exists steps, raw :: Holding(reach, AllStairs(w, ALL), [], steps, raw) && |steps| == STEPS + 1
  {
    var w := StepMs(reach);
    var log := AllStairs(w, ALL);
    var steps: seq<seq<Stretch>>, raw := Singles(log[..STEPS + 1]), log[STEPS + 1..];
    StairsTiled(w, ALL);
    StairsReach(reach);
    StairsCut(w);
    hide Tiled, Cut, Stairs, StepMs, Holding;
    SinglesHold(reach, log, STEPS + 1);
    assert Holding(reach, log, [], steps, raw);
  }

  lemma SinglesHold(reach: int, log: seq<Stretch>, n: nat)
    requires Tiled(log) && |log| == n + RAW_FRAMES && Cut(Singles(log[..n]), StepMs(reach))
    requires forall i :: 0 <= i < n ==> log[i].end >= log[|log| - 1].end - reach
    ensures Holding(reach, log, [], Singles(log[..n]), log[n..])
  {
    hide Tiled, Cut, StepMs;
    FlattenSingles(log[..n]);
    FlattenNone<Stretch>([]);
    assert log == [] + log[..n] + log[n..];
  }

  lemma StairsReach(reach: int)
    requires reach > WITHIN_720
    ensures var w := StepMs(reach); w > 1 && Stairs(w, ALL - 1).end - reach <= w - 1
  {
    var w := StepMs(reach);
    assert STEPS * w <= reach || w == STEP_MIN_MS;
  }

  lemma StairsCut(w: int)
    requires w > 1
    ensures Cut(Singles(AllStairs(w, ALL)[..STEPS + 1]), w)
  {
    hide Stairs;
    var steps: seq<seq<Stretch>> := Singles(AllStairs(w, ALL)[..STEPS + 1]);
    forall i, j | 0 <= i < |steps| && j == i + 1 < |steps|
      ensures steps[i][0].end / w != steps[j][0].end / w
    {
      StairsSteps(w, i);
      StairsSteps(w, j);
    }
  }

  /** A reach that does not change is held in 720 steps at most, whatever is recorded, if
      and only if it is no longer than just short of two hours. */
  lemma WithinSevenTwentyIff(reach: int)
    requires reach >= STEP_MIN_MS
    ensures (forall log, aged, steps, raw :: Holding(reach, log, aged, steps, raw) ==> |steps| <= STEPS)
      <==> reach <= WITHIN_720
  {
    hide Holding, MostSteps;
    MostWithin(reach);
    if reach <= WITHIN_720 {
      forall log, aged, steps, raw | Holding(reach, log, aged, steps, raw)
        ensures |steps| <= STEPS
      {
        if steps != [] {
          StepsAtMost(reach, log, aged, steps, raw);
        }
      }
    } else {
      StairsHold(reach);
    }
  }

  lemma NoSteps(h: History, w: int)
    requires w > 0 && h.Steps() == []
    ensures h.StepsCut(w) && h.Brimming()
  {
  }

  /** While the stairs are climbed none of them is beyond the reach. */
  lemma StairsEarly(reach: int, i: nat)
    requires reach > WITHIN_720 && i < ALL
    ensures StepMs(reach) > 1 && Stairs(StepMs(reach), i).end - reach <= StepMs(reach) - 1
  {
    var w := StepMs(reach);
    assert STEPS * w <= reach || w == STEP_MIN_MS;
    if 2 <= i <= STEPS {
      Multiples(i, STEPS, w);
    }
  }

  lemma NoneLeft(w: int, log: seq<Stretch>, aged: seq<seq<Stretch>>, rest: seq<Stretch>, horizon: int)
    requires w > 1 && log == AllStairs(w, |log|) && log == Flatten(aged) + rest && Aged([], aged, horizon) && horizon <= w - 1
    ensures aged == []
  {
    hide Stairs, Tiled;
    if aged != [] {
      StairsTiled(w, |log|);
      FlattenSnoc(aged);
      LastOfFirst(log, Flatten(aged[..|aged| - 1]), aged[|aged| - 1], rest);
    }
  }

  lemma LastOfFirst(log: seq<Stretch>, before: seq<Stretch>, last: seq<Stretch>, rest: seq<Stretch>)
    requires log == before + last + rest && last != []
    ensures |before| + |last| <= |log| && log[|before| + |last| - 1] == last[|last| - 1]
  {
  }

  lemma RawFills(w: int, all: seq<Stretch>, raw: seq<Stretch>, i: nat, horizon: int)
    requires w > 1 && horizon <= w - 1 && KeepsNewest(all, raw, horizon)
    requires |all| == Min(i, RAW_FRAMES) + 1 && |all| <= i + 1 && all == AllStairs(w, i + 1)[i + 1 - |all|..]
    ensures |raw| == Min(i + 1, RAW_FRAMES)
  {
    hide Stairs, Tiled;
    StairsTiled(w, i + 1);
    if |raw| < |all| {
      assert all[|all| - |raw| - 1] == AllStairs(w, i + 1)[i - |raw|];
    }
  }

  lemma StairsCounted(w: int, log: seq<Stretch>, aged: seq<seq<Stretch>>, steps: seq<seq<Stretch>>, raw: seq<Stretch>)
    requires w > 1 && log == AllStairs(w, ALL) && aged == [] && log == Flatten(aged) + Flatten(steps) + raw
    requires Cut(steps, w) && |raw| == RAW_FRAMES
    ensures |steps| == STEPS + 1
  {
    hide Stairs, Cut;
    FlattenNone(aged);
    assert Flatten(steps) == log[..STEPS + 1];
    assert AllStairs(w, ALL)[..STEPS + 1] == AllStairs(w, STEPS + 1);
    StepsOfOne(steps, w);
  }

  /** And any longer one is, by a run that this makes, in 721. */
  method ClimbStairs(rate: Rate, reach: int) returns (h: History)
    requires reach > WITHIN_720
    ensures h.Valid() && h.reach == reach && h.StepsCut(StepMs(reach)) && h.Brimming()
    ensures h.log == AllStairs(StepMs(reach), ALL) && |h.Steps()| == STEPS + 1
  {
    hide History.Valid, Tiled, Cut, Stairs, StepMs, Flatten, History.Brimming;
    h := new History(rate);
    h.SetHistorySpan(reach);
    var w := StepMs(reach);
    NoSteps(h, w);
    StairsReach(reach);
    for i := 0 to ALL
      invariant fresh(h) && h.reach == reach && Climbed(h, w, i)
    {
      Climb(h, reach, i);
    }
    LogParts(h);
    StairsCounted(w, h.log, h.aged, h.Steps(), h.raw);
  }

  /** How a history is after the first few stairs. */
  ghost predicate Climbed(h: History, w: int, i: nat)
    requires w > 1
    reads h
  {
    && h.Valid() && h.StepsCut(w) && h.Brimming()
    && h.log == AllStairs(w, i) && h.aged == [] && |h.raw| == Min(i, RAW_FRAMES)
  }

  method Climb(h: History, reach: int, i: nat)
    requires reach > WITHIN_720 && h.reach == reach && i < ALL && Climbed(h, StepMs(reach), i)
    modifies h
    ensures h.reach == reach && Climbed(h, StepMs(reach), i + 1)
  {
    hide History.Valid, Tiled, Cut, Stairs, StepMs, Flatten, History.Brimming, History.StepsCut, History.HeldWithin, KeepsNewest, Aged;
    var w := StepMs(reach);
    assert AllStairs(w, i) + [Stairs(w, i)] == AllStairs(w, i + 1);
    StairsTiled(w, i + 1);
    assert AllStairs(w, i + 1)[i] == Stairs(w, i);
    LogParts(h);
    ghost var all := h.raw + [Stairs(w, i)];
    h.PushFrame(Stairs(w, i));
    LogParts(h);
    StairsEarly(reach, i);
    NoneLeft(w, h.log, h.aged, Flatten(h.Steps()) + h.raw, Stairs(w, i).end - reach);
    RawFills(w, all, h.raw, i, Stairs(w, i).end - reach);
  }
}
