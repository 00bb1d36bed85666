/** Stretches of use by program: single ones while they are new, sums of many when they are
    older, and only fading totals of what is older still. */
module UsageHistory {
  import opened Basics
  import opened UsageLists
  import opened UsageFade
  import opened UsageFolds

  /** History kept sample by sample. */
  const RAW_FRAMES: nat := 600
  const STEP_MIN_MS: int := 10_000
  const STEPS: int := 720
  const DEFAULT_HISTORY_MS: int := 3_600_000

  /** The common width of steps under a given reach. */
  function StepMs(historyMs: int): (w: int)
    ensures w >= STEP_MIN_MS && historyMs < (w + 1) * STEPS
  {
    Max(historyMs / STEPS, STEP_MIN_MS)
  }

  /** A step still being filled, and which step it is. */
  datatype Filling = Filling(index: int, stretch: Stretch)

  function TotalOf(totals: seq<real>, g: nat): real {
    if g < |totals| then totals[g] else 0.0
  }

  /** `x` more at position `g`, the positions short of it filled with zeros. */
  function AddTo(totals: seq<real>, g: nat, x: real): (r: seq<real>)
    ensures forall h :: TotalOf(r, h) == TotalOf(totals, h) + if h == g then x else 0.0
  {
    if g < |totals| then totals[g := totals[g] + x]
    else totals + seq(g - |totals|, i => 0.0) + [x]
  }

  /** Every total times `share`. */
  method Shrunk(totals: seq<real>, share: real) returns (r: seq<real>)
    ensures forall g :: TotalOf(r, g) == TotalOf(totals, g) * share
  {
    r := totals;
    for i := 0 to |totals|
      invariant |r| == |totals|
      invariant forall j :: 0 <= j < |totals| ==> r[j] == if j < i then totals[j] * share else totals[j]
    {
      r := r[i := r[i] * share];
    }
  }

  ghost predicate Gained(r: seq<real>, totals: seq<real>, l: List, arrived: real) {
    forall g :: TotalOf(r, g) == TotalOf(totals, g) + Amount(l, g) * arrived
  }

  lemma GainedNext(r: seq<real>, totals: seq<real>, l: List, i: nat, arrived: real)
    requires i < |l| && Gained(r, totals, l[..i], arrived)
    ensures Gained(AddTo(r, l[i].0, l[i].1 * arrived), totals, l[..i + 1], arrived)
  {
    hide Amount, TotalOf;
    forall g: nat
      ensures TotalOf(AddTo(r, l[i].0, l[i].1 * arrived), g) == TotalOf(totals, g) + Amount(l[..i + 1], g) * arrived
    {
      Taken(l, i, i + 1, g);
      Spread(Amount(l[..i], g), l[i].1, arrived);
    }
  }

  /** A stretch's cycles, each `arrived` of itself, added to the totals. */
  method Added(totals: seq<real>, cycles: List, arrived: real) returns (r: seq<real>)
    ensures forall g :: TotalOf(r, g) == TotalOf(totals, g) + Amount(cycles, g) * arrived
  {
    r := totals;
    for i := 0 to |cycles|
      invariant Gained(r, totals, cycles[..i], arrived)
    {
      GainedNext(r, totals, cycles, i, arrived);
      r := AddTo(r, cycles[i].0, cycles[i].1 * arrived);
    }
    assert cycles[..|cycles|] == cycles;
  }

  /** Totals that fade for `since`, and gain cycles that arrived evenly over `span`. */
  ghost predicate FadedOnce(was: seq<real>, now: seq<real>, rate: Rate, since: int, span: int, cycles: List) {
    forall g :: TotalOf(now, g) == TotalOf(was, g) * rate.kept(Max(since, 0)) + Amount(cycles, g) * rate.arrived(Max(span, 0))
  }

  /** When the last of the stretches that have left ended. */
  ghost function LastEnd(groups: seq<seq<Stretch>>): int {
    if groups == [] || groups[|groups| - 1] == [] then 0
    else
      var g := groups[|groups| - 1];
      g[|g| - 1].end
  }

  /** Steps of width `w`, each whole: one step's stretches all end in it, and the next
      step's in another. */
  predicate Cut(steps: seq<seq<Stretch>>, w: int)
    requires w > 0
  {
    && (forall i :: 0 <= i < |steps| ==> steps[i] != [])
    && (forall i, j :: 0 <= i < |steps| && 0 <= j < |steps[i]| ==> steps[i][j].end / w == steps[i][0].end / w)
    && (forall i, j :: 0 <= i < |steps| && j == i + 1 < |steps| ==> steps[i][0].end / w != steps[j][0].end / w)
  }

  /** One more stretch in the last step, or in a step of its own. */
  function Joined(steps: seq<seq<Stretch>>, f: Stretch, same: bool): seq<seq<Stretch>> {
    if same && steps != [] then steps[..|steps| - 1] + [steps[|steps| - 1] + [f]] else steps + [[f]]
  }

  /** `fadedOut` is the outcome of running the steps that have left, in order, from the totals
      at the session's start; its time is where the last of them ends. */
  ghost predicate Replayed(fadedOut: seq<real>, fadedOutMs: Option<int>, rate: Rate, start: seq<real>, aged: seq<seq<Stretch>>) {
    && (forall g :: TotalOf(fadedOut, g) == Run(rate, TotalOf(start, g), StepUses(aged, g)))
    && fadedOutMs == if aged == [] then None else Some(LastEnd(aged))
  }

  /** One more step leaves: `log` is everything recorded, `rest` what follows the step. */
  lemma ReplayedNext(
    was: seq<real>, wasMs: Option<int>, now: seq<real>, rate: Rate, start: seq<real>,
    aged: seq<seq<Stretch>>, step: seq<Stretch>, rest: seq<Stretch>, left: Stretch, since: int)
    requires Replayed(was, wasMs, rate, start, aged) && (forall i :: 0 <= i < |aged| ==> aged[i] != [])
    requires IsFold(left, step) && Tiled(Flatten(aged) + step + rest)
    requires since == if wasMs.Some? then left.end - wasMs.value else left.span
    requires FadedOnce(was, now, rate, since, left.span, left.lists[CYCLES])
    ensures Replayed(now, Some(left.end), rate, start, aged + [step])
  {
    hide TotalOf, Amount, Run, StepUses, IsFold, Tiled, FadedOnce, Flatten;
    SinceIsSpan(aged, step, rest, left);
    FoldEnds(left, step);
    assert since == left.span;
    assert LastEnd(aged + [step]) == left.end;
    forall g: nat
      ensures TotalOf(now, g) == Run(rate, TotalOf(start, g), StepUses(aged + [step], g))
    {
      ReplayedTotal(was, now, rate, start, aged, step, left, g);
    }
  }

  lemma ReplayedTotal(
    was: seq<real>, now: seq<real>, rate: Rate, start: seq<real>, aged: seq<seq<Stretch>>, step: seq<Stretch>, left: Stretch,
    g: nat)
    requires TotalOf(was, g) == Run(rate, TotalOf(start, g), StepUses(aged, g))
    requires IsFold(left, step) && left.span > 0
    requires FadedOnce(was, now, rate, left.span, left.span, left.lists[CYCLES])
    ensures TotalOf(now, g) == Run(rate, TotalOf(start, g), StepUses(aged + [step], g))
  {
    hide TotalOf, Amount, Run, Uses;
    assert StepUses(aged + [step], g) == StepUses(aged, g) + [Together(Uses(step, g))];
    UsesTogether(step, g);
    RunAppend(rate, TotalOf(start, g), StepUses(aged, g), [Together(Uses(step, g))]);
    OneStep(rate, TotalOf(was, g), Together(Uses(step, g)));
  }

  lemma FoldEnds(left: Stretch, step: seq<Stretch>)
    requires IsFold(left, step)
    ensures step != [] && left.end == step[|step| - 1].end && left.span == TotalSpan(step) && left.Formed()
  {
  }

  lemma SinceIsSpan(aged: seq<seq<Stretch>>, step: seq<Stretch>, rest: seq<Stretch>, left: Stretch)
    requires forall i :: 0 <= i < |aged| ==> aged[i] != []
    requires IsFold(left, step) && Tiled(Flatten(aged) + step + rest)
    ensures left.span > 0 && left.span == TotalSpan(step)
    ensures aged != [] ==> left.end - LastEnd(aged) == left.span
  {
    TiledPart(Flatten(aged) + step, rest);
    TiledPart(Flatten(aged), step);
    TiledSpan(step);
    if aged != [] {
      FlattenLast(aged);
    }
  }

  lemma FlattenLast(aged: seq<seq<Stretch>>)
    requires aged != [] && aged[|aged| - 1] != []
    ensures Flatten(aged) != [] && Flatten(aged)[|Flatten(aged)| - 1].end == LastEnd(aged)
  {
  }

  lemma FlattenFront(groups: seq<seq<Stretch>>)
    requires groups != []
    ensures Flatten(groups) == groups[0] + Flatten(groups[1..])
  {
    FlattenAppend([groups[0]], groups[1..]);
    FlattenOne(groups[0]);
    assert groups == [groups[0]] + groups[1..];
  }

  lemma Moved<T>(before: seq<T>, a: seq<T>, b: seq<T>)
    requires b != []
    ensures before + a + b == before + (a + [b[0]]) + b[1..]
  {
  }

  lemma FlattenSnoc<T>(groups: seq<seq<T>>)
    requires groups != []
    ensures Flatten(groups) == Flatten(groups[..|groups| - 1]) + groups[|groups| - 1]
  {
  }

  lemma NewestIs(all: seq<Stretch>, raw: seq<Stretch>, horizon: int)
    requires KeepsNewest(all, raw, horizon)
    ensures 0 < |raw| <= RAW_FRAMES && |raw| <= |all| && raw == all[|all| - |raw|..] && raw[0].end >= horizon
    ensures |raw| < |all| ==> |raw| == RAW_FRAMES || all[|all| - |raw| - 1].end < horizon
    ensures |raw| == |all| ==> raw == all
  {
  }

  lemma FlattenNone<T>(groups: seq<seq<T>>)
    requires groups == []
    ensures Flatten(groups) == []
  {
  }

  lemma CutJoined(steps: seq<seq<Stretch>>, f: Stretch, same: bool, w: int)
    requires w > 0 && Cut(steps, w)
    requires steps != [] ==> same == (steps[|steps| - 1][0].end / w == f.end / w)
    ensures Cut(Joined(steps, f, same), w)
    ensures var s := Joined(steps, f, same); s != [] && s[|s| - 1] != [] && s[|s| - 1][0].end / w == f.end / w
  {
    var s := Joined(steps, f, same);
    var n := |s| - 1;
    assert forall i :: 0 <= i < n ==> s[i] == steps[i];
    forall j | 0 <= j < |s[n]|
      ensures s[n][j].end / w == s[n][0].end / w == f.end / w
    {
      if same && steps != [] {
        assert j < |steps[n]| ==> s[n][j] == steps[n][j];
        assert s[n][0] == steps[n][0];
      }
    }
  }

  lemma CutRest(steps: seq<seq<Stretch>>, w: int)
    requires w > 0 && Cut(steps, w) && steps != []
    ensures Cut(steps[1..], w)
  {
    forall i | 0 <= i < |steps| - 1
      ensures steps[1..][i] == steps[i + 1]
    {
    }
  }

  lemma NoneTiled()
    ensures Tiled([])
  {
  }

  lemma FormedSingles(fs: seq<Stretch>)
    requires forall i :: 0 <= i < |fs| ==> fs[i].Formed()
    ensures AreFolds(fs, Singles(fs))
  {
    forall i | 0 <= i < |fs|
      ensures IsFold(fs[i], Singles(fs)[i])
    {
      FoldOfOne(fs[i]);
    }
  }

  lemma FoldOne(s: Stretch, fs: seq<Stretch>)
    requires IsFold(s, fs)
    ensures AreFolds([s], [fs])
  {
  }

  lemma Regrouped<T>(a: seq<T>, b: seq<T>, c: seq<T>, d: seq<T>, e: seq<T>)
    ensures a + (b + c) + d + e == a + b + (c + d + e)
    ensures a + (b + c) + d + e == (a + b) + c + d + e
  {
  }

  lemma BlankFormed()
    ensures BLANK.Formed()
  {
  }

  /** More steps have left, each one ending before `horizon`. */
  ghost predicate Aged(was: seq<seq<Stretch>>, aged: seq<seq<Stretch>>, horizon: int) {
    && was <= aged
    && forall i :: |was| <= i < |aged| ==> aged[i] != [] && aged[i][|aged[i]| - 1].end < horizon
  }

  /** What stays of `all`: the newest, no more than there is room for and none ending
      before `horizon`, and of those all. */
  ghost predicate KeepsNewest(all: seq<Stretch>, raw: seq<Stretch>, horizon: int) {
    && 0 < |raw| <= RAW_FRAMES && |raw| <= |all| && raw == all[|all| - |raw|..]
    && raw[0].end >= horizon
    && (|raw| < |all| ==> |raw| == RAW_FRAMES || all[|all| - |raw| - 1].end < horizon)
  }

  class History {
    /** In time order the history is `coarse`, then `open`, then `raw`. */
    var raw: seq<Stretch>
    var coarse: seq<Stretch>
    var open: Option<Filling>
    /** What `FadeOut` has been given so far, by program, faded down to `fadedOutMs`. */
    var fadedOut: seq<real>
    var fadedOutMs: Option<int>
    var reach: int
    const rate: Rate

    /** Every stretch ever recorded, and which were folded into what: those that have
        left, those in each closed step, those in the open one. */
    ghost var log: seq<Stretch>
    ghost var aged: seq<seq<Stretch>>
    ghost var kept: seq<seq<Stretch>>
    ghost var filling: seq<Stretch>
    /** The totals a session starts on. */
    ghost var start: seq<real>

    /** What is held, oldest first. */
    function Held(): seq<Stretch>
      reads this
    {
      coarse + (if open.Some? then [open.value.stretch] else []) + raw
    }

    /** Which recorded stretches each held one is folded from. */
    ghost function Groups(): seq<seq<Stretch>>
      reads this
    {
      Steps() + Singles(raw)
    }

    ghost predicate Folded()
      reads this
    {
      && log == Flatten(aged) + Flatten(kept) + filling + raw
      && (forall i :: 0 <= i < |log| ==> log[i].Formed())
      && (forall i :: 0 <= i < |aged| ==> aged[i] != [])
      && AreFolds(coarse, kept)
      && (open.None? ==> filling == [])
      && (open.Some? ==> IsFold(open.value.stretch, filling))
    }

    ghost predicate Valid()
      reads this
    {
      Folded() && Tiled(log) && reach >= STEP_MIN_MS && Replayed(fadedOut, fadedOutMs, rate, start, aged)
    }

    ghost function Steps(): seq<seq<Stretch>>
      reads this
    {
      kept + if open.Some? then [filling] else []
    }

    /** Steps are held only behind as many raw stretches as there is room for. */
    ghost predicate Brimming()
      reads this
    {
      Steps() != [] ==> |raw| == RAW_FRAMES
    }

    ghost predicate StepsCut(w: int)
      requires w > 0
      reads this
    {
      && Cut(Steps(), w)
      && (open.Some? ==> filling != [] && open.value.index == filling[0].end / w)
      && (open.None? ==> kept == [])
    }

    constructor (rate: Rate)
      ensures Valid() && this.rate == rate && log == [] && Held() == [] && reach == DEFAULT_HISTORY_MS
      ensures start == [] && aged == [] && Steps() == [] && raw == []
    {
      this.rate := rate;
      raw, coarse, open, fadedOut, fadedOutMs, reach := [], [], None, [], None, DEFAULT_HISTORY_MS;
      log, aged, kept, filling, start := [], [], [], [], [];
    }

    /** What is held tiles time, from where the faded-out totals stop (or the log begins)
        to the end of the log. */
    lemma HeldTiles()
      requires Valid() && log != []
      ensures AreFolds(Held(), Groups()) && log == Flatten(aged) + Flatten(Groups())
      ensures Tiled(Held())
      ensures Held() != [] ==> Held()[|Held()| - 1].end == log[|log| - 1].end
      ensures Held() != [] ==> Held()[0].Start() == if fadedOutMs.Some? then fadedOutMs.value else log[0].Start()
    {
      hide IsFold, Tiled, Replayed, Flatten;
      HeldAreFolds();
      AgedEnd();
      if Held() != [] {
        TiledPart(Flatten(aged), Flatten(Groups()));
        FoldsTile(Held(), Groups());
      } else {
        NoneTiled();
      }
    }

    lemma HeldAreFolds()
      requires Folded()
      ensures AreFolds(Held(), Groups()) && log == Flatten(aged) + Flatten(Groups())
    {
      hide IsFold, Tiled, Replayed, Flatten;
      FormedSingles(raw) by {
        assert forall i :: 0 <= i < |raw| ==> raw[i] == log[|log| - |raw| + i];
      }
      FlattenSingles(raw);
      FlattenAppend(Steps(), Singles(raw));
      if open.Some? {
        FlattenAppend(kept, [filling]);
        FlattenOne(filling);
        FoldsAppend(coarse, [open.value.stretch], kept, [filling]);
        FoldsAppend(coarse + [open.value.stretch], raw, kept + [filling], Singles(raw));
      } else {
        assert coarse + [] == coarse && kept + [] == kept;
        FoldsAppend(coarse, raw, kept, Singles(raw));
      }
    }

    lemma AgedEnd()
      requires Valid()
      ensures aged != [] ==> Flatten(aged) != [] && fadedOutMs == Some(Flatten(aged)[|Flatten(aged)| - 1].end)
      ensures aged == [] ==> Flatten(aged) == [] && fadedOutMs == None
    {
      if aged != [] {
        FlattenLast(aged);
      }
    }

    lemma SomeLogged()
      requires Valid() && open.Some?
      ensures log != []
    {
    }

    lemma OpenIsNewer()
      requires Valid() && open.Some?
      ensures coarse != [] ==> coarse[0].end < open.value.stretch.end
    {
      hide Valid, IsFold, Tiled, Replayed;
      if coarse != [] {
        SomeLogged();
        HeldTiles();
        assert Held()[0] == coarse[0] && Held()[|coarse|] == open.value.stretch;
        TiledOrder(Held(), 0, |coarse|);
      }
    }

    /** Adds a stretch that is no longer held to `fadedOut`, brought to the stretch's end. */
    method FadeOut(end: int, span: int, cycles: List)
      modifies this`fadedOut, this`fadedOutMs
      ensures fadedOutMs == Some(end)
      ensures FadedOnce(old(fadedOut), fadedOut, rate, if old(fadedOutMs).Some? then end - old(fadedOutMs).value else span, span, cycles)
    {
      hide TotalOf, Amount;
      // Tiling makes `since` the stretch's own span.
      var since := if fadedOutMs.Some? then end - fadedOutMs.value else span;
      fadedOut := Shrunk(fadedOut, rate.kept(Max(since, 0)));
      fadedOut := Added(fadedOut, cycles, rate.arrived(Max(span, 0)));
      fadedOutMs := Some(end);
    }

    method CloseOpen()
      requires Valid()
      modifies this`open, this`coarse, this`kept, this`filling
      ensures Valid() && open.None? && Steps() == old(Steps())
    {
      hide IsFold, Replayed, Tiled, Flatten, AreFolds;
      if open.Some? {
        FoldOne(open.value.stretch, filling);
        FoldsAppend(coarse, [open.value.stretch], kept, [filling]);
        FlattenAppend(kept, [filling]);
        FlattenOne(filling);
        coarse := coarse + [open.value.stretch];
        kept, filling, open := kept + [filling], [], None;
      }
    }

    /** Move the oldest raw stretch into the step it ends in. */
    method Retire()
      requires Valid() && raw != []
      modifies this`raw, this`open, this`coarse, this`kept, this`filling
      ensures Valid() && raw == old(raw)[1..]
      ensures open.Some? && open.value.index == old(raw)[0].end / StepMs(reach)
      ensures Steps() == Joined(old(Steps()), old(raw)[0], old(open.Some? && open.value.index == raw[0].end / StepMs(reach)))
      ensures old(StepsCut(StepMs(reach))) ==> StepsCut(StepMs(reach))
    {
      hide IsFold, Replayed, Tiled, Cut, Flatten, AreFolds;
      ghost var was := Steps();
      ghost var same := open.Some? && open.value.index == raw[0].end / StepMs(reach);
      if StepsCut(StepMs(reach)) {
        CutJoined(was, raw[0], same, StepMs(reach));
      }
      var f := raw[0];
      var index := f.end / StepMs(reach);
      if open.Some? && open.value.index != index {
        CloseOpen();
      }
      ghost var before := kept;
      Absorb(f, index);
      assert before == kept;
      if same {
        assert was == kept + [old(filling)];
        assert was[..|was| - 1] == kept;
      } else {
        assert was == kept && filling == [f];
      }
    }

    method Absorb(f: Stretch, index: int)
      requires Valid() && raw != [] && f == raw[0] && (open.Some? ==> open.value.index == index)
      modifies this`raw, this`open, this`filling
      ensures Valid() && raw == old(raw)[1..]
      ensures open.Some? && open.value.index == index
      ensures filling == old(filling) + [f]
    {
      hide IsFold, Replayed, Tiled;
      assert f.Formed() by {
        assert f == log[|log| - |raw|];
      }
      var x := if open.Some? then open.value.stretch else BLANK;
      if open.Some? {
        FoldEnds(x, filling);
      } else {
        BlankFormed();
      }
      var s := FoldIn(x, f);
      FoldGrows(x, filling, f, s);
      Moved(Flatten(aged) + Flatten(kept), filling, raw);
      open := Some(Filling(index, s));
      raw, filling := raw[1..], filling + [f];
    }

    /** The oldest closed step leaves. */
    method AgeCoarse()
      requires Valid() && coarse != []
      modifies this`coarse, this`kept, this`aged, this`fadedOut, this`fadedOutMs
      ensures Valid() && coarse == old(coarse)[1..]
      ensures |kept| == |old(kept)| - 1 && kept == old(kept)[1..] && aged == old(aged) + [old(kept)[0]]
      ensures old(kept)[0] != [] && old(kept)[0][|old(kept)[0]| - 1].end == old(coarse)[0].end
      ensures old(Steps()) != [] && forall w :: w > 0 && old(StepsCut(w)) ==> StepsCut(w)
    {
      hide IsFold, Replayed, Tiled, FadedOnce, Flatten;
      var left, step := coarse[0], kept[0];
      assert IsFold(left, step);
      FoldEnds(left, step);
      FlattenFront(kept);
      FlattenAppend(aged, [step]);
      FlattenOne(step);
      ghost var was, wasMs := fadedOut, fadedOutMs;
      FadeOut(left.end, left.span, left.lists[CYCLES]);
      coarse, kept := coarse[1..], kept[1..];
      ghost var rest := Flatten(kept) + filling + raw;
      Regrouped(Flatten(aged), step, Flatten(kept), filling, raw);
      ReplayedNext(was, wasMs, fadedOut, rate, start, aged, step, rest, left,
                   if wasMs.Some? then left.end - wasMs.value else left.span);
      aged := aged + [step];
      forall w | w > 0 && old(StepsCut(w))
        ensures StepsCut(w)
      {
        CutRest(old(Steps()), w);
        assert Steps() == old(Steps())[1..];
      }
    }

    /** The step still being filled leaves. */
    method AgeOpen()
      requires Valid() && coarse == [] && open.Some?
      modifies this`open, this`filling, this`aged, this`fadedOut, this`fadedOutMs
      ensures Valid() && open.None? && aged == old(aged) + [old(filling)]
      ensures old(filling) != [] && old(filling)[|old(filling)| - 1].end == old(open).value.stretch.end
      ensures Steps() == [] && forall w :: w > 0 ==> StepsCut(w)
    {
      hide IsFold, Replayed, Tiled, FadedOnce, Flatten;
      var left := open.value.stretch;
      ghost var step := filling;
      FoldEnds(left, step);
      FlattenAppend(aged, [step]);
      FlattenOne(step);
      ghost var was, wasMs := fadedOut, fadedOutMs;
      FadeOut(left.end, left.span, left.lists[CYCLES]);
      open, filling := None, [];
      FlattenNone(kept);
      assert log == Flatten(aged) + step + raw;
      ReplayedNext(was, wasMs, fadedOut, rate, start, aged, step, raw, left,
                   if wasMs.Some? then left.end - wasMs.value else left.span);
      aged := aged + [step];
    }

    /** What is too old or too much to hold as it is moves into steps. */
    method RetireOld(now: int)
      requires Valid() && raw != [] && raw[|raw| - 1].end == now
      modifies this`raw, this`open, this`coarse, this`kept, this`filling
      ensures Valid() && KeepsNewest(old(raw), raw, now - reach)
      ensures raw == old(raw) ==> Steps() == old(Steps())
      ensures old(StepsCut(StepMs(reach))) ==> StepsCut(StepMs(reach))
    {
      hide Folded, Replayed, Tiled, Cut, Joined;
      while |raw| > RAW_FRAMES || now - raw[0].end > reach
        invariant Valid() && raw != [] && raw[|raw| - 1].end == now
        invariant |raw| <= |old(raw)| && raw == old(raw)[|old(raw)| - |raw|..]
        invariant |raw| == |old(raw)| ==> Steps() == old(Steps())
        invariant |raw| < |old(raw)| ==> |raw| >= RAW_FRAMES || now - old(raw)[|old(raw)| - |raw| - 1].end > reach
        invariant old(StepsCut(StepMs(reach))) ==> StepsCut(StepMs(reach))
        decreases |raw|
      {
        Retire();
      }
    }

    /** What has passed the reach leaves, oldest first, the step being filled included. */
    method AgeOld(now: int)
      requires Valid()
      modifies this`open, this`filling, this`coarse, this`kept, this`aged, this`fadedOut, this`fadedOutMs
      ensures Valid()
      ensures coarse != [] ==> now - coarse[0].end <= reach
      ensures open.Some? ==> now - open.value.stretch.end <= reach
      ensures Aged(old(aged), aged, now - reach)
      ensures Steps() != [] ==> old(Steps()) != []
      ensures old(StepsCut(StepMs(reach))) ==> StepsCut(StepMs(reach))
    {
      hide Folded, Replayed, Tiled, Cut;
      while coarse != [] && now - coarse[0].end > reach
        invariant Valid() && open == old(open)
        invariant Aged(old(aged), aged, now - reach)
        invariant Steps() != [] ==> old(Steps()) != []
        invariant old(StepsCut(StepMs(reach))) ==> StepsCut(StepMs(reach))
        decreases |coarse|
      {
        AgeCoarse();
      }
      if open.Some? && now - open.value.stretch.end > reach {
        OpenIsNewer();
        AgeOpen();
      }
    }

    /** One more stretch. What no longer fits in `raw` joins the open step, and steps that end
        beyond the reach go to `fadedOut`. */
    method PushFrame(frame: Stretch)
      requires Valid() && frame.Formed() && Tiled(log + [frame])
      modifies this`log, this`raw, this`open, this`filling, this`coarse, this`kept, this`aged, this`fadedOut, this`fadedOutMs
      ensures Valid() && log == old(log) + [frame]
      ensures KeepsNewest(old(raw) + [frame], raw, frame.end - reach)
      ensures Aged(old(aged), aged, frame.end - reach)
      ensures HeldWithin(frame.end - reach)
      ensures old(StepsCut(StepMs(reach))) ==> StepsCut(StepMs(reach))
      ensures old(Brimming()) ==> Brimming()
    {
      hide IsFold, Replayed, Tiled, Flatten, Cut, AreFolds, HeldWithin, KeepsNewest;
      Append(frame);
      ghost var all := raw;
      RetireOld(frame.end);
      NewestIs(all, raw, frame.end - reach);
      AgeOld(frame.end);
      WithinFromFront(frame.end - reach);
      if Steps() != [] {
        LastStepHeld(frame.end - reach);
      }
    }

    /** Every stretch held ends at or after `horizon`. */
    ghost predicate HeldWithin(horizon: int)
      reads this
    {
      forall i :: 0 <= i < |Held()| ==> Held()[i].end >= horizon
    }

    lemma WithinFromFront(horizon: int)
      requires Valid() && log != []
      requires coarse != [] ==> coarse[0].end >= horizon
      requires open.Some? ==> open.value.stretch.end >= horizon
      requires raw != [] ==> raw[0].end >= horizon
      ensures HeldWithin(horizon)
    {
      hide Valid, Tiled;
      HeldTiles();
      forall i | 0 <= i < |Held()|
        ensures Held()[i].end >= horizon
      {
        TiledOrder(Held(), 0, i);
      }
    }

    /** The last stretch in a step is the one just before the raw ones, and recent if the
        step is. */
    lemma LastStepHeld(horizon: int)
      requires Valid() && HeldWithin(horizon) && Steps() != []
      ensures |raw| < |log| && log[|log| - |raw| - 1].end >= horizon
    {
      hide IsFold, Tiled, Replayed, Flatten;
      var n := |Steps()| - 1;
      HeldAreFolds();
      assert Groups()[n] == Steps()[n] && IsFold(Held()[n], Groups()[n]);
      FoldEnds(Held()[n], Steps()[n]);
      FlattenSnoc(Steps());
      FlattenAppend(Steps(), Singles(raw));
      FlattenSingles(raw);
      assert log == Flatten(aged) + (Flatten(Steps()[..n]) + Steps()[n] + raw);
    }

    method Append(frame: Stretch)
      requires Valid() && frame.Formed() && Tiled(log + [frame])
      modifies this`log, this`raw
      ensures Valid() && log == old(log) + [frame] && raw == old(raw) + [frame]
      ensures forall w :: w > 0 && old(StepsCut(w)) ==> StepsCut(w)
    {
      hide IsFold, Tiled, Replayed, Flatten, AreFolds, Cut;
      log, raw := log + [frame], raw + [frame];
    }

    /** Sets the reach, clamped from below; nothing is dropped before the next `PushFrame`. */
    method SetHistorySpan(ms: int)
      requires Valid()
      modifies this`reach
      ensures Valid() && reach == Max(ms, STEP_MIN_MS)
    {
      hide IsFold, Tiled, Replayed, Flatten, AreFolds;
      reach := Max(ms, STEP_MIN_MS);
    }

    /** The session starts on a guess of what program `g` used before it. */
    method StartOn(g: nat, x: real)
      requires Valid() && log == []
      modifies this`fadedOut, this`start
      ensures Valid() && start == AddTo(old(start), g, x)
    {
      hide Tiled;
      LoggedNone();
      fadedOut := AddTo(fadedOut, g, x);
      start := AddTo(start, g, x);
    }

    lemma LoggedNone()
      requires Valid() && log == []
      ensures aged == []
    {
      if aged != [] {
        FlattenLast(aged);
      }
    }
  }
}
