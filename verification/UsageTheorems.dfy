/** What the usage history promises its charts. */
module UsageTheorems {
  import opened UsageLists
  import opened UsageFade
  import opened UsageFolds
  import opened UsageHistory

  /** The history, newest first. */
  method Frames(h: History) returns (frames: seq<Stretch>)
    requires h.Valid()
    ensures |frames| == |h.Held()|
    ensures forall i :: 0 <= i < |frames| ==> frames[i] == h.Held()[|frames| - 1 - i]
  {
    frames := [];
    for i := 0 to |h.raw|
      invariant frames == Backwards(h.raw)[..i]
    {
      frames := frames + [h.raw[|h.raw| - 1 - i]];
    }
    if h.open.Some? {
      frames := frames + [h.open.value.stretch];
    }
    ghost var newer := frames;
    for i := 0 to |h.coarse|
      invariant frames == newer + Backwards(h.coarse)[..i]
    {
      frames := frames + [h.coarse[|h.coarse| - 1 - i]];
    }
  }

  function Backwards(fs: seq<Stretch>): seq<Stretch> {
    seq(|fs|, i requires 0 <= i < |fs| => fs[|fs| - 1 - i])
  }

  /** Nothing is lost and nothing counted twice: for every kind and program, what is
      held and what has left come to what was recorded. */
  lemma Conserved(h: History, k: nat, g: nat)
    requires h.Valid() && k < KINDS
    ensures TotalAmount(Flatten(h.aged), k, g) + TotalAmount(h.Held(), k, g) == TotalAmount(h.log, k, g)
  {
    hide Tiled, Replayed, IsFold, Flatten;
    h.HeldAreFolds();
    FoldsConserve(h.Held(), h.Groups(), k, g);
    TotalAmountAppend(Flatten(h.aged), Flatten(h.Groups()), k, g);
  }

  /** What every list held looks like: sorted by program, each program once. */
  lemma HeldSorted(h: History, i: nat, k: nat)
    requires h.Valid() && i < |h.Held()| && k < KINDS
    ensures |h.Held()[i].lists| == KINDS && Sorted(h.Held()[i].lists[k])
  {
    hide Tiled, Replayed, Flatten;
    h.HeldAreFolds();
    assert IsFold(h.Held()[i], h.Groups()[i]);
  }

  /** Every step ever made, those that have left and those held, as program `g` used them. */
  ghost function AllSteps(h: History, g: nat): seq<seq<Use>>
    reads h
  {
    UsesEach(h.aged + h.Groups(), g)
  }

  /** A fading sum run over what is held, from the faded-out totals, is the sum run over
      all the folded steps from the session's start. */
  lemma ReplayIsOfSteps(h: History, g: nat)
    requires h.Valid()
    ensures Run(h.rate, TotalOf(h.fadedOut, g), Uses(h.Held(), g))
      == Run(h.rate, TotalOf(h.start, g), AllTogether(AllSteps(h, g)))
  {
    hide Tiled, TotalOf, Flatten, IsFold, Run;
    h.HeldAreFolds();
    HeldUses(h.Held(), h.Groups(), g);
    assert AllTogether(AllSteps(h, g)) == StepUses(h.aged, g) + StepUses(h.Groups(), g);
    RunAppend(h.rate, TotalOf(h.start, g), StepUses(h.aged, g), StepUses(h.Groups(), g));
  }

  lemma HeldUses(held: seq<Stretch>, groups: seq<seq<Stretch>>, g: nat)
    requires AreFolds(held, groups)
    ensures Uses(held, g) == StepUses(groups, g)
  {
    forall i | 0 <= i < |held|
      ensures Uses(held, g)[i] == StepUses(groups, g)[i]
    {
      assert IsFold(held[i], groups[i]);
      UsesTogether(groups[i], g);
    }
  }

  ghost predicate Positive(fs: seq<Stretch>) {
    forall i, g :: 0 <= i < |fs| && |fs[i].lists| > CYCLES ==> Amount(fs[i].lists[CYCLES], g) >= 0.0
  }

  lemma ProperUses(fs: seq<Stretch>, g: nat)
    requires Tiled(fs) && Positive(fs)
    ensures Proper(Uses(fs, g))
  {
    forall i | 0 <= i < |fs|
      ensures Uses(fs, g)[i].span >= 0 && Uses(fs, g)[i].cycles >= 0.0
    {
      assert fs[i].span > 0;
    }
  }

  lemma LogIsAllSteps(h: History, g: nat)
    requires h.Valid()
    ensures Flatten(AllSteps(h, g)) == Uses(h.log, g)
  {
    hide Tiled, IsFold, Replayed, Flatten;
    h.HeldAreFolds();
    FlattenAppend(h.aged, h.Groups());
    FlattenUses(h.aged + h.Groups(), g);
  }

  /** Replaying what is held, from the faded-out totals, comes to the total of every
      stretch recorded, off by at most what each step could lose: its cycles times the
      share its span loses, and nothing for a step of one stretch or of even use. */
  lemma ReplayComesClose(h: History, g: nat)
    requires h.Valid() && Fades(h.rate) && Positive(h.log)
    ensures Within(Run(h.rate, TotalOf(h.fadedOut, g), Uses(h.Held(), g)),
                   Run(h.rate, TotalOf(h.start, g), Uses(h.log, g)),
                   AllLoss(h.rate, AllSteps(h, g)))
  {
    assert Tiled(h.log);
    ProperUses(h.log, g);
    hide Tiled, IsFold, Replayed, Flatten, Run, AllLoss, Fades, TotalOf, Proper, AllTogether;
    LogIsAllSteps(h, g);
    ReplayIsOfSteps(h, g);
    ReplayIsNear(h.rate, TotalOf(h.start, g), AllSteps(h, g));
  }

  /** Exactly that, while no step has lost anything. */
  lemma ReplayIsExact(h: History, g: nat)
    requires h.Valid() && Fades(h.rate) && Positive(h.log)
    requires Lossless(AllSteps(h, g))
    ensures Run(h.rate, TotalOf(h.fadedOut, g), Uses(h.Held(), g)) == Run(h.rate, TotalOf(h.start, g), Uses(h.log, g))
  {
    hide *;
    ReplayComesClose(h, g);
    StepsHaveSpan(h, g);
    NoLoss(h.rate, AllSteps(h, g));
    WithinNothing(Run(h.rate, TotalOf(h.fadedOut, g), Uses(h.Held(), g)), Run(h.rate, TotalOf(h.start, g), Uses(h.log, g)));
  }

  /** Each step is one stretch, or one of even use. */
  ghost predicate Lossless(groups: seq<seq<Use>>) {
    forall i :: 0 <= i < |groups| ==> |groups[i]| == 1 || Even(groups[i])
  }

  lemma WithinNothing(a: real, b: real)
    requires Within(a, b, 0.0)
    ensures a == b
  {
  }

  lemma StepsHaveSpan(h: History, g: nat)
    requires h.Valid()
    ensures HaveSpan(AllSteps(h, g))
  {
    assert Tiled(h.log);
    hide Tiled, IsFold, Replayed, Flatten;
    h.HeldAreFolds();
    FlattenAppend(h.aged, h.Groups());
    var groups := h.aged + h.Groups();
    forall i | 0 <= i < |groups|
      ensures groups[i] != []
    {
      if i >= |h.aged| {
        FoldEnds(h.Held()[i - |h.aged|], h.Groups()[i - |h.aged|]);
      }
    }
    GroupSpans(groups);
    forall i | 0 <= i < |groups|
      ensures Span(UsesEach(groups, g)[i]) > 0
    {
      UsesTogether(groups[i], g);
    }
  }

  lemma {:induction false} GroupSpans(groups: seq<seq<Stretch>>)
    requires Tiled(Flatten(groups)) && forall i :: 0 <= i < |groups| ==> groups[i] != []
    ensures forall i :: 0 <= i < |groups| ==> TotalSpan(groups[i]) > 0
  {
    if groups != [] {
      var most, last := groups[..|groups| - 1], groups[|groups| - 1];
      TiledPart(Flatten(most), last);
      GroupSpans(most);
      TiledSpan(last);
    }
  }

  ghost predicate HaveSpan(groups: seq<seq<Use>>) {
    forall i :: 0 <= i < |groups| ==> Span(groups[i]) > 0
  }

  lemma {:induction false} NoLoss(r: Rate, groups: seq<seq<Use>>)
    requires Lossless(groups) && HaveSpan(groups)
    ensures AllLoss(r, groups) == 0.0
  {
    if groups != [] {
      NoLoss(r, groups[..|groups| - 1]);
    }
  }
}
