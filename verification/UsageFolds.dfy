/** Stretches of the usage history, and what folding a run of them into one means. */
module UsageFolds {
  import opened UsageLists
  import opened UsageFade

  /** Cycles, CPU time, memory, GPU time, dedicated and shared GPU memory. */
  const CYCLES: nat := 0
  const KINDS: nat := 6

  /** What a stretch says of the machine as a whole; every field adds up over time. */
  datatype Machine = Machine(
    cpuCapacityMs: real, cpuBusyMs: real, ram: real, ramInUse: real, gpuCapacityMs: real, gpuBusyMs: real,
    gpuDedicatedInUse: real)
  {
    function Plus(m: Machine): Machine {
      Machine(cpuCapacityMs + m.cpuCapacityMs, cpuBusyMs + m.cpuBusyMs, ram + m.ram, ramInUse + m.ramInUse,
              gpuCapacityMs + m.gpuCapacityMs, gpuBusyMs + m.gpuBusyMs, gpuDedicatedInUse + m.gpuDedicatedInUse)
    }
  }

  const NO_MACHINE: Machine := Machine(0.0, 0.0, 0.0, 0.0, 0.0, 0.0, 0.0)

  /** One stretch of the history: when it ended, how long it was, and for each kind the
      programs' amounts. */
  datatype Stretch = Stretch(end: int, span: int, lists: seq<List>, machine: Machine) {
    predicate Formed() {
      |lists| == KINDS && forall k :: 0 <= k < KINDS ==> Sorted(lists[k])
    }

    function Start(): int {
      end - span
    }
  }

  // What folding a run of stretches into one means

  function TotalSpan(fs: seq<Stretch>): int {
    if fs == [] then 0 else TotalSpan(fs[..|fs| - 1]) + fs[|fs| - 1].span
  }

  function TotalMachine(fs: seq<Stretch>): Machine {
    if fs == [] then NO_MACHINE else TotalMachine(fs[..|fs| - 1]).Plus(fs[|fs| - 1].machine)
  }

  function TotalAmount(fs: seq<Stretch>, k: nat, g: nat): real {
    if fs == [] then 0.0
    else
      var last := fs[|fs| - 1];
      TotalAmount(fs[..|fs| - 1], k, g) + if k < |last.lists| then Amount(last.lists[k], g) else 0.0
  }

  /** `s` is `fs` folded together: it ends where they do, is as long as they are, and
      has what they have between them, program by program and kind by kind. */
  ghost predicate IsFold(s: Stretch, fs: seq<Stretch>) {
    && fs != []
    && s.Formed()
    && s.end == fs[|fs| - 1].end
    && s.span == TotalSpan(fs)
    && s.machine == TotalMachine(fs)
    && forall k, g :: 0 <= k < KINDS ==> Amount(s.lists[k], g) == TotalAmount(fs, k, g)
  }

  /** No overlap, no gap and no empty span in a row of stretches. */
  predicate Tiled(fs: seq<Stretch>) {
    && (forall i :: 0 <= i < |fs| ==> fs[i].span > 0)
    && (forall j :: 0 < j < |fs| ==> fs[j - 1].end == fs[j].Start())
  }

  lemma SnocFold(s: Stretch, fs: seq<Stretch>, f: Stretch, k: nat, g: nat)
    ensures TotalSpan(fs + [f]) == TotalSpan(fs) + f.span
    ensures TotalMachine(fs + [f]) == TotalMachine(fs).Plus(f.machine)
    ensures TotalAmount(fs + [f], k, g) == TotalAmount(fs, k, g) + if k < |f.lists| then Amount(f.lists[k], g) else 0.0
  {
    assert (fs + [f])[..|fs|] == fs;
  }

  ghost function LastEnd(groups: seq<seq<Stretch>>): int {
    if groups == [] || groups[|groups| - 1] == [] then 0
    else
      var g := groups[|groups| - 1];
      g[|g| - 1].end
  }

  function Singles<T>(fs: seq<T>): seq<seq<T>> {
    seq(|fs|, i requires 0 <= i < |fs| => [fs[i]])
  }

  /** What program `g` used in each stretch. */
  function Uses(fs: seq<Stretch>, g: nat): (us: seq<Use>)
    ensures |us| == |fs|
  {
    seq(|fs|, i requires 0 <= i < |fs| =>
      Use(fs[i].span, if |fs[i].lists| > CYCLES then Amount(fs[i].lists[CYCLES], g) else 0.0))
  }

  function UsesEach(groups: seq<seq<Stretch>>, g: nat): seq<seq<Use>> {
    seq(|groups|, i requires 0 <= i < |groups| => Uses(groups[i], g))
  }

  /** What it used in each group, as one step. */
  function StepUses(groups: seq<seq<Stretch>>, g: nat): seq<Use> {
    AllTogether(UsesEach(groups, g))
  }

  // Groups of stretches

  lemma {:induction false} FlattenAppend<T>(a: seq<seq<T>>, b: seq<seq<T>>)
    ensures Flatten(a + b) == Flatten(a) + Flatten(b)
  {
    if b == [] {
      assert a + b == a;
    } else {
      FlattenAppend(a, b[..|b| - 1]);
      assert (a + b)[..|a + b| - 1] == a + b[..|b| - 1];
    }
  }

  lemma FlattenOne<T>(g: seq<T>)
    ensures Flatten([g]) == g
  {
    assert [g][..0] == [];
  }

  lemma {:induction false} FlattenSingles<T>(fs: seq<T>)
    ensures Flatten(Singles(fs)) == fs
  {
    if fs != [] {
      FlattenSingles(fs[..|fs| - 1]);
      assert Singles(fs)[..|fs| - 1] == Singles(fs[..|fs| - 1]);
      assert fs == fs[..|fs| - 1] + [fs[|fs| - 1]];
    }
  }

  lemma FlattenUses(groups: seq<seq<Stretch>>, g: nat)
    ensures Flatten(UsesEach(groups, g)) == Uses(Flatten(groups), g)
  {
    if groups != [] {
      FlattenUses(groups[..|groups| - 1], g);
      assert UsesEach(groups, g)[..|groups| - 1] == UsesEach(groups[..|groups| - 1], g);
    }
  }

  /** What program `g` used in a group, as one step. */
  lemma {:induction false} UsesTogether(fs: seq<Stretch>, g: nat)
    ensures Together(Uses(fs, g)) == Use(TotalSpan(fs), TotalAmount(fs, CYCLES, g))
  {
    if fs != [] {
      UsesTogether(fs[..|fs| - 1], g);
      assert Uses(fs, g)[..|fs| - 1] == Uses(fs[..|fs| - 1], g);
    }
  }

  lemma {:induction false} TiledSpan(fs: seq<Stretch>)
    requires Tiled(fs) && fs != []
    ensures TotalSpan(fs) > 0 && fs[|fs| - 1].end - TotalSpan(fs) == fs[0].Start()
  {
    var most := fs[..|fs| - 1];
    if most != [] {
      assert Tiled(most) by {
        TiledPart(most, [fs[|fs| - 1]]);
        assert most + [fs[|fs| - 1]] == fs;
      }
      TiledSpan(most);
    } else {
      assert TotalSpan(most) == 0;
    }
  }

  /** The parts of a tiled run are tiled, and the second starts where the first ends. */
  lemma TiledPart(a: seq<Stretch>, b: seq<Stretch>)
    requires Tiled(a + b)
    ensures Tiled(a) && Tiled(b)
    ensures a != [] && b != [] ==> a[|a| - 1].end == b[0].Start()
  {
    var ab := a + b;
    forall i | 0 <= i < |a|
      ensures a[i] == ab[i]
    {
    }
    forall i | 0 <= i < |b|
      ensures b[i] == ab[|a| + i]
    {
    }
    forall j | 0 < j < |b|
      ensures b[j - 1].end == b[j].Start()
    {
      assert ab[|a| + j - 1].end == ab[|a| + j].Start();
    }
    if a != [] && b != [] {
      assert ab[|a| - 1].end == ab[|a|].Start();
    }
  }

  lemma TiledAppend(a: seq<Stretch>, b: seq<Stretch>)
    requires Tiled(a) && Tiled(b)
    requires a != [] && b != [] ==> a[|a| - 1].end == b[0].Start()
    ensures Tiled(a + b)
  {
  }

  /** Later stretches end later. */
  lemma {:induction false} TiledOrder(fs: seq<Stretch>, i: nat, j: nat)
    requires Tiled(fs) && i <= j < |fs|
    ensures fs[i].end <= fs[j].end && (i < j ==> fs[i].end < fs[j].end)
    decreases j
  {
    if i < j {
      TiledOrder(fs, i, j - 1);
      assert fs[j - 1].end == fs[j].Start();
    }
  }

  ghost predicate AreFolds(held: seq<Stretch>, groups: seq<seq<Stretch>>) {
    && |held| == |groups|
    && forall i :: 0 <= i < |held| ==> IsFold(held[i], groups[i])
  }

  /** Folding groups of a tiled run gives a tiled run over the same time. */
  lemma {:induction false} FoldsTile(held: seq<Stretch>, groups: seq<seq<Stretch>>)
    requires AreFolds(held, groups) && Tiled(Flatten(groups)) && held != []
    ensures Tiled(held) && Flatten(groups) != []
    ensures held[0].Start() == Flatten(groups)[0].Start()
    ensures held[|held| - 1].end == Flatten(groups)[|Flatten(groups)| - 1].end
  {
    var n := |held| - 1;
    var before, last := groups[..n], groups[n];
    assert Flatten(groups) == Flatten(before) + last;
    assert IsFold(held[n], last);
    TiledPart(Flatten(before), last);
    TiledSpan(last);
    assert held == held[..n] + [held[n]];
    if n > 0 {
      FoldsTile(held[..n], before);
      TiledAppend(held[..n], [held[n]]);
    } else {
      assert before == [] && Flatten(before) == [];
    }
  }

  lemma {:induction false} TotalAmountAppend(a: seq<Stretch>, b: seq<Stretch>, k: nat, g: nat)
    ensures TotalAmount(a + b, k, g) == TotalAmount(a, k, g) + TotalAmount(b, k, g)
  {
    if b == [] {
      assert a + b == a;
    } else {
      TotalAmountAppend(a, b[..|b| - 1], k, g);
      assert (a + b)[..|a + b| - 1] == a + b[..|b| - 1];
    }
  }

  /** Folding keeps every program's amount of every kind. */
  lemma {:induction false} FoldsConserve(held: seq<Stretch>, groups: seq<seq<Stretch>>, k: nat, g: nat)
    requires AreFolds(held, groups) && k < KINDS
    ensures TotalAmount(held, k, g) == TotalAmount(Flatten(groups), k, g)
  {
    if held != [] {
      var n := |held| - 1;
      FoldsConserve(held[..n], groups[..n], k, g);
      assert IsFold(held[n], groups[n]);
      TotalAmountAppend(Flatten(groups[..n]), groups[n], k, g);
    }
  }

  lemma FoldOfOne(f: Stretch)
    requires f.Formed()
    ensures IsFold(f, [f])
  {
    assert [f][..0] == [];
    forall k: nat, g: nat | true
      ensures TotalAmount([f], k, g) == if k < |f.lists| then Amount(f.lists[k], g) else 0.0
    {
      SnocFold(f, [], f, k, g);
      assert [] + [f] == [f];
    }
    SnocFold(f, [], f, 0, 0);
    assert [] + [f] == [f];
  }

  lemma FoldsAppend(a: seq<Stretch>, b: seq<Stretch>, c: seq<seq<Stretch>>, d: seq<seq<Stretch>>)
    requires AreFolds(a, c) && AreFolds(b, d)
    ensures AreFolds(a + b, c + d)
  {
  }

  /** `x` and `more` folded together. */
  method FoldIn(x: Stretch, more: Stretch) returns (s: Stretch)
    requires x.Formed() && more.Formed()
    ensures s.Formed() && s.end == more.end && s.span == x.span + more.span && s.machine == x.machine.Plus(more.machine)
    ensures forall k, g :: 0 <= k < KINDS ==> Amount(s.lists[k], g) == Amount(x.lists[k], g) + Amount(more.lists[k], g)
  {
    var lists := x.lists;
    for k := 0 to KINDS
      invariant |lists| == KINDS
      invariant forall j :: 0 <= j < KINDS ==> Sorted(lists[j])
      invariant forall j :: k <= j < KINDS ==> lists[j] == x.lists[j]
      invariant forall j, g :: 0 <= j < k ==> Amount(lists[j], g) == Amount(x.lists[j], g) + Amount(more.lists[j], g)
    {
      var merged := Merge(lists[k], more.lists[k]);
      lists := lists[k := merged];
    }
    s := Stretch(more.end, x.span + more.span, lists, x.machine.Plus(more.machine));
  }

  /** Folding one more in. */
  lemma FoldGrows(x: Stretch, fs: seq<Stretch>, more: Stretch, s: Stretch)
    requires more.Formed() && s.Formed() && (fs == [] ==> x.Formed() && IsBlank(x)) && (fs != [] ==> IsFold(x, fs))
    requires s.end == more.end && s.span == x.span + more.span && s.machine == x.machine.Plus(more.machine)
    requires forall k, g :: 0 <= k < KINDS ==> Amount(s.lists[k], g) == Amount(x.lists[k], g) + Amount(more.lists[k], g)
    ensures IsFold(s, fs + [more])
  {
    SnocFold(x, fs, more, 0, 0);
    forall k, g | 0 <= k < KINDS
      ensures Amount(s.lists[k], g) == TotalAmount(fs + [more], k, g)
    {
      SnocFold(x, fs, more, k, g);
    }
  }

  /** A step nothing has been folded into. */
  const BLANK: Stretch := Stretch(0, 0, [[], [], [], [], [], []], NO_MACHINE)

  predicate IsBlank(x: Stretch) {
    x == BLANK
  }
}
