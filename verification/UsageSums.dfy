/** The fading totals of the processes, what one snapshot adds to them, and their sums. */
module UsageSums {
  import opened Basics
  import opened Model
  import opened UsageLists
  import opened UsageFade
  import opened UsageFolds

  /** A process's fading total, and its counters at its last sample. */
  datatype Entry = Entry(statics: Arc<ProcessStatic>, last: u64, lastCpuNs: nat, total: real, alive: bool, program: nat)

  type Entries = map<ProcessKey, Entry>

  /** What of an entry's total counts for program `of`, or for all of them. */
  function Share(e: Entry, of: Option<nat>): real {
    if of.None? || of.value == e.program then e.total else 0.0
  }

  ghost function SumOf(procs: Entries, of: Option<nat>): real
    decreases |procs|
  {
    if procs == map[] then 0.0
    else
      var k :| k in procs;
      SmallerWithout(procs, k);
      Share(procs[k], of) + SumOf(procs - {k}, of)
  }

  lemma SmallerWithout(procs: Entries, k: ProcessKey)
    requires k in procs
    ensures |procs - {k}| < |procs|
  {
    assert (procs - {k}).Keys == procs.Keys - {k};
    assert |procs.Keys - {k}| == |procs.Keys| - 1;
    assert |procs.Keys| == |procs| && |(procs - {k}).Keys| == |procs - {k}|;
  }

  /** In whatever order. */
  lemma {:induction false} SumWithout(procs: Entries, k: ProcessKey, of: Option<nat>)
    requires k in procs
    ensures SumOf(procs, of) == Share(procs[k], of) + SumOf(procs - {k}, of)
    decreases |procs|
  {
    var first :| first in procs && SumOf(procs, of) == Share(procs[first], of) + SumOf(procs - {first}, of);
    if first != k {
      SmallerWithout(procs, first);
      SmallerWithout(procs, k);
      SumWithout(procs - {first}, k, of);
      SumWithout(procs - {k}, first, of);
      assert procs - {first} - {k} == procs - {k} - {first};
    }
  }

  lemma SumPut(procs: Entries, k: ProcessKey, e: Entry, of: Option<nat>)
    ensures SumOf(procs[k := e], of) == SumOf(procs, of) + Share(e, of) - if k in procs then Share(procs[k], of) else 0.0
  {
    SumWithout(procs[k := e], k, of);
    if k in procs {
      SumWithout(procs, k, of);
      assert procs[k := e] - {k} == procs - {k};
    } else {
      assert procs[k := e] - {k} == procs;
    }
  }

  /** Every total faded, and nobody known to be alive. */
  function Faded(procs: Entries, keep: real): Entries {
    map k | k in procs :: procs[k].(total := procs[k].total * keep, alive := false)
  }

  lemma FadedWithout(procs: Entries, k: ProcessKey, keep: real, of: Option<nat>)
    requires k in procs
    ensures k in Faded(procs, keep) && Share(Faded(procs, keep)[k], of) == Share(procs[k], of) * keep
    ensures Faded(procs, keep) - {k} == Faded(procs - {k}, keep)
  {
    var a, b := Faded(procs, keep) - {k}, Faded(procs - {k}, keep);
    assert a.Keys == b.Keys;
    forall j | j in a
      ensures a[j] == b[j]
    {
      assert (procs - {k})[j] == procs[j];
    }
  }

  lemma {:induction false} SumFaded(procs: Entries, keep: real, of: Option<nat>)
    ensures SumOf(Faded(procs, keep), of) == SumOf(procs, of) * keep
    decreases |procs|
  {
    hide SumOf, Share;
    if procs != map[] {
      var k :| k in procs;
      FadedWithout(procs, k, keep, of);
      SumWithout(procs, k, of);
      SmallerWithout(procs, k);
      SumWithout(Faded(procs, keep), k, of);
      SumFaded(procs - {k}, keep, of);
      Spread(Share(procs[k], of), SumOf(procs - {k}, of), keep);
    } else {
      assert Faded(procs, keep) == map[];
      SumNone(of);
    }
  }

  lemma SumNone(of: Option<nat>)
    ensures SumOf(map[], of) == 0.0
  {
  }

  /** The entries of the processes in `keys`. */
  function Only(procs: Entries, keys: set<ProcessKey>): Entries {
    map k | k in procs && k in keys :: procs[k]
  }

  lemma {:induction false} SumParts(procs: Entries, keys: set<ProcessKey>, of: Option<nat>)
    ensures SumOf(procs, of) == SumOf(Only(procs, keys), of) + SumOf(Only(procs, procs.Keys - keys), of)
    decreases |procs|
  {
    var ins, outs := Only(procs, keys), Only(procs, procs.Keys - keys);
    if procs == map[] {
      assert ins == map[] && outs == map[];
    } else {
      var k :| k in procs;
      SumWithout(procs, k, of);
      SmallerWithout(procs, k);
      var rest := procs - {k};
      SumParts(rest, keys, of);
      if k in keys {
        SumWithout(ins, k, of);
        assert ins - {k} == Only(rest, keys) && outs == Only(rest, rest.Keys - keys);
      } else {
        SumWithout(outs, k, of);
        assert ins == Only(rest, keys) && outs - {k} == Only(rest, rest.Keys - keys);
      }
    }
  }

  // What one snapshot adds

  /** When a snapshot was taken, and how long the stretch is that it ends. */
  datatype When = When(first: bool, session: int, now: int, span: int, rate: Rate) {
    function Keep(): real {
      rate.kept(span)
    }

    function Arrived(): real {
      rate.arrived(span)
    }
  }

  /** Cycles and CPU time a process used in a stretch. */
  datatype Took = Took(cycles: nat, cpuNs: nat)

  function StartedSince(p: ProcessSample, when: When): bool {
    !when.first && p.statics.value.startedUnixMs.Some? && p.statics.value.startedUnixMs.value >= when.session
  }

  /** All it has used if it started since the session did, nothing yet if it was running
      before anyone watched. */
  function TookOf(known: Entries, p: ProcessSample, when: When): Took {
    if p.Key() in known then
      var e := known[p.Key()];
      Took(Max(p.cycles - e.last, 0), Max(p.cpuTimeNs - e.lastCpuNs, 0))
    else if StartedSince(p, when) then Took(p.cycles, p.cpuTimeNs)
    else Took(0, 0)
  }

  /** A first estimate for a process older than the session: its cycles so far taken as
      spread over its whole life. Zero if the start of that life is unknown. */
  function GuessBefore(p: ProcessSample, when: When): real {
    match p.statics.value.startedUnixMs
    case Some(started) => p.cycles as real * when.rate.arrived(Max(when.now - started, 0))
    case None => 0.0
  }

  /** What a process's total starts from, before what it took in the stretch. */
  function Base(known: Entries, p: ProcessSample, when: When): real {
    if p.Key() in known then known[p.Key()].total
    else if when.first && !StartedSince(p, when) then GuessBefore(p, when)
    else 0.0
  }

  /** A process's amounts of each kind over a stretch. `percent` is what the bits of a
      percentage stand for. */
  function Row(took: Took, p: ProcessSample, span: int, percent: bv32 -> real): (row: seq<real>)
    ensures |row| == KINDS && row[CYCLES] == took.cycles as real
  {
    [took.cycles as real,
     took.cpuNs as real / 1_000_000.0,
     p.privateWorkingSet as real * span as real,
     percent(p.gpuShare) / 100.0 * span as real,
     p.gpuDedicated as real * span as real,
     p.gpuShared as real * span as real]
  }

  /** The kernel's idle accounting is not a process. */
  predicate IsIdle(p: ProcessSample) {
    p.Key().pid == 0
  }

  /** What each process of a snapshot adds to its program's amount of kind `k`: `known`
      are the entries before it, `procs` those that say which program each is of. */
  function Shares(ps: seq<ProcessSample>, known: Entries, procs: Entries, when: When, percent: bv32 -> real, k: nat): (l: List)
    requires k < KINDS
    ensures |l| == |ps|
  {
    seq(|ps|, i requires 0 <= i < |ps| =>
      (if ps[i].Key() in procs then procs[ps[i].Key()].program else 0,
       if IsIdle(ps[i]) then 0.0 else Row(TookOf(known, ps[i], when), ps[i], when.span, percent)[k]))
  }

  lemma SharesNext(
    ps: seq<ProcessSample>, i: nat, known: Entries, procs: Entries, procs': Entries, when: When, percent: bv32 -> real,
    k: nat, g: nat)
    requires k < KINDS && i < |ps|
    requires forall j :: 0 <= j < i && !IsIdle(ps[j]) ==> ps[j].Key() in procs && ps[j].Key() in procs'
    requires forall j :: 0 <= j < i && !IsIdle(ps[j]) ==> procs[ps[j].Key()].program == procs'[ps[j].Key()].program
    ensures Amount(Shares(ps[..i + 1], known, procs', when, percent, k), g)
      == Amount(Shares(ps[..i], known, procs, when, percent, k), g)
        + var s := Shares(ps, known, procs', when, percent, k)[i]; if s.0 == g then s.1 else 0.0
  {
    var now := Shares(ps[..i + 1], known, procs', when, percent, k);
    SameAmounts(now[..i], Shares(ps[..i], known, procs, when, percent, k), g);
    assert now[i] == Shares(ps, known, procs', when, percent, k)[i];
  }

  /** Entries that add nothing may be anybody's. */
  lemma {:induction false} SameAmounts(a: List, b: List, g: nat)
    requires |a| == |b|
    requires forall i :: 0 <= i < |a| ==> a[i] == b[i] || a[i].1 == b[i].1 == 0.0
    ensures Amount(a, g) == Amount(b, g)
  {
    if a != [] {
      SameAmounts(a[..|a| - 1], b[..|b| - 1], g);
    }
  }

  // A program's amounts, side by side

  function At(byProgram: seq<seq<real>>, g: nat, k: nat): real {
    if g < |byProgram| && k < |byProgram[g]| then byProgram[g][k] else 0.0
  }

  predicate Rows(byProgram: seq<seq<real>>) {
    forall g :: 0 <= g < |byProgram| ==> |byProgram[g]| == KINDS
  }

  const NO_ROW: seq<real> := [0.0, 0.0, 0.0, 0.0, 0.0, 0.0]

  function Plus(a: seq<real>, b: seq<real>): seq<real>
    requires |a| == |b|
  {
    seq(|a|, k requires 0 <= k < |a| => a[k] + b[k])
  }

  /** `byProgram` with `row` added to program `g`'s, grown to reach it. */
  function AddRow(byProgram: seq<seq<real>>, g: nat, row: seq<real>): (r: seq<seq<real>>)
    requires Rows(byProgram) && |row| == KINDS
    ensures Rows(r)
    ensures forall h, k :: 0 <= k < KINDS ==> At(r, h, k) == At(byProgram, h, k) + if h == g then row[k] else 0.0
  {
    var grown := if g < |byProgram| then byProgram else byProgram + seq(g + 1 - |byProgram|, i => NO_ROW);
    grown[g := Plus(grown[g], row)]
  }

  function Above(x: real): real {
    if x > 0.0 then x else 0.0
  }

  /** The programs with any of kind `k`, and how much. */
  method Listed(byProgram: seq<seq<real>>, k: nat) returns (l: List)
    requires Rows(byProgram) && k < KINDS
    ensures Sorted(l)
    ensures forall g: nat :: Amount(l, g) == Above(At(byProgram, g, k))
    ensures forall i :: 0 <= i < |l| ==> l[i].1 > 0.0
  {
    l := [];
    for program := 0 to |byProgram|
      invariant Sorted(l)
      invariant forall i :: 0 <= i < |l| ==> l[i].0 < program && l[i].1 > 0.0
      invariant forall g: nat :: Amount(l, g) == if g < program then Above(At(byProgram, g, k)) else 0.0
    {
      var v := byProgram[program][k];
      if v > 0.0 {
        forall g: nat
          ensures Amount(l + [(program, v)], g) == Amount(l, g) + if program == g then v else 0.0
        {
          Appended(l, (program, v), g);
        }
        l := l + [(program, v)];
      }
    }
  }

  // Ghosts

  /** Which entries stay: those of processes that live, and of ghosts that still matter. */
  function Staying(procs: Entries, floor: real): set<ProcessKey> {
    set k | k in procs && (procs[k].alive || procs[k].total >= floor)
  }

  /** All the totals together. */
  method SumAll(procs: Entries) returns (sum: real)
    ensures sum == SumOf(procs, None)
  {
    sum := 0.0;
    var todo := procs;
    while todo != map[]
      invariant sum + SumOf(todo, None) == SumOf(procs, None)
      decreases |todo|
    {
      var k :| k in todo;
      SumWithout(todo, k, None);
      SmallerWithout(todo, k);
      sum := sum + todo[k].total;
      todo := todo - {k};
    }
  }
}
