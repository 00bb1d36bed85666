/** What each process of a snapshot does to the totals, the chart's sums and the lineage. */
module UsageSteps {
  import opened Basics
  import opened Model
  import opened UsageLists
  import opened UsageFade
  import opened UsageFolds
  import opened UsageHistory
  import opened UsageLineage
  import opened UsageSums

  const NANOS_PER_MS: int := 1_000_000
  const LAST_MS: int := 0x7FFF_FFFF_FFFF_FFFF

  /** When a snapshot was taken, in milliseconds since the Unix epoch: the clock's time
      for one that says it was before that. */
  function NowMs(takenAt: int, clockMs: int): int {
    if takenAt >= 0 then Min(takenAt / NANOS_PER_MS, LAST_MS) else clockMs
  }

  predicate Distinct(ps: seq<ProcessSample>) {
    forall i, j :: 0 <= i < j < |ps| ==> ps[i].Key() != ps[j].Key()
  }

  predicate Listing(ps: seq<ProcessSample>, k: ProcessKey) {
    exists i :: 0 <= i < |ps| && !IsIdle(ps[i]) && ps[i].Key() == k
  }

  /** What a process's entry is once it has been seen in a snapshot. */
  predicate SightedAs(known: Entries, e: Entry, p: ProcessSample, when: When) {
    && e.statics.addr == p.statics.addr
    && e.last == p.cycles && e.lastCpuNs == p.cpuTimeNs && e.alive
    && e.total == Base(known, p, when) + TookOf(known, p, when).cycles as real * when.Arrived()
    && (p.Key() in known ==> e.program == known[p.Key()].program)
  }

  /** Those seen are as they were seen, the others as they were. */
  ghost predicate Sighted(known: Entries, procs: Entries, ps: seq<ProcessSample>, when: When) {
    && (forall i :: 0 <= i < |ps| && !IsIdle(ps[i]) ==> ps[i].Key() in procs && SightedAs(known, procs[ps[i].Key()], ps[i], when))
    && (forall k :: k in known ==> k in procs && procs[k].program == known[k].program)
    && (forall k :: k in procs && !Listing(ps, k) ==> k in known && procs[k] == known[k])
  }

  /** Every total as it was, and what came in since. */
  ghost predicate Grown(
    known: Entries, procs: Entries, ps: seq<ProcessSample>, when: When, percent: bv32 -> real, was: seq<real>, start: seq<real>)
  {
    forall g: nat :: SumOf(procs, Some(g)) == SumOf(known, Some(g))
      + Amount(Shares(ps, known, procs, when, percent, CYCLES), g) * when.Arrived() + TotalOf(start, g) - TotalOf(was, g)
  }

  ghost predicate Charted(
    byProgram: seq<seq<real>>, ps: seq<ProcessSample>, known: Entries, procs: Entries, when: When, percent: bv32 -> real)
  {
    && Rows(byProgram)
    && forall g: nat, k :: 0 <= k < KINDS ==> At(byProgram, g, k) == Amount(Shares(ps, known, procs, when, percent, k), g)
  }

  /** A process new to the totals starts its program on what its total starts from. */
  ghost predicate StartedOn(was: seq<real>, start: seq<real>, known: Entries, e: Entry, p: ProcessSample, when: When) {
    forall g: nat :: TotalOf(start, g)
      == TotalOf(was, g) + if p.Key() !in known && e.program == g then Base(known, p, when) else 0.0
  }

  /** What the lineage is after the processes of a snapshot have been noted in it. */
  function SeeAll(seen: Lineage, ps: seq<ProcessSample>, procs: Entries, now: int): Lineage {
    if ps == [] then seen
    else
      var p, before := ps[|ps| - 1], SeeAll(seen, ps[..|ps| - 1], procs, now);
      if IsIdle(p) || p.Key() !in procs then before else See(before, p, procs[p.Key()].program, now)
  }

  /** Which program is which. */
  predicate Named(programs: seq<string>, ids: map<string, nat>) {
    && (forall i :: 0 <= i < |programs| ==> programs[i] in ids && ids[programs[i]] == i)
    && (forall n :: n in ids ==> ids[n] < |programs| && programs[ids[n]] == n)
  }

  // One process

  lemma ListingGrows(ps: seq<ProcessSample>, i: nat, k: ProcessKey)
    requires i < |ps|
    ensures Listing(ps[..i + 1], k) <==> Listing(ps[..i], k) || (!IsIdle(ps[i]) && ps[i].Key() == k)
  {
    var before, after := ps[..i], ps[..i + 1];
    assert after[i] == ps[i];
    assert forall j :: 0 <= j < i ==> before[j] == after[j];
  }

  /** A process is put among the entries. */
  lemma SightedNext(
    known: Entries, procs: Entries, ps: seq<ProcessSample>, i: nat, e: Entry, when: When)
    requires i < |ps| && Distinct(ps) && !IsIdle(ps[i])
    requires Sighted(known, procs, ps[..i], when) && SightedAs(known, e, ps[i], when)
    ensures Sighted(known, procs[ps[i].Key() := e], ps[..i + 1], when)
  {
    var procs' := procs[ps[i].Key() := e];
    forall k | k in procs' && !Listing(ps[..i + 1], k)
      ensures k in known && procs'[k] == known[k]
    {
      ListingGrows(ps, i, k);
    }
    var seen := ps[..i + 1];
    forall j | 0 <= j < |seen| && !IsIdle(seen[j])
      ensures seen[j].Key() in procs' && SightedAs(known, procs'[seen[j].Key()], seen[j], when)
    {
      if j < i {
        assert ps[..i][j] == ps[j];
      }
    }
  }

  lemma IdleNext(known: Entries, procs: Entries, ps: seq<ProcessSample>, i: nat, when: When)
    requires i < |ps| && IsIdle(ps[i]) && Sighted(known, procs, ps[..i], when)
    ensures Sighted(known, procs, ps[..i + 1], when)
  {
    forall k | k in procs && !Listing(ps[..i + 1], k)
      ensures k in known && procs[k] == known[k]
    {
      ListingGrows(ps, i, k);
    }
    var seen := ps[..i + 1];
    forall j | 0 <= j < |seen| && !IsIdle(seen[j])
      ensures seen[j].Key() in procs && SightedAs(known, procs[seen[j].Key()], seen[j], when)
    {
      assert ps[..i][j] == ps[j];
    }
  }

  /** The programs the processes seen so far are charted under do not change. */
  lemma ProgramsStay(known: Entries, procs: Entries, ps: seq<ProcessSample>, i: nat, e: Entry, when: When)
    requires i < |ps| && Distinct(ps) && Sighted(known, procs, ps[..i], when)
    ensures forall j :: 0 <= j < i && !IsIdle(ps[j]) ==>
      ps[j].Key() in procs && ps[j].Key() in procs[ps[i].Key() := e]
      && procs[ps[j].Key()].program == procs[ps[i].Key() := e][ps[j].Key()].program
  {
    forall j | 0 <= j < i && !IsIdle(ps[j])
      ensures ps[j].Key() in procs && ps[j].Key() != ps[i].Key()
    {
      assert ps[..i][j] == ps[j];
    }
  }

  lemma ChartedNext(
    byProgram: seq<seq<real>>, ps: seq<ProcessSample>, i: nat, known: Entries, procs: Entries, e: Entry, when: When,
    percent: bv32 -> real)
    requires i < |ps| && Distinct(ps) && !IsIdle(ps[i]) && Sighted(known, procs, ps[..i], when)
    requires Charted(byProgram, ps[..i], known, procs, when, percent)
    ensures Charted(AddRow(byProgram, e.program, Row(TookOf(known, ps[i], when), ps[i], when.span, percent)),
                    ps[..i + 1], known, procs[ps[i].Key() := e], when, percent)
  {
    hide Amount, At, Row, Sighted;
    var procs' := procs[ps[i].Key() := e];
    var row := Row(TookOf(known, ps[i], when), ps[i], when.span, percent);
    ProgramsStay(known, procs, ps, i, e, when);
    forall g: nat, k | 0 <= k < KINDS
      ensures At(AddRow(byProgram, e.program, row), g, k) == Amount(Shares(ps[..i + 1], known, procs', when, percent, k), g)
    {
      SharesNext(ps, i, known, procs, procs', when, percent, k, g);
    }
  }

  lemma ChartedIdle(
    byProgram: seq<seq<real>>, ps: seq<ProcessSample>, i: nat, known: Entries, procs: Entries, when: When,
    percent: bv32 -> real)
    requires i < |ps| && IsIdle(ps[i]) && Sighted(known, procs, ps[..i], when)
    requires Charted(byProgram, ps[..i], known, procs, when, percent)
    ensures Charted(byProgram, ps[..i + 1], known, procs, when, percent)
  {
    hide Amount, At, Row;
    assert forall j :: 0 <= j < i ==> ps[..i][j] == ps[j];
    forall g: nat, k | 0 <= k < KINDS
      ensures At(byProgram, g, k) == Amount(Shares(ps[..i + 1], known, procs, when, percent, k), g)
    {
      SharesNext(ps, i, known, procs, procs, when, percent, k, g);
    }
  }

  lemma GrownNext(
    known: Entries, procs: Entries, ps: seq<ProcessSample>, i: nat, e: Entry, when: When, percent: bv32 -> real,
    was: seq<real>, start: seq<real>, start': seq<real>)
    requires i < |ps| && Distinct(ps) && !IsIdle(ps[i]) && Sighted(known, procs, ps[..i], when)
    requires ps[i].Key() in procs <==> ps[i].Key() in known
    requires ps[i].Key() in known ==> procs[ps[i].Key()] == known[ps[i].Key()]
    requires SightedAs(known, e, ps[i], when)
    requires Grown(known, procs, ps[..i], when, percent, was, start)
    requires StartedOn(start, start', known, e, ps[i], when)
    ensures Grown(known, procs[ps[i].Key() := e], ps[..i + 1], when, percent, was, start')
  {
    hide Amount, SumOf, Sighted, TotalOf, StartedOn, SightedAs, TookOf, Base, Share, Row;
    var procs' := procs[ps[i].Key() := e];
    ProgramsStay(known, procs, ps, i, e, when);
    forall g: nat
      ensures SumOf(procs', Some(g)) == SumOf(known, Some(g))
        + Amount(Shares(ps[..i + 1], known, procs', when, percent, CYCLES), g) * when.Arrived()
        + TotalOf(start', g) - TotalOf(was, g)
    {
      SharesNext(ps, i, known, procs, procs', when, percent, CYCLES, g);
      SumPut(procs, ps[i].Key(), e, Some(g));
      GrownBy(known, ps[i], e, when, start, start', g);
      Spread(Amount(Shares(ps[..i], known, procs, when, percent, CYCLES), g),
             if e.program == g then TookOf(known, ps[i], when).cycles as real else 0.0, when.Arrived());
    }
  }

  /** What one process's entry gains is what it took, as much as arrived, and what it starts on. */
  lemma GrownBy(known: Entries, p: ProcessSample, e: Entry, when: When, start: seq<real>, start': seq<real>, g: nat)
    requires SightedAs(known, e, p, when)
    requires StartedOn(start, start', known, e, p, when)
    ensures Share(e, Some(g)) - (if p.Key() in known then Share(known[p.Key()], Some(g)) else 0.0)
      == (if e.program == g then TookOf(known, p, when).cycles as real else 0.0) * when.Arrived()
        + TotalOf(start', g) - TotalOf(start, g)
  {
    hide TotalOf, TookOf;
  }

  lemma GrownIdle(
    known: Entries, procs: Entries, ps: seq<ProcessSample>, i: nat, when: When, percent: bv32 -> real,
    was: seq<real>, start: seq<real>)
    requires i < |ps| && IsIdle(ps[i]) && Sighted(known, procs, ps[..i], when)
    requires Grown(known, procs, ps[..i], when, percent, was, start)
    ensures Grown(known, procs, ps[..i + 1], when, percent, was, start)
  {
    hide Amount, SumOf;
    assert forall j :: 0 <= j < i ==> ps[..i][j] == ps[j];
    forall g: nat
      ensures Amount(Shares(ps[..i + 1], known, procs, when, percent, CYCLES), g)
        == Amount(Shares(ps[..i], known, procs, when, percent, CYCLES), g)
    {
      SharesNext(ps, i, known, procs, procs, when, percent, CYCLES, g);
    }
  }

  lemma {:induction false} SeeAllStays(seen: Lineage, ps: seq<ProcessSample>, procs: Entries, procs': Entries, now: int)
    requires forall j :: 0 <= j < |ps| && !IsIdle(ps[j]) ==>
      ps[j].Key() in procs && ps[j].Key() in procs' && procs[ps[j].Key()].program == procs'[ps[j].Key()].program
    ensures SeeAll(seen, ps, procs, now) == SeeAll(seen, ps, procs', now)
  {
    if ps != [] {
      SeeAllStays(seen, ps[..|ps| - 1], procs, procs', now);
    }
  }

  lemma SeeAllNext(
    seen: Lineage, known: Entries, procs: Entries, ps: seq<ProcessSample>, i: nat, e: Entry, when: When)
    requires i < |ps| && Distinct(ps) && Sighted(known, procs, ps[..i], when)
    ensures SeeAll(seen, ps[..i + 1], procs[ps[i].Key() := e], when.now)
      == if IsIdle(ps[i]) then SeeAll(seen, ps[..i], procs, when.now)
         else See(SeeAll(seen, ps[..i], procs, when.now), ps[i], e.program, when.now)
  {
    ProgramsStay(known, procs, ps, i, e, when);
    SeeAllStays(seen, ps[..i], procs, procs[ps[i].Key() := e], when.now);
    assert ps[..i + 1][..i] == ps[..i];
  }

  /** Everything folding in the first few processes of a snapshot has done. */
  ghost predicate FoldedIn(
    known: Entries, procs: Entries, ps: seq<ProcessSample>, when: When, percent: bv32 -> real, byProgram: seq<seq<real>>,
    was: seq<real>, start: seq<real>, unseen: Lineage, seen: Lineage)
  {
    && Sighted(known, procs, ps, when)
    && Charted(byProgram, ps, known, procs, when, percent)
    && Grown(known, procs, ps, when, percent, was, start)
    && seen == SeeAll(unseen, ps, procs, when.now)
  }

  lemma FoldedInNone(known: Entries, when: When, percent: bv32 -> real, was: seq<real>, unseen: Lineage)
    ensures FoldedIn(known, known, [], when, percent, [], was, was, unseen, unseen)
  {
    assert forall k :: !Listing([], k);
    forall g: nat, k | 0 <= k < KINDS
      ensures Amount(Shares([], known, known, when, percent, k), g) == 0.0
    {
      assert Shares([], known, known, when, percent, k) == [];
    }
  }

  lemma FoldedInIdle(
    known: Entries, procs: Entries, ps: seq<ProcessSample>, i: nat, when: When, percent: bv32 -> real, byProgram: seq<seq<real>>,
    was: seq<real>, start: seq<real>, unseen: Lineage, seen: Lineage)
    requires i < |ps| && IsIdle(ps[i])
    requires FoldedIn(known, procs, ps[..i], when, percent, byProgram, was, start, unseen, seen)
    ensures FoldedIn(known, procs, ps[..i + 1], when, percent, byProgram, was, start, unseen, seen)
  {
    hide Sighted, Charted, Grown;
    IdleNext(known, procs, ps, i, when);
    ChartedIdle(byProgram, ps, i, known, procs, when, percent);
    GrownIdle(known, procs, ps, i, when, percent, was, start);
    assert ps[..i + 1][..i] == ps[..i];
  }

  lemma FoldedInNext(
    known: Entries, procs: Entries, ps: seq<ProcessSample>, i: nat, e: Entry, when: When, percent: bv32 -> real,
    byProgram: seq<seq<real>>, was: seq<real>, start: seq<real>, start': seq<real>, unseen: Lineage, seen: Lineage)
    requires i < |ps| && Distinct(ps) && !IsIdle(ps[i])
    requires FoldedIn(known, procs, ps[..i], when, percent, byProgram, was, start, unseen, seen)
    requires SightedAs(procs, e, ps[i], when)
    requires StartedOn(start, start', procs, e, ps[i], when)
    ensures ps[i].Key() in procs <==> ps[i].Key() in known
    ensures TookOf(procs, ps[i], when) == TookOf(known, ps[i], when)
    ensures FoldedIn(known, procs[ps[i].Key() := e], ps[..i + 1], when, percent,
                     AddRow(byProgram, e.program, Row(TookOf(procs, ps[i], when), ps[i], when.span, percent)),
                     was, start', unseen, See(seen, ps[i], e.program, when.now))
  {
    hide Sighted, Charted, Grown, SightedAs, StartedOn, Row, AddRow, Listing, Distinct;
    Unlisted(known, procs, ps, i, when);
    SameFrom(known, procs, e, ps[i], when, start, start');
    SightedNext(known, procs, ps, i, e, when);
    ChartedNext(byProgram, ps, i, known, procs, e, when, percent);
    GrownNext(known, procs, ps, i, e, when, percent, was, start, start');
    SeeAllNext(unseen, known, procs, ps, i, e, when);
  }

  lemma SameFrom(
    known: Entries, procs: Entries, e: Entry, p: ProcessSample, when: When, start: seq<real>, start': seq<real>)
    requires p.Key() in procs <==> p.Key() in known
    requires p.Key() in known ==> procs[p.Key()] == known[p.Key()]
    requires SightedAs(procs, e, p, when) && StartedOn(start, start', procs, e, p, when)
    ensures TookOf(procs, p, when) == TookOf(known, p, when)
    ensures SightedAs(known, e, p, when) && StartedOn(start, start', known, e, p, when)
  {
    assert Base(procs, p, when) == Base(known, p, when);
  }

  /** A process not yet come to is as it was. */
  lemma Unlisted(known: Entries, procs: Entries, ps: seq<ProcessSample>, i: nat, when: When)
    requires i < |ps| && Distinct(ps) && Sighted(known, procs, ps[..i], when)
    ensures ps[i].Key() in procs <==> ps[i].Key() in known
    ensures ps[i].Key() in known ==> procs[ps[i].Key()] == known[ps[i].Key()]
  {
    assert !Listing(ps[..i], ps[i].Key());
  }

  /** Every new process is charted under its label. */
  ghost predicate Labelled(
    known: Entries, procs: Entries, programs: seq<string>, labelOf: ProcessStatic -> string, ps: seq<ProcessSample>)
  {
    forall i :: 0 <= i < |ps| && !IsIdle(ps[i]) && ps[i].Key() !in known ==>
      ps[i].Key() in procs && procs[ps[i].Key()].program < |programs|
      && programs[procs[ps[i].Key()].program] == labelOf(ps[i].statics.value)
  }

  lemma LabelledNext(
    known: Entries, procs: Entries, e: Entry, programs: seq<string>, programs': seq<string>,
    labelOf: ProcessStatic -> string, ps: seq<ProcessSample>, i: nat)
    requires i < |ps| && programs <= programs' && e.program < |programs'| && Distinct(ps)
    requires Labelled(known, procs, programs, labelOf, ps[..i])
    requires ps[i].Key() !in known ==> programs'[e.program] == labelOf(ps[i].statics.value)
    ensures Labelled(known, procs[ps[i].Key() := e], programs', labelOf, ps[..i + 1])
  {
    assert ps[..i + 1][i] == ps[i];
    assert forall j :: 0 <= j < i ==> ps[..i + 1][j] == ps[..i][j];
  }

  lemma LabelledIdle(
    known: Entries, procs: Entries, programs: seq<string>, labelOf: ProcessStatic -> string, ps: seq<ProcessSample>, i: nat)
    requires i < |ps| && IsIdle(ps[i]) && Labelled(known, procs, programs, labelOf, ps[..i])
    ensures Labelled(known, procs, programs, labelOf, ps[..i + 1])
  {
    assert ps[..i + 1][i] == ps[i];
    assert forall j :: 0 <= j < i ==> ps[..i + 1][j] == ps[..i][j];
  }

  lemma FoldedInRows(
    known: Entries, procs: Entries, ps: seq<ProcessSample>, when: When, percent: bv32 -> real, byProgram: seq<seq<real>>,
    was: seq<real>, start: seq<real>, unseen: Lineage, seen: Lineage)
    requires FoldedIn(known, procs, ps, when, percent, byProgram, was, start, unseen, seen)
    ensures Rows(byProgram)
  {
  }
}
