/** What a snapshot's counters come to: the totals and the chart in terms of the counters
    themselves, and that no cycle is counted twice. */
module UsageCounters {
  import opened Basics
  import opened Model
  import opened UsageLists
  import opened UsageFolds
  import opened UsageLineage
  import opened UsageSums
  import opened UsageSteps

  /** It came up after the session's first snapshot was taken. */
  predicate IsNew(p: ProcessSample, when: When) {
    !when.first && p.statics.value.startedUnixMs.Some? && p.statics.value.startedUnixMs.value >= when.session
  }

  /** A listed process's entry, in counters: known before, its total has faded and gained what
      the counter rose by; new to the machine, all the counter says; else only a guess of what
      went before the session, at its first snapshot. */
  ghost predicate CountedAs(was: Entries, e: Entry, p: ProcessSample, when: When) {
    && e.last == p.cycles && e.lastCpuNs == p.cpuTimeNs && e.alive
    && e.total ==
       if p.Key() in was then
         was[p.Key()].total * when.rate.kept(when.span)
         + Max(p.cycles - was[p.Key()].last, 0) as real * when.rate.arrived(when.span)
       else if IsNew(p, when) then p.cycles as real * when.rate.arrived(when.span)
       else if when.first && p.statics.value.startedUnixMs.Some? then
         p.cycles as real * when.rate.arrived(Max(when.now - p.statics.value.startedUnixMs.value, 0))
       else 0.0
  }

  lemma EachListed(was: Entries, mid: Entries, ps: seq<ProcessSample>, when: When, i: nat)
    requires Sighted(Faded(was, when.Keep()), mid, ps, when) && i < |ps| && !IsIdle(ps[i])
    ensures ps[i].Key() in mid && CountedAs(was, mid[ps[i].Key()], ps[i], when)
    ensures ps[i].Key() in was ==> mid[ps[i].Key()].program == was[ps[i].Key()].program
  {
    assert SightedAs(Faded(was, when.Keep()), mid[ps[i].Key()], ps[i], when);
  }

  /** A process that is not listed has faded, and is not taken to live. */
  lemma EachUnlisted(was: Entries, mid: Entries, ps: seq<ProcessSample>, when: When, k: ProcessKey)
    requires Sighted(Faded(was, when.Keep()), mid, ps, when) && !Listing(ps, k)
    ensures k in mid <==> k in was
    ensures k in was ==> mid[k] == was[k].(total := was[k].total * when.rate.kept(when.span), alive := false)
  {
  }

  /** What the lineage has of a listed process: when it was first and last seen, what it was
      first charted under, and the parent it is now said to have. */
  lemma {:induction false} EachNoted(seen: Lineage, ps: seq<ProcessSample>, procs: Entries, now: int, i: nat)
    requires Distinct(ps) && i < |ps| && ps[i].Key().pid != 0 && ps[i].Key() in procs
    ensures ps[i].Key() in SeeAll(seen, ps, procs, now)
    ensures var k, facts := ps[i].Key(), ps[i].statics.value;
      SeeAll(seen, ps, procs, now)[k] == Seen(
        facts.parent,
        if facts.parent.Some? || facts.parentPid == Some(0) then None else facts.parentPid,
        if k in seen then seen[k].program else procs[k].program,
        if k in seen then seen[k].firstMs else now,
        now)
  {
    var n := |ps| - 1;
    if i < n {
      EachNoted(seen, ps[..n], procs, now, i);
    } else {
      NotNoted(seen, ps[..n], procs, now, ps[i].Key());
    }
  }

  lemma {:induction false} NotNoted(seen: Lineage, ps: seq<ProcessSample>, procs: Entries, now: int, k: ProcessKey)
    requires forall i :: 0 <= i < |ps| && ps[i].Key() == k ==> k.pid == 0
    ensures k in SeeAll(seen, ps, procs, now) <==> k in seen
    ensures k in seen ==> SeeAll(seen, ps, procs, now)[k] == seen[k]
  {
    if ps != [] {
      NotNoted(seen, ps[..|ps| - 1], procs, now, k);
    }
  }

  // What the chart gets

  /** What one process adds to its program's amount of a kind. */
  function Adds(was: Entries, p: ProcessSample, when: When, percent: bv32 -> real, kind: nat): real {
    match kind
    case 0 =>
      (if p.Key() in was then Max(p.cycles - was[p.Key()].last, 0) else if IsNew(p, when) then p.cycles else 0) as real
    case 1 =>
      (if p.Key() in was then Max(p.cpuTimeNs - was[p.Key()].lastCpuNs, 0) else if IsNew(p, when) then p.cpuTimeNs else 0)
        as real / 1_000_000.0
    case 2 => p.privateWorkingSet as real * when.span as real
    case 3 => percent(p.gpuShare) / 100.0 * when.span as real
    case 4 => p.gpuDedicated as real * when.span as real
    case _ => p.gpuShared as real * when.span as real
  }

  /** What the processes of program `g` add, one after another. */
  function AllAdd(
    was: Entries, mid: Entries, ps: seq<ProcessSample>, when: When, percent: bv32 -> real, kind: nat, g: nat): real
  {
    if ps == [] then 0.0
    else
      var p := ps[|ps| - 1];
      AllAdd(was, mid, ps[..|ps| - 1], when, percent, kind, g)
      + if p.Key().pid != 0 && p.Key() in mid && mid[p.Key()].program == g then Adds(was, p, when, percent, kind) else 0.0
  }

  lemma OneAdds(was: Entries, p: ProcessSample, when: When, percent: bv32 -> real, kind: nat)
    requires kind < KINDS
    ensures Row(TookOf(Faded(was, when.Keep()), p, when), p, when.span, percent)[kind] == Adds(was, p, when, percent, kind)
  {
  }

  /** The charted amounts are those sums. */
  lemma {:induction false} SharesAdd(
    was: Entries, mid: Entries, ps: seq<ProcessSample>, when: When, percent: bv32 -> real, kind: nat, g: nat)
    requires kind < KINDS
    requires forall i :: 0 <= i < |ps| && !IsIdle(ps[i]) ==> ps[i].Key() in mid
    ensures Amount(Shares(ps, Faded(was, when.Keep()), mid, when, percent, kind), g)
      == AllAdd(was, mid, ps, when, percent, kind, g)
  {
    hide Row, TookOf, Adds, Faded;
    if ps != [] {
      var n := |ps| - 1;
      var l := Shares(ps, Faded(was, when.Keep()), mid, when, percent, kind);
      assert l[..n] == Shares(ps[..n], Faded(was, when.Keep()), mid, when, percent, kind);
      SharesAdd(was, mid, ps[..n], when, percent, kind, g);
      OneAdds(was, ps[n], when, percent, kind);
    }
  }

  // No cycle twice

  /** The counters of program `g`'s processes, as last seen. */
  ghost function Counters(procs: Entries, g: nat): real {
    SumOf(Lasts(procs), Some(g))
  }

  function Lasts(procs: Entries): Entries {
    map k | k in procs :: OnlyLast(procs[k])
  }

  /** An entry with its counter for a total, and nothing else but its program. */
  function OnlyLast(e: Entry): Entry {
    Entry(Arc(0, NO_STATICS), e.last, 0, e.last as real, false, e.program)
  }

  /** `was` with the entries of the processes listed put in its place for them. */
  function Put(was: Entries, mid: Entries, ps: seq<ProcessSample>): Entries {
    if ps == [] then was
    else
      var k, before := ps[|ps| - 1].Key(), Put(was, mid, ps[..|ps| - 1]);
      if IsIdle(ps[|ps| - 1]) || k !in mid then before else before[k := mid[k]]
  }

  lemma {:induction false} PutIs(was: Entries, mid: Entries, ps: seq<ProcessSample>)
    requires forall i :: 0 <= i < |ps| && !IsIdle(ps[i]) ==> ps[i].Key() in mid
    ensures forall k :: k in Put(was, mid, ps) <==> k in was || Listing(ps, k)
    ensures forall k :: k in Put(was, mid, ps) ==> Put(was, mid, ps)[k] == if Listing(ps, k) then mid[k] else was[k]
  {
    if ps != [] {
      var n := |ps| - 1;
      PutIs(was, mid, ps[..n]);
      assert ps[..n + 1] == ps;
      forall k
        ensures Listing(ps, k) <==> Listing(ps[..n], k) || (!IsIdle(ps[n]) && ps[n].Key() == k)
      {
        ListingGrows(ps, n, k);
      }
    }
  }

  /** The cycles counters already had when their processes joined, which nobody is charged. */
  function JoinedWith(was: Entries, mid: Entries, ps: seq<ProcessSample>, when: When, g: nat): real {
    if ps == [] then 0.0
    else
      var p := ps[|ps| - 1];
      JoinedWith(was, mid, ps[..|ps| - 1], when, g)
      + if p.Key().pid != 0 && p.Key() in mid && mid[p.Key()].program == g && p.Key() !in was && !IsNew(p, when)
        then p.cycles as real else 0.0
  }

  /** No counter of a known process has gone back. */
  predicate NoneFell(was: Entries, ps: seq<ProcessSample>) {
    forall i :: 0 <= i < |ps| && !IsIdle(ps[i]) && ps[i].Key() in was ==> ps[i].cycles >= was[ps[i].Key()].last
  }

  lemma {:induction false} PutCounts(
    was: Entries, mid: Entries, all: seq<ProcessSample>, ps: seq<ProcessSample>, when: When, percent: bv32 -> real, g: nat)
    requires Distinct(ps) && NoneFell(was, ps)
    requires forall i :: 0 <= i < |ps| && !IsIdle(ps[i]) ==> ps[i].Key() in mid && mid[ps[i].Key()].last == ps[i].cycles
    requires forall i :: 0 <= i < |ps| && !IsIdle(ps[i]) && ps[i].Key() in was ==>
      mid[ps[i].Key()].program == was[ps[i].Key()].program
    ensures Counters(Put(was, mid, ps), g)
      == Counters(was, g) + AllAdd(was, mid, ps, when, percent, 0, g) + JoinedWith(was, mid, ps, when, g)
  {
    hide SumOf, NoneFell, IsNew;
    if ps != [] {
      var n := |ps| - 1;
      var p, before := ps[n], Put(was, mid, ps[..n]);
      NoneFellBefore(was, ps);
      PutCounts(was, mid, all, ps[..n], when, percent, g);
      if !IsIdle(p) {
        PutIs(was, mid, ps[..n]);
        assert !Listing(ps[..n], p.Key());
        CounterPut(before, p.Key(), mid[p.Key()], g);
      }
    }
  }

  lemma NoneFellBefore(was: Entries, ps: seq<ProcessSample>)
    requires ps != [] && NoneFell(was, ps)
    ensures NoneFell(was, ps[..|ps| - 1])
    ensures !IsIdle(ps[|ps| - 1]) && ps[|ps| - 1].Key() in was ==> ps[|ps| - 1].cycles >= was[ps[|ps| - 1].Key()].last
  {
  }

  lemma CounterPut(procs: Entries, k: ProcessKey, e: Entry, g: nat)
    ensures Counters(procs[k := e], g) == Counters(procs, g) + (if e.program == g then e.last as real else 0.0)
      - if k in procs && procs[k].program == g then procs[k].last as real else 0.0
  {
    hide SumOf;
    assert Lasts(procs[k := e]) == Lasts(procs)[k := OnlyLast(e)];
    SumPut(Lasts(procs), k, OnlyLast(e), Some(g));
  }

  /** A snapshot in whose stretch no counter fell: what its program is charged is what its
      processes' counters rose by in all, but for what they had when they joined. */
  lemma CountersRise(
    was: Entries, mid: Entries, ps: seq<ProcessSample>, when: When, percent: bv32 -> real, g: nat)
    requires Sighted(Faded(was, when.Keep()), mid, ps, when) && Distinct(ps) && NoneFell(was, ps)
    ensures Counters(mid, g) == Counters(was, g) + AllAdd(was, mid, ps, when, percent, 0, g) + JoinedWith(was, mid, ps, when, g)
  {
    hide SumOf, NoneFell, Sighted, CountedAs;
    forall i | 0 <= i < |ps| && !IsIdle(ps[i])
      ensures ps[i].Key() in mid && mid[ps[i].Key()].last == ps[i].cycles
      ensures ps[i].Key() in was ==> mid[ps[i].Key()].program == was[ps[i].Key()].program
    {
      EachListed(was, mid, ps, when, i);
      LastOf(was, mid[ps[i].Key()], ps[i], when);
    }
    PutCounts(was, mid, ps, ps, when, percent, g);
    PutIs(was, mid, ps);
    forall k
      ensures k in mid <==> k in Put(was, mid, ps)
      ensures k in mid ==> OnlyLast(mid[k]) == OnlyLast(Put(was, mid, ps)[k])
    {
      if !Listing(ps, k) {
        EachUnlisted(was, mid, ps, when, k);
      }
    }
    assert Lasts(mid) == Lasts(Put(was, mid, ps));
  }

  lemma LastOf(was: Entries, e: Entry, p: ProcessSample, when: When)
    requires CountedAs(was, e, p, when)
    ensures e.last == p.cycles
  {
  }
}
