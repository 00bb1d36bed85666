/** Runs of snapshots in counters: over any run, what the chart was given of a program is what
    its processes' counters rose by. */
module UsageRuns {
  import opened Basics
  import opened Model
  import opened UsageLists
  import opened UsageFolds
  import opened UsageLineage
  import opened UsageSums
  import opened UsageSteps
  import opened UsageCounters
  import opened Usage

  /** One snapshot that was taken in, and what was before and after. */
  datatype Step = Step(
    ps: seq<ProcessSample>, when: When, machine: Machine, was: Account, now: Account, mid: Entries, sums: seq<seq<real>>,
    noted: Lineage)
  {
    ghost predicate Taken(percent: bv32 -> real, labelOf: ProcessStatic -> string) {
      && Follows(ps, when, machine, was, now, mid, sums, noted, percent, labelOf)
      && Distinct(ps) && NoneFell(was.procs, ps) && when.span > 0
    }

    /** What the chart got of program `g`'s cycles. */
    function Charted(g: nat): real {
      if |now.log| > |was.log| && |now.log[|was.log|].lists| > CYCLES then Amount(now.log[|was.log|].lists[CYCLES], g) else 0.0
    }

    /** The counters of the ghosts dropped. */
    ghost function Gone(g: nat): real {
      Counters(Only(mid, mid.Keys - now.procs.Keys), g)
    }
  }

  /** Snapshot after snapshot, none of whose counters fell. */
  ghost predicate Running(steps: seq<Step>, percent: bv32 -> real, labelOf: ProcessStatic -> string) {
    && (forall i :: 0 <= i < |steps| ==> steps[i].Taken(percent, labelOf))
    && (forall i :: 0 < i < |steps| ==> steps[i].was == steps[i - 1].now)
  }

  function AllCharted(steps: seq<Step>, g: nat): real {
    if steps == [] then 0.0 else AllCharted(steps[..|steps| - 1], g) + steps[|steps| - 1].Charted(g)
  }

  ghost function AllGone(steps: seq<Step>, g: nat): real {
    if steps == [] then 0.0 else AllGone(steps[..|steps| - 1], g) + steps[|steps| - 1].Gone(g)
  }

  function AllJoined(steps: seq<Step>, g: nat): real {
    if steps == [] then 0.0
    else
      var s := steps[|steps| - 1];
      AllJoined(steps[..|steps| - 1], g) + JoinedWith(s.was.procs, s.mid, s.ps, s.when, g)
  }

  lemma {:induction false} AddsUp(was: Entries, mid: Entries, ps: seq<ProcessSample>, when: When, percent: bv32 -> real, g: nat)
    ensures AllAdd(was, mid, ps, when, percent, 0, g) >= 0.0
  {
    if ps != [] {
      AddsUp(was, mid, ps[..|ps| - 1], when, percent, g);
    }
  }

  lemma StepChart(s: Step, percent: bv32 -> real, labelOf: ProcessStatic -> string, g: nat)
    requires s.Taken(percent, labelOf)
    ensures s.Charted(g) == AllAdd(s.was.procs, s.mid, s.ps, s.when, percent, 0, g)
  {
    hide Follows, Amount, AllAdd, NoneFell;
    ChartGets(s.ps, s.when, s.machine, s.was, s.now, s.mid, s.sums, s.noted, percent, labelOf, 0, g);
    AddsUp(s.was.procs, s.mid, s.ps, s.when, percent, g);
  }

  lemma OnlyLasts(procs: Entries, keys: set<ProcessKey>)
    ensures Lasts(Only(procs, keys)) == Only(Lasts(procs), keys)
  {
  }

  lemma StepGone(s: Step, percent: bv32 -> real, labelOf: ProcessStatic -> string, g: nat)
    requires s.Taken(percent, labelOf)
    ensures Counters(s.mid, g) == Counters(s.now.procs, g) + s.Gone(g)
  {
    hide FoldedIn, SumOf, Labelled, Recorded, Trimmed, NoneFell;
    var keys := s.now.procs.Keys;
    SumParts(Lasts(s.mid), keys, Some(g));
    OnlyLasts(s.mid, keys);
    OnlyLasts(s.mid, s.mid.Keys - keys);
    assert Only(s.mid, keys) == s.now.procs && Lasts(s.mid).Keys == s.mid.Keys;
  }

  lemma StepCounts(s: Step, percent: bv32 -> real, labelOf: ProcessStatic -> string, g: nat)
    requires s.Taken(percent, labelOf)
    ensures Counters(s.now.procs, g) + s.Gone(g)
      == Counters(s.was.procs, g) + s.Charted(g) + JoinedWith(s.was.procs, s.mid, s.ps, s.when, g)
  {
    StepSighted(s, percent, labelOf);
    hide Step.Taken, Counters, AllAdd, JoinedWith, Step.Charted, Step.Gone, Sighted, Faded;
    StepChart(s, percent, labelOf, g);
    StepGone(s, percent, labelOf, g);
    CountersRise(s.was.procs, s.mid, s.ps, s.when, percent, g);
  }

  lemma StepSighted(s: Step, percent: bv32 -> real, labelOf: ProcessStatic -> string)
    requires s.Taken(percent, labelOf)
    ensures Sighted(Faded(s.was.procs, s.when.Keep()), s.mid, s.ps, s.when) && Distinct(s.ps) && NoneFell(s.was.procs, s.ps)
  {
    hide Charted, Grown, SeeAll, Labelled, Recorded, Trimmed, NoneFell, Dropped, Sighted, Faded, Distinct;
  }

  /** Over any run in which no counter falls, what the chart was given of a program's cycles is
      what its processes' counters rose by: those at the end, the ghosts' that went counted,
      less those at the start and what joining processes had used before. */
  lemma {:induction false} NoCycleTwice(steps: seq<Step>, percent: bv32 -> real, labelOf: ProcessStatic -> string, g: nat)
    requires steps != [] && Running(steps, percent, labelOf)
    ensures AllCharted(steps, g)
      == Counters(steps[|steps| - 1].now.procs, g) + AllGone(steps, g) - Counters(steps[0].was.procs, g) - AllJoined(steps, g)
  {
    hide Step.Taken, Counters, JoinedWith, Step.Charted, Step.Gone;
    var n := |steps| - 1;
    StepCounts(steps[n], percent, labelOf, g);
    if n == 0 {
      assert steps[..n] == [];
    } else {
      NoCycleTwice(steps[..n], percent, labelOf, g);
    }
  }

  // One process alone

  /** Of program `g`, a snapshot lists process `k` and no other, and it was known before. */
  ghost predicate Alone(s: Step, k: ProcessKey, g: nat) {
    && k in s.was.procs && k.pid != 0 && Listing(s.ps, k)
    && forall i :: 0 <= i < |s.ps| && s.ps[i].Key() in s.mid ==> (s.mid[s.ps[i].Key()].program == g <==> s.ps[i].Key() == k)
  }

  lemma {:induction false} OneAlone(
    was: Entries, mid: Entries, ps: seq<ProcessSample>, when: When, percent: bv32 -> real, k: ProcessKey, g: nat)
    requires Distinct(ps) && k in was && k in mid && k.pid != 0
    requires forall i :: 0 <= i < |ps| && ps[i].Key() in mid ==> (mid[ps[i].Key()].program == g <==> ps[i].Key() == k)
    ensures !Listing(ps, k) ==> AllAdd(was, mid, ps, when, percent, 0, g) == 0.0
    ensures forall i :: 0 <= i < |ps| && ps[i].Key() == k ==>
      AllAdd(was, mid, ps, when, percent, 0, g) == Max(ps[i].cycles - was[k].last, 0) as real
  {
    if ps != [] {
      var n := |ps| - 1;
      OneAlone(was, mid, ps[..n], when, percent, k, g);
      assert ps[..n + 1] == ps;
      ListingGrows(ps, n, k);
    }
  }

  lemma AloneCounts(s: Step, percent: bv32 -> real, labelOf: ProcessStatic -> string, k: ProcessKey, g: nat)
    requires s.Taken(percent, labelOf) && Alone(s, k, g)
    ensures k in s.now.procs && s.Charted(g) == s.now.procs[k].last as real - s.was.procs[k].last as real
  {
    var i :| 0 <= i < |s.ps| && !IsIdle(s.ps[i]) && s.ps[i].Key() == k;
    StepChart(s, percent, labelOf, g);
    ListedCounts(s.ps, s.when, s.machine, s.was, s.now, s.mid, s.sums, s.noted, percent, labelOf, i);
    hide Follows, AllAdd, Step.Charted;
    OneAlone(s.was.procs, s.mid, s.ps, s.when, percent, k, g);
  }

  /** A program's one process, listed in every snapshot with a counter that never falls, has
      been charted for its last counter less its first. */
  lemma {:induction false} LastLessFirst(
    steps: seq<Step>, percent: bv32 -> real, labelOf: ProcessStatic -> string, k: ProcessKey, g: nat)
    requires steps != [] && Running(steps, percent, labelOf) && forall i :: 0 <= i < |steps| ==> Alone(steps[i], k, g)
    ensures k in steps[0].was.procs && k in steps[|steps| - 1].now.procs
    ensures AllCharted(steps, g) == steps[|steps| - 1].now.procs[k].last as real - steps[0].was.procs[k].last as real
  {
    hide Step.Taken, Step.Charted;
    var n := |steps| - 1;
    AloneCounts(steps[n], percent, labelOf, k, g);
    assert Alone(steps[0], k, g);
    if n == 0 {
      assert steps[..n] == [];
    } else {
      LastLessFirst(steps[..n], percent, labelOf, k, g);
    }
  }
}
