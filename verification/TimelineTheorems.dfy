/** What a series' history promises the charts that read it. */
module TimelineTheorems {
  import opened Basics
  import opened Ring
  import opened TimelineRuns
  import opened TimelineTiers
  import opened Timeline
  import opened TimelineHistory

  /** `r` is the bucket of a tier just before the one that the sample at `c` falls in. */
  ghost predicate JustBefore(log: seq<Sample>, w: int, c: nat, r: Run)
    requires w > 0
  {
    exists n: nat, m: nat :: m == n + 1 && m < |RunsOf(log, w)| && RunsOf(log, w)[n] == r
      && RunsOf(log, w)[m].from == r.to <= c < RunsOf(log, w)[m].to
  }

  /** Read on from the sample at `c`: each bucket sums up a run of samples, the last of
      its tier before what came before it. So all that is passed over at a seam falls in
      one bucket of the coarser tier, and no sample comes twice. */
  ghost predicate ReadOn(log: seq<Sample>, widths: set<int>, c: nat, out: seq<Bucket>, rs: seq<Run>)
    requires forall w :: w in widths ==> w > 0
  {
    && Sums(out, log, rs)
    && forall i :: 0 <= i < |rs| ==> Linked(log, widths, Prev(c, rs, i), rs[i])
  }

  ghost predicate Linked(log: seq<Sample>, widths: set<int>, c: nat, r: Run)
    requires forall w :: w in widths ==> w > 0
  {
    exists w :: w in widths && JustBefore(log, w, c, r)
  }

  /** Where the read had got to before the bucket numbered `i`. */
  function Prev(c: nat, rs: seq<Run>, i: nat): nat
    requires i <= |rs|
  {
    if i == 0 then c else rs[i - 1].from
  }

  /** Where the read has got to. */
  function Reached(c: nat, rs: seq<Run>): nat {
    if rs == [] then c else rs[|rs| - 1].from
  }

  /** The runs numbered below `n`, down to `s`. */
  function Downward(runs: seq<Run>, s: nat, n: nat): seq<Run>
    requires n <= |runs|
  {
    if s >= n then [] else [runs[n - 1]] + Downward(runs, s, n - 1)
  }

  /** The run a sample falls in. */
  lemma {:induction false} RunHolding(log: seq<Sample>, w: int, c: nat, k: nat) returns (n: nat)
    requires w > 0 && c < |log| && k < |RunsOf(log, w)| && c < RunsOf(log, w)[k].to
    ensures n <= k && RunsOf(log, w)[n].from <= c < RunsOf(log, w)[n].to
    decreases k
  {
    RunsPartition(log, w);
    if RunsOf(log, w)[k].from <= c {
      n := k;
    } else {
      assert RunsOf(log, w)[k - 1].to == RunsOf(log, w)[k].from;
      n := RunHolding(log, w, c, k - 1);
    }
  }

  /** In time order a run's bucket starts and ends when its samples do. */
  lemma BucketEnds(log: seq<Sample>, r: Run)
    requires InOrder(log) && Fits(r, log)
    ensures RunBucket(log, r).firstMs == log[r.from].at && RunBucket(log, r).lastMs == log[r.to - 1].at
  {
    var ss := log[r.from..r.to];
    SummaryEnds(ss);
    SummaryIs(ss);
  }

  lemma BucketsOrder(a: int, b: int, w: int)
    requires w > 0 && Index(a, w) < Index(b, w)
    ensures a < b
  {
    if b <= a {
      Monotone(b, a, w);
    }
  }

  /** Which runs lie wholly before the sample at `c`: those before its own. */
  lemma WhollyBefore(log: seq<Sample>, w: int, c: nat, n: nat, k: nat)
    requires w > 0 && InOrder(log) && c < |log| && n < |RunsOf(log, w)| && k < |RunsOf(log, w)|
    requires RunsOf(log, w)[n].from <= c < RunsOf(log, w)[n].to
    ensures Fits(RunsOf(log, w)[k], log)
    ensures log[RunsOf(log, w)[k].to - 1].at < log[c].at <==> k < n
  {
    var runs := RunsOf(log, w);
    RunsPartition(log, w);
    if k < n {
      RunsAdvance(log, w, k, n);
      RunInBucket(log, w, k, runs[k].to - 1);
      RunInBucket(log, w, n, c);
      BucketsOrder(log[runs[k].to - 1].at, log[c].at, w);
    } else {
      RunsInOrder(log, w, n, k);
    }
  }

  lemma {:induction false} RunsInOrder(log: seq<Sample>, w: int, n: nat, k: nat)
    requires w > 0 && log != [] && n <= k < |RunsOf(log, w)|
    ensures RunsOf(log, w)[n].from <= RunsOf(log, w)[k].from && RunsOf(log, w)[n].to <= RunsOf(log, w)[k].to
    decreases k
  {
    RunsPartition(log, w);
    if n < k {
      RunsInOrder(log, w, n, k - 1);
      assert RunsOf(log, w)[k - 1].to == RunsOf(log, w)[k].from;
    }
  }

  /** Of a tier's buckets, those of its runs from `s` on, just those before the sample at
      `c` are read: `n` is its run. */
  lemma {:induction false} SiftIsDownward(
    log: seq<Sample>, w: int, s: nat, k: nat, bs: seq<Bucket>, c: nat, n: nat)
    requires w > 0 && InOrder(log) && c < |log| && s <= k <= |RunsOf(log, w)| && n < |RunsOf(log, w)|
    requires RunsOf(log, w)[n].from <= c < RunsOf(log, w)[n].to && n <= k
    requires Sums(bs, log, RunsOf(log, w)[s..k])
    ensures Sums(Sift(bs, Some(log[c].at)), log, Downward(RunsOf(log, w), s, n))
    ensures CutAfter(bs, Some(log[c].at)) == Some(log[Reached(c, Downward(RunsOf(log, w), s, n))].at)
    ensures Reached(c, Downward(RunsOf(log, w), s, n)) < |log|
    decreases k
  {
    hide *;
    var runs := RunsOf(log, w);
    if s < k {
      var i := |bs| - 1;
      WhollyBefore(log, w, c, n, k - 1);
      LastOfTier(bs, log, runs, s, k, Some(log[c].at));
      BucketEnds(log, runs[k - 1]);
      if k - 1 < n {
        SiftIsDownward(log, w, s, k - 1, bs[..i], runs[k - 1].from, k - 1);
        SumsCons(bs[i], Sift(bs[..i], Some(bs[i].firstMs)), log, runs[k - 1], Downward(runs, s, n - 1));
        DownStep(runs, s, n, c);
      } else {
        SiftIsDownward(log, w, s, k - 1, bs[..i], c, n);
      }
    } else {
      NoneOfTier(bs, log, runs, s, k, n, c);
    }
  }

  lemma LastOfTier(bs: seq<Bucket>, log: seq<Sample>, runs: seq<Run>, s: nat, k: nat, cut: Option<int>)
    requires s < k <= |runs| && Sums(bs, log, runs[s..k])
    ensures bs != [] && Fits(runs[k - 1], log) && bs[|bs| - 1] == RunBucket(log, runs[k - 1])
    ensures Sums(bs[..|bs| - 1], log, runs[s..k - 1])
    ensures var b, front := bs[|bs| - 1], bs[..|bs| - 1];
      if cut.Some? && b.lastMs >= cut.value then Sift(bs, cut) == Sift(front, cut) && CutAfter(bs, cut) == CutAfter(front, cut)
      else Sift(bs, cut) == [b] + Sift(front, Some(b.firstMs)) && CutAfter(bs, cut) == CutAfter(front, Some(b.firstMs))
  {
    hide RunBucket;
    assert runs[s..k][|bs| - 1] == runs[k - 1] && runs[s..k][..|bs| - 1] == runs[s..k - 1];
    SumsFront(bs, log, runs[s..k]);
  }

  lemma NoneOfTier(bs: seq<Bucket>, log: seq<Sample>, runs: seq<Run>, s: nat, k: nat, n: nat, c: nat)
    requires s >= k >= n && k <= |runs| && s <= |runs| && s <= k && Sums(bs, log, runs[s..k]) && c < |log|
    ensures Sift(bs, Some(log[c].at)) == [] && CutAfter(bs, Some(log[c].at)) == Some(log[c].at)
    ensures Downward(runs, s, n) == [] && Reached(c, []) == c && Sums([], log, [])
  {
  }

  lemma DownStep(runs: seq<Run>, s: nat, n: nat, c: nat)
    requires s < n <= |runs|
    ensures Downward(runs, s, n) == [runs[n - 1]] + Downward(runs, s, n - 1)
    ensures Reached(c, Downward(runs, s, n)) == Reached(runs[n - 1].from, Downward(runs, s, n - 1))
  {
  }

  lemma SumsFront(bs: seq<Bucket>, log: seq<Sample>, runs: seq<Run>)
    requires bs != [] && Sums(bs, log, runs)
    ensures Sums(bs[..|bs| - 1], log, runs[..|bs| - 1])
  {
  }

  lemma SumsCons(b: Bucket, bs: seq<Bucket>, log: seq<Sample>, r: Run, rs: seq<Run>)
    requires Sums(bs, log, rs) && Fits(r, log) && b == RunBucket(log, r)
    ensures Sums([b] + bs, log, [r] + rs)
  {
  }

  // Reading one tier, then the next

  lemma {:induction false} DownwardReads(log: seq<Sample>, w: int, s: nat, n: nat, c: nat, i: nat)
    requires w > 0 && log != [] && n < |RunsOf(log, w)| && RunsOf(log, w)[n].from <= c < RunsOf(log, w)[n].to
    requires i < |Downward(RunsOf(log, w), s, n)|
    ensures JustBefore(log, w, Prev(c, Downward(RunsOf(log, w), s, n), i), Downward(RunsOf(log, w), s, n)[i])
    decreases i
  {
    var runs := RunsOf(log, w);
    RunsPartition(log, w);
    hide RunsOf;
    DownStep(runs, s, n, c);
    assert runs[n - 1].to == runs[n].from;
    if i == 0 {
      assert JustBefore(log, w, c, runs[n - 1]);
    } else {
      DownwardReads(log, w, s, n - 1, runs[n - 1].from, i - 1);
    }
  }

  /** The buckets a tier holds are those of its last runs. */
  lemma TierSums(t: TierState, log: seq<Sample>) returns (s: nat)
    requires t.bucketMs > 0 && log != [] && Tracks(t, log)
    ensures s < |RunsOf(log, t.bucketMs)| && Sums(t.Buckets(), log, RunsOf(log, t.bucketMs)[s..])
    ensures s == |RunsOf(log, t.bucketMs)| - 1 - |t.closed|
  {
    hide RunBucket;
    var runs := RunsOf(log, t.bucketMs);
    s := |runs| - 1 - |t.closed|;
    assert runs[s..] == LastClosed(runs, |t.closed|) + [runs[|runs| - 1]];
  }

  lemma OneWidth(log: seq<Sample>, w: int, c: nat, r: Run)
    requires w > 0 && JustBefore(log, w, c, r)
    ensures Linked(log, {w}, c, r)
  {
    hide JustBefore;
    assert w in {w};
  }

  lemma ReadOnIf(log: seq<Sample>, widths: set<int>, c: nat, out: seq<Bucket>, rs: seq<Run>)
    requires forall w :: w in widths ==> w > 0
    requires Sums(out, log, rs) && forall i :: 0 <= i < |rs| ==> Linked(log, widths, Prev(c, rs, i), rs[i])
    ensures ReadOn(log, widths, c, out, rs)
  {
  }

  lemma TierReads(t: TierState, log: seq<Sample>, c: nat) returns (rs: seq<Run>)
    requires t.bucketMs > 0 && InOrder(log) && c < |log| && Tracks(t, log)
    ensures ReadOn(log, {t.bucketMs}, c, Sift(t.Buckets(), Some(log[c].at)), rs)
    ensures Reached(c, rs) < |log| && CutAfter(t.Buckets(), Some(log[c].at)) == Some(log[Reached(c, rs)].at)
  {
    hide RunsOf, Tracks, Sums, Sift, CutAfter, Downward, JustBefore, InOrder, Reached, ReadOn, Linked, Prev;
    var w := t.bucketMs;
    var runs := RunsOf(log, w);
    var s := TierSums(t, log);
    RunsPartition(log, w);
    var n := RunHolding(log, w, c, |runs| - 1);
    assert runs[s..] == runs[s..|runs|];
    SiftIsDownward(log, w, s, |runs|, t.Buckets(), c, n);
    rs := Downward(runs, s, n);
    forall i | 0 <= i < |rs|
      ensures Linked(log, {w}, Prev(c, rs, i), rs[i])
    {
      DownwardReads(log, w, s, n, c, i);
      OneWidth(log, w, Prev(c, rs, i), rs[i]);
    }
    ReadOnIf(log, {w}, c, Sift(t.Buckets(), Some(log[c].at)), rs);
  }

  function Widths(tiers: seq<TierState>): set<int> {
    set t | t in tiers :: t.bucketMs
  }

  lemma ReadOnTogether(
    log: seq<Sample>, v: set<int>, w: set<int>, c: nat, a: seq<Bucket>, rs: seq<Run>, b: seq<Bucket>, qs: seq<Run>)
    requires forall x :: x in v || x in w ==> x > 0
    requires ReadOn(log, v, c, a, rs) && ReadOn(log, w, Reached(c, rs), b, qs)
    ensures ReadOn(log, v + w, c, a + b, rs + qs)
  {
    hide JustBefore, RunBucket, Linked, Sums, Reached;
    SumsAppend(a, b, log, rs, qs);
    PrevAppend(c, rs, qs);
    var all := rs + qs;
    forall i | 0 <= i < |all|
      ensures Linked(log, v + w, Prev(c, all, i), all[i])
    {
      if i < |rs| {
        MoreWidths(log, v, v + w, Prev(c, rs, i), rs[i]);
      } else {
        var j := i - |rs|;
        assert all[i] == qs[j];
        MoreWidths(log, w, v + w, Prev(Reached(c, rs), qs, j), qs[j]);
      }
    }
  }

  lemma SumsAppend(a: seq<Bucket>, b: seq<Bucket>, log: seq<Sample>, rs: seq<Run>, qs: seq<Run>)
    requires Sums(a, log, rs) && Sums(b, log, qs)
    ensures Sums(a + b, log, rs + qs)
  {
    hide RunBucket;
  }

  lemma PrevAppend(c: nat, rs: seq<Run>, qs: seq<Run>)
    ensures forall i :: 0 <= i < |rs| ==> Prev(c, rs + qs, i) == Prev(c, rs, i)
    ensures forall j :: 0 <= j < |qs| ==> Prev(c, rs + qs, |rs| + j) == Prev(Reached(c, rs), qs, j)
  {
  }

  lemma MoreWidths(log: seq<Sample>, v: set<int>, w: set<int>, c: nat, r: Run)
    requires (forall x :: x in w ==> x > 0) && v <= w && Linked(log, v, c, r)
    ensures Linked(log, w, c, r)
  {
    hide JustBefore;
    var x :| x in v && JustBefore(log, x, c, r);
    assert x in w;
  }

  lemma SiftAllStep(tiers: seq<TierState>, cut: Option<int>)
    ensures SiftAll(tiers, cut) == if tiers == [] then []
      else Sift(tiers[0].Buckets(), cut) + SiftAll(tiers[1..], CutAfter(tiers[0].Buckets(), cut))
  {
  }

  lemma ReadNone(log: seq<Sample>, widths: set<int>, c: nat)
    requires forall w :: w in widths ==> w > 0
    ensures ReadOn(log, widths, c, [], [])
  {
  }

  lemma {:induction false} TiersRead(tiers: seq<TierState>, log: seq<Sample>, c: nat) returns (rs: seq<Run>)
    requires InOrder(log) && c < |log|
    requires forall i :: 0 <= i < |tiers| ==> tiers[i].bucketMs > 0 && Tracks(tiers[i], log)
    ensures ReadOn(log, Widths(tiers), c, SiftAll(tiers, Some(log[c].at)), rs)
  {
    hide ReadOn, Tracks, Sift, CutAfter, InOrder, Reached, SiftAll, Sums;
    SiftAllStep(tiers, Some(log[c].at));
    if tiers == [] {
      rs := [];
      ReadNone(log, Widths(tiers), c);
    } else {
      var first := TierReads(tiers[0], log, c);
      var more := TiersRead(tiers[1..], log, Reached(c, first));
      ReadOnTogether(log, {tiers[0].bucketMs}, Widths(tiers[1..]), c, Sift(tiers[0].Buckets(), Some(log[c].at)), first,
                     SiftAll(tiers[1..], Some(log[Reached(c, first)].at)), more);
      assert {tiers[0].bucketMs} + Widths(tiers[1..]) == Widths(tiers);
      rs := first + more;
    }
  }

  lemma {:induction false} RawReads(raw: seq<Sample>, tiers: seq<TierState>, cut: Option<int>)
    requires raw != []
    ensures |Read(raw, tiers, cut)| >= |raw|
    ensures forall i :: 0 <= i < |raw| ==> Read(raw, tiers, cut)[i] == BucketOf(raw[|raw| - 1 - i])
    ensures Read(raw, tiers, cut)[|raw|..] == SiftAll(tiers, Some(raw[0].at))
  {
    RawStep(raw, tiers, cut);
    hide Read, SiftAll;
    var s, front := raw[|raw| - 1], raw[..|raw| - 1];
    if |raw| > 1 {
      RawReads(front, tiers, Some(s.at));
    } else {
      CoarseOfNone(tiers, Some(s.at));
    }
  }

  /** The history of a series kept as it is from the start and fed in time order: every
      raw sample held, newest first, and then buckets of the tiers read on from there. */
  lemma HistoryReads(s: Series) returns (rs: seq<Run>)
    requires s.Valid() && s.Steady() && s.log != [] && InOrder(s.log)
    ensures forall i :: 0 <= i < |s.tiers| ==> s.tiers[i].bucketMs > 0
    ensures var out, m := Read(s.raw.buf, s.tiers, None), |s.raw.buf|;
      0 < m <= |s.log| && m <= |out|
      && (forall i :: 0 <= i < m ==> out[i] == BucketOf(s.log[|s.log| - 1 - i]))
      && ReadOn(s.log, Widths(s.tiers), |s.log| - m, out[m..], rs)
  {
    hide ReadOn, Tracks, InOrder, Read, SiftAll, Full;
    assert forall i :: 0 <= i < |s.tiers| ==> s.log[s.since[i]..] == s.log;
    RawReads(s.raw.buf, s.tiers, None);
    rs := TiersRead(s.tiers, s.log, |s.log| - |s.raw.buf|);
  }

  /** Read on so, no sample comes twice, and each bucket ends before all that came
      before it starts. */
  lemma {:induction false} NothingTwice(log: seq<Sample>, widths: set<int>, c: nat, out: seq<Bucket>, rs: seq<Run>, i: nat)
    requires forall w :: w in widths ==> w > 0
    requires InOrder(log) && c < |log| && ReadOn(log, widths, c, out, rs) && i < |rs|
    ensures rs[i].from < rs[i].to <= if i == 0 then c else rs[i - 1].from
    ensures out[i].lastMs < if i == 0 then log[c].at else out[i - 1].firstMs
    ensures out[i].firstMs == log[rs[i].from].at
  {
    hide *;
    ReadOnAt(log, widths, c, out, rs, i);
    BucketEnds(log, rs[i]);
    LinkedIs(log, widths, Prev(c, rs, i), rs[i]);
    PrevIs(c, rs, i);
    if i > 0 {
      ReadOnAt(log, widths, c, out, rs, i - 1);
      BucketEnds(log, rs[i - 1]);
    }
  }

  lemma PrevIs(c: nat, rs: seq<Run>, i: nat)
    requires i < |rs|
    ensures Prev(c, rs, i) == if i == 0 then c else rs[i - 1].from
  {
  }

  lemma ReadOnAt(log: seq<Sample>, widths: set<int>, c: nat, out: seq<Bucket>, rs: seq<Run>, i: nat)
    requires (forall w :: w in widths ==> w > 0) && ReadOn(log, widths, c, out, rs) && i < |rs| && c < |log|
    ensures |out| == |rs| && Fits(rs[i], log) && rs[i].from < rs[i].to && out[i] == RunBucket(log, rs[i])
    ensures Linked(log, widths, Prev(c, rs, i), rs[i]) && Prev(c, rs, i) < |log|
  {
    hide Linked, RunBucket;
    if i > 0 {
      assert Fits(rs[i - 1], log);
    }
  }

  lemma LinkedIs(log: seq<Sample>, widths: set<int>, c: nat, r: Run)
    requires (forall w :: w in widths ==> w > 0) && InOrder(log) && c < |log| && Linked(log, widths, c, r) && Fits(r, log)
    ensures r.to <= c && log[r.to - 1].at < log[c].at
  {
    var w :| w in widths && JustBefore(log, w, c, r);
    var n: nat, m: nat :| m == n + 1 && m < |RunsOf(log, w)| && RunsOf(log, w)[n] == r
      && RunsOf(log, w)[m].from == r.to <= c < RunsOf(log, w)[m].to;
    hide RunsOf, InOrder;
    WhollyBefore(log, w, c, m, n);
  }

  // How far back a series reaches, and how much it holds

  /** A full tier with two buckets to spare over `span` begins at the very first sample, or
      more than the span before the newest one. */
  lemma TierReaches(t: TierState, log: seq<Sample>, span: int)
    requires t.bucketMs > 0 && log != [] && InOrder(log) && Tracks(t, log) && Full(t, log)
    requires span >= 0 && t.cap >= span / t.bucketMs + 2
    ensures t.Buckets() != [] && t.Buckets()[0].firstMs in Starts(t)
    ensures t.Buckets()[0].firstMs == log[0].at || log[|log| - 1].at - t.Buckets()[0].firstMs > span
  {
    hide RunsOf, InOrder, RunBucket;
    var w, runs := t.bucketMs, RunsOf(log, t.bucketMs);
    var s := TierSums(t, log);
    RunsPartition(log, w);
    assert runs[s..][0] == runs[s];
    BucketEnds(log, runs[s]);
    if s > 0 {
      assert |t.closed| == t.cap;
      var last := runs[|runs| - 1];
      RunsAdvance(log, w, s, |runs| - 1);
      LaterIsLater(log, last.from, |log| - 1);
      FarEnough(log[runs[s].from].at, log[last.from].at, w, t.cap, span);
    }
  }

  lemma LaterIsLater(log: seq<Sample>, i: nat, j: nat)
    requires InOrder(log) && i <= j < |log|
    ensures log[i].at <= log[j].at
  {
  }

  lemma FarEnough(a: int, b: int, w: int, cap: int, span: int)
    requires w > 0 && span >= 0 && cap >= span / w + 2 && Index(b, w) >= Index(a, w) + cap
    ensures b - a > span
  {
    var x, y, q := a / w, b / w, span / w;
    assert a < x * w + w && y * w <= b && span < q * w + w;
    Multiples(x + (q + 2), y, w);
    assert (x + (q + 2)) * w == x * w + q * w + 2 * w;
  }

  /** Kept to cover a span, a series fed in time order still holds its first sample, or
      reaches back further than the span from its newest. */
  lemma CoveringReaches(s: Series, span: int) returns (t: int)
    requires s.Valid() && s.Steady() && s.log != [] && InOrder(s.log) && s.retention == Covering(span)
    ensures StartsAt(s.tiers, t)
    ensures t == s.log[0].at || s.log[|s.log| - 1].at - t > span
  {
    hide InOrder, Tracks, Full, Starts;
    var n := |s.tiers| - 1;
    assert s.log[s.since[n]..] == s.log;
    TierReaches(s.tiers[n], s.log, Max(span, 1));
    t := s.tiers[n].Buckets()[0].firstMs;
  }

  /** A run's samples all fall in one stretch of the clock, a multiple of the width long; in
      time order the next run's fall in a later one. */
  lemma OneStretch(log: seq<Sample>, w: int, i: nat, a: nat)
    requires w > 0 && i < |RunsOf(log, w)| && RunsOf(log, w)[i].from <= a < RunsOf(log, w)[i].to
    ensures a < |log|
    ensures var q := log[RunsOf(log, w)[i].from].at / w; q * w <= log[a].at < q * w + w
    ensures InOrder(log) && i + 1 < |RunsOf(log, w)| ==>
      && RunsOf(log, w)[i + 1].from < |log|
      && log[RunsOf(log, w)[i + 1].from].at / w > log[RunsOf(log, w)[i].from].at / w
  {
    hide RunsOf;
    RunInBucket(log, w, i, a);
    InStep(log[a].at, w);
    if InOrder(log) && i + 1 < |RunsOf(log, w)| {
      RunsAdvance(log, w, i, i + 1);
    }
  }

  lemma InStep(at: int, w: int)
    requires w > 0
    ensures at / w * w <= at < at / w * w + w
  {
  }

  /** Buckets the tiers hold, the ones being filled counted. */
  function Held(tiers: seq<TierState>): nat {
    if tiers == [] then 0 else Held(tiers[..|tiers| - 1]) + |tiers[|tiers| - 1].Buckets()|
  }

  /** Rings asked to hold nothing, each of which holds one point all the same. */
  function NoRoom(tiers: seq<Resolution>): nat {
    if tiers == [] then 0 else NoRoom(tiers[..|tiers| - 1]) + if tiers[|tiers| - 1].capacity == 0 then 1 else 0
  }

  function Extra(r: Retention): nat {
    NoRoom(r.tiers) + if r.raw == 0 then 1 else 0
  }

  predicate Brimful(t: TierState) {
    |t.closed| == t.cap && t.open.Some?
  }

  lemma {:induction false} TiersBounded(tiers: seq<TierState>, r: seq<Resolution>)
    requires |tiers| == |r|
    requires forall i :: 0 <= i < |r| ==> SizedAs(tiers[i], r[i]) && |tiers[i].closed| <= tiers[i].cap
    ensures Held(tiers) <= TierPoints(r) + NoRoom(r)
    ensures (forall i :: 0 <= i < |tiers| ==> Brimful(tiers[i])) ==> Held(tiers) == TierPoints(r) + NoRoom(r)
  {
    if tiers != [] {
      TiersBounded(tiers[..|tiers| - 1], r[..|tiers| - 1]);
    }
  }

  /** However long it is fed, a series holds no more than the points its retention says, and
      one for each ring asked to hold nothing; when every ring is full it holds just that. */
  lemma PointsBound(s: Series)
    requires s.Valid()
    ensures |s.raw.buf| + Held(s.tiers) <= Points(s.retention) + Extra(s.retention)
    ensures |s.raw.buf| == s.raw.cap && (forall i :: 0 <= i < |s.tiers| ==> Brimful(s.tiers[i])) ==>
      |s.raw.buf| + Held(s.tiers) == Points(s.retention) + Extra(s.retention)
  {
    TiersBounded(s.tiers, s.retention.tiers);
  }

  /** A series fed one sample that holds more points than its retention says. */
  method HoldsOneMore() returns (s: Series)
    ensures fresh(s) && s.Valid() && s.Steady() && s.retention == Retention(0, [])
    ensures |s.raw.buf| + Held(s.tiers) == Points(s.retention) + 1
  {
    hide *;
    s := new Series(Retention(0, []));
    SizeOfNone(s);
    NewestOfOne(Sample(0, 0.0));
    s.Push(0, 0.0);
    SizeOfNone(s);
    NoPoints();
  }

  lemma SizeOfNone(s: Series)
    requires s.Valid() && s.retention == Retention(0, [])
    ensures s.raw.cap == 1 && s.tiers == [] && (s.log == [] ==> s.raw.buf == [])
  {
    hide Tracks;
  }

  lemma NewestOfOne(s: Sample)
    ensures Newest([] + [s], 1) == [s]
  {
  }

  lemma NoPoints()
    ensures Points(Retention(0, [])) == 0 && Held([]) == 0
  {
  }

  /** A sample older than the newest joins the bucket being filled if and only if it falls
      in it; else it opens one of its own, as a later sample would. */
  lemma JoinsOpenBucket(t: TierState, log: seq<Sample>, s: Sample)
    requires t.bucketMs > 0 && log != [] && Tracks(t, log)
    ensures TierPush(t, s).open.value.bucket.count == t.open.value.bucket.count + 1
      <==> Index(s.at, t.bucketMs) == Index(log[|log| - 1].at, t.bucketMs)
  {
    hide RunsOf;
    var runs := RunsOf(log, t.bucketMs);
    var r := runs[|runs| - 1];
    SummaryIs(log[r.from..r.to]);
  }

  /** A sample older than the newest that opens a bucket all the same. */
  ghost predicate OpensAnew(t: TierState, log: seq<Sample>, s: Sample) {
    && t.bucketMs > 0 && log != [] && Tracks(t, log)
    && s.at < log[|log| - 1].at && TierPush(t, s).open.value.bucket.count == 1
  }

  lemma OlderOpensBucket()
    ensures exists t, log, s :: OpensAnew(t, log, s)
  {
    var t, a, b := TierState(10, 1, [], None), Sample(25, 1.0), Sample(5, 2.0);
    assert Tracks(t, []);
    PushTracks(t, [], a);
    assert [] + [a] == [a];
    assert OpensAnew(TierPush(t, a), [a], b);
  }
}
