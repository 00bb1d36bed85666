/** The coarser resolutions a series is kept at: buckets of fixed width, each the
    summary of a run of samples. */
module TimelineTiers {
  import opened Basics
  import opened Ring
  import opened TimelineRuns

  datatype Resolution = Resolution(bucketMs: int, capacity: nat)

  /** The sizes of a series' rings: of raw samples, and of each tier, narrowest first. */
  datatype Retention = Retention(raw: nat, tiers: seq<Resolution>)

  const RAW_SAMPLES: nat := 600
  const FINE_MS: int := 10_000
  const FINE_SPAN_MS: int := 2 * 3_600_000
  const COARSE_MS: int := 60_000

  /** How many buckets reach past `span`: a span can begin and end inside a bucket, and the
      last of them is not in the ring. */
  function Buckets(span: int, width: int): nat
    requires span >= 0 && width > 0
  {
    span / width + 2
  }

  /** The retention charts ask for: narrow buckets as far as two hours, wide ones beyond. */
  function Covering(span: int): Retention {
    var s := Max(span, 1);
    Retention(RAW_SAMPLES,
              [Resolution(FINE_MS, Buckets(Min(s, FINE_SPAN_MS), FINE_MS))]
              + if s > FINE_SPAN_MS then [Resolution(COARSE_MS, Buckets(s, COARSE_MS))] else [])
  }

  function TierPoints(tiers: seq<Resolution>): nat {
    if tiers == [] then 0 else TierPoints(tiers[..|tiers| - 1]) + tiers[|tiers| - 1].capacity + 1
  }

  /** The sum of the capacities, and one open bucket for each tier. */
  function Points(r: Retention): nat {
    r.raw + TierPoints(r.tiers)
  }

  // One tier

  /** A bucket being filled, and the sum of its values. */
  datatype Filling = Filling(index: int, bucket: Bucket, sum: real)

  /** What a tier holds: its closed buckets, oldest first, and the one being filled. */
  datatype TierState = TierState(bucketMs: int, cap: nat, closed: seq<Bucket>, open: Option<Filling>) {
    /** All of them, oldest first. */
    function Buckets(): seq<Bucket> {
      closed + if open.Some? then [open.value.bucket] else []
    }
  }

  function TierPush(t: TierState, s: Sample): (r: TierState)
    requires t.bucketMs > 0
    ensures r.bucketMs == t.bucketMs && r.cap == t.cap
  {
    var index := s.at / t.bucketMs;
    if t.open.Some? && t.open.value.index == index then
      var o := t.open.value;
      t.(open := Some(Filling(index, Wider(o.bucket, s, o.sum + s.value), o.sum + s.value)))
    else
      TierState(t.bucketMs, t.cap,
                if t.open.Some? then Newest(t.closed + [t.open.value.bucket], t.cap) else t.closed,
                Some(Filling(index, BucketOf(s), s.value)))
  }

  /** The tier's buckets are those of the last runs of `log`, all it has been given. */
  ghost predicate Tracks(t: TierState, log: seq<Sample>)
    requires t.bucketMs > 0
  {
    && 1 <= t.cap && |t.closed| <= t.cap
    && (log == [] <==> t.open.None?)
    && (log == [] ==> t.closed == [])
    && (log != [] ==>
      Filled(t.open.value, log, RunsOf(log, t.bucketMs), t.bucketMs) && Closed(t.closed, log, RunsOf(log, t.bucketMs)))
  }

  ghost predicate Filled(o: Filling, log: seq<Sample>, runs: seq<Run>, w: int)
    requires log != [] && runs != [] && w > 0
  {
    var r := runs[|runs| - 1];
    && Fits(r, log) && o.bucket == RunBucket(log, r) && o.sum == Total(log[r.from..r.to])
    && o.index == Index(log[|log| - 1].at, w) && r.to == |log|
  }

  /** Bucket by bucket, what the runs come to. */
  ghost predicate Sums(buckets: seq<Bucket>, log: seq<Sample>, runs: seq<Run>) {
    && |buckets| == |runs|
    && forall i :: 0 <= i < |buckets| ==> Fits(runs[i], log) && buckets[i] == RunBucket(log, runs[i])
  }

  /** The last few runs, but the one being filled. */
  function LastClosed(runs: seq<Run>, count: nat): seq<Run>
    requires count < |runs|
  {
    runs[|runs| - 1 - count..|runs| - 1]
  }

  ghost predicate Closed(closed: seq<Bucket>, log: seq<Sample>, runs: seq<Run>)
    requires runs != []
  {
    |closed| < |runs| && Sums(closed, log, LastClosed(runs, |closed|))
  }

  /** And they are all of them, or as many as there is room for. */
  ghost predicate Full(t: TierState, log: seq<Sample>)
    requires t.bucketMs > 0
  {
    log != [] ==> |t.closed| == Min(t.cap, |RunsOf(log, t.bucketMs)| - 1)
  }

  lemma SliceStays(log: seq<Sample>, s: Sample, r: Run)
    requires Fits(r, log)
    ensures Fits(r, log + [s]) && (log + [s])[r.from..r.to] == log[r.from..r.to]
    ensures RunBucket(log + [s], r) == RunBucket(log, r)
  {
  }

  /** A sample more makes the tier's buckets those of a log with one sample more. */
  lemma PushTracks(t: TierState, log: seq<Sample>, s: Sample)
    requires t.bucketMs > 0 && Tracks(t, log)
    ensures Tracks(TierPush(t, s), log + [s])
    ensures Full(t, log) ==> Full(TierPush(t, s), log + [s])
  {
    var w, now := t.bucketMs, log + [s];
    assert now[..|log|] == log;
    if log == [] {
      FirstPush(t, s);
    } else {
      RunsSnoc(now, w);
      RunsPartition(log, w);
      if t.open.value.index == Index(s.at, w) {
        GrowTracks(t, log, s);
      } else {
        OpenTracks(t, log, s);
      }
    }
  }

  lemma FirstPush(t: TierState, s: Sample)
    requires t.bucketMs > 0 && Tracks(t, [])
    ensures Tracks(TierPush(t, s), [] + [s]) && Full(TierPush(t, s), [] + [s])
  {
    assert [] + [s] == [s] && [s][..0] == [] && RunsOf([s][..0], t.bucketMs) == [];
    assert RunsOf([s], t.bucketMs) == [Run(0, 1)];
    assert [s][0..1] == [s];
    assert Total([s]) == Total([s][..0]) + s.value;
  }

  lemma GrowTracks(t: TierState, log: seq<Sample>, s: Sample)
    requires t.bucketMs > 0 && log != [] && Tracks(t, log) && t.open.value.index == Index(s.at, t.bucketMs)
    ensures Tracks(TierPush(t, s), log + [s])
    ensures Full(t, log) ==> Full(TierPush(t, s), log + [s])
  {
    hide RunsOf, Closed, Filled, Wider, Total, Newest;
    var w, now, runs := t.bucketMs, log + [s], RunsOf(log, t.bucketMs);
    FilledIndex(t.open.value, log, runs, w);
    GrowRuns(log, s, w);
    FilledGrows(t.open.value, log, s, runs, RunsOf(now, w), w);
    ClosedStays(t.closed, log, s, runs, RunsOf(now, w));
  }

  lemma FilledIndex(o: Filling, log: seq<Sample>, runs: seq<Run>, w: int)
    requires log != [] && runs != [] && w > 0 && Filled(o, log, runs, w)
    ensures o.index == Index(log[|log| - 1].at, w)
  {
  }

  lemma GrowRuns(log: seq<Sample>, s: Sample, w: int)
    requires w > 0 && log != [] && Index(log[|log| - 1].at, w) == Index(s.at, w)
    ensures var runs := RunsOf(log, w);
      runs != [] && RunsOf(log + [s], w) == runs[..|runs| - 1] + [Run(runs[|runs| - 1].from, |log| + 1)]
  {
    assert (log + [s])[..|log|] == log;
    RunsSnoc(log + [s], w);
  }

  lemma FilledGrows(o: Filling, log: seq<Sample>, s: Sample, runs: seq<Run>, now: seq<Run>, w: int)
    requires w > 0 && log != [] && runs != [] && Filled(o, log, runs, w) && o.index == Index(s.at, w)
    requires now == runs[..|runs| - 1] + [Run(runs[|runs| - 1].from, |log| + 1)]
    ensures Filled(Filling(o.index, Wider(o.bucket, s, o.sum + s.value), o.sum + s.value), log + [s], now, w)
  {
    hide Total, Wider, Summary;
    var last := runs[|runs| - 1];
    assert (log + [s])[last.from..|log| + 1] == log[last.from..last.to] + [s];
    WiderSummary(log[last.from..last.to], s);
  }

  lemma WiderSummary(ss: seq<Sample>, s: Sample)
    requires ss != []
    ensures Summary(ss + [s]) == Wider(Summary(ss), s, Total(ss) + s.value)
    ensures Total(ss + [s]) == Total(ss) + s.value
  {
    assert (ss + [s])[..|ss|] == ss;
  }

  lemma SumsStay(buckets: seq<Bucket>, log: seq<Sample>, s: Sample, runs: seq<Run>)
    requires Sums(buckets, log, runs)
    ensures Sums(buckets, log + [s], runs)
  {
    hide RunBucket;
    forall i | 0 <= i < |buckets|
      ensures Fits(runs[i], log + [s]) && buckets[i] == RunBucket(log + [s], runs[i])
    {
      SliceStays(log, s, runs[i]);
    }
  }

  lemma ClosedStays(closed: seq<Bucket>, log: seq<Sample>, s: Sample, runs: seq<Run>, now: seq<Run>)
    requires runs != [] && Closed(closed, log, runs) && |now| == |runs| && now[..|runs| - 1] == runs[..|runs| - 1]
    ensures Closed(closed, log + [s], now)
  {
    SumsStay(closed, log, s, LastClosed(runs, |closed|));
    assert LastClosed(now, |closed|) == now[..|runs| - 1][|runs| - 1 - |closed|..];
    assert LastClosed(runs, |closed|) == runs[..|runs| - 1][|runs| - 1 - |closed|..];
  }

  lemma OpenTracks(t: TierState, log: seq<Sample>, s: Sample)
    requires t.bucketMs > 0 && log != [] && Tracks(t, log) && t.open.value.index != Index(s.at, t.bucketMs)
    ensures Tracks(TierPush(t, s), log + [s])
    ensures Full(t, log) ==> Full(TierPush(t, s), log + [s])
  {
    hide RunsOf, Closed, Filled, Total, Newest;
    var w, runs := t.bucketMs, RunsOf(log, t.bucketMs);
    FilledIndex(t.open.value, log, runs, w);
    OpenRuns(log, s, w);
    FilledAnew(log, s, runs, w);
    ClosedNext(t.closed, t.open.value, log, s, runs, t.cap, w);
  }

  lemma OpenRuns(log: seq<Sample>, s: Sample, w: int)
    requires w > 0 && log != [] && Index(log[|log| - 1].at, w) != Index(s.at, w)
    ensures RunsOf(log, w) != [] && RunsOf(log + [s], w) == RunsOf(log, w) + [Run(|log|, |log| + 1)]
  {
    assert (log + [s])[..|log|] == log;
    RunsSnoc(log + [s], w);
  }

  lemma FilledAnew(log: seq<Sample>, s: Sample, runs: seq<Run>, w: int)
    requires w > 0 && log != []
    ensures Filled(Filling(Index(s.at, w), BucketOf(s), s.value), log + [s], runs + [Run(|log|, |log| + 1)], w)
  {
    assert (log + [s])[|log|..|log| + 1] == [s];
    assert [s][..0] == [];
    assert Total([s]) == Total([s][..0]) + s.value;
  }

  lemma ClosedNext(closed: seq<Bucket>, o: Filling, log: seq<Sample>, s: Sample, runs: seq<Run>, cap: nat, w: int)
    requires log != [] && runs != [] && w > 0 && cap >= 1 && |closed| <= cap
    requires Closed(closed, log, runs) && Filled(o, log, runs, w)
    ensures Closed(Newest(closed + [o.bucket], cap), log + [s], runs + [Run(|log|, |log| + 1)])
  {
    hide RunBucket;
    var r, now := Newest(closed + [o.bucket], cap), runs + [Run(|log|, |log| + 1)];
    var all := LastClosed(runs, |closed|) + [runs[|runs| - 1]];
    assert Sums(closed + [o.bucket], log, all);
    NewestSums(closed + [o.bucket], log, all, cap);
    assert LastClosed(now, |r|) == Newest(all, cap);
    SumsStay(r, log, s, LastClosed(now, |r|));
  }

  /** Dropping the oldest buckets drops the oldest runs. */
  lemma NewestSums(buckets: seq<Bucket>, log: seq<Sample>, runs: seq<Run>, cap: nat)
    requires Sums(buckets, log, runs)
    ensures Sums(Newest(buckets, cap), log, Newest(runs, cap))
  {
    hide RunBucket;
    var b, r := Newest(buckets, cap), Newest(runs, cap);
    forall i | 0 <= i < |b|
      ensures Fits(r[i], log) && b[i] == RunBucket(log, r[i])
    {
      assert b[i] == buckets[|buckets| - |b| + i] && r[i] == runs[|runs| - |r| + i];
    }
  }

  /** A tier given another capacity: its newest closed buckets, as many as fit. */
  function Resized(t: TierState, cap: nat): TierState {
    TierState(t.bucketMs, Max(cap, 1), Newest(t.closed, Max(cap, 1)), t.open)
  }

  lemma ResizedTracks(t: TierState, log: seq<Sample>, cap: nat)
    requires t.bucketMs > 0 && Tracks(t, log)
    ensures Tracks(Resized(t, cap), log)
  {
    hide RunsOf, Filled, RunBucket;
    if log != [] {
      var runs, now := RunsOf(log, t.bucketMs), Newest(t.closed, Max(cap, 1));
      NewestSums(t.closed, log, LastClosed(runs, |t.closed|), Max(cap, 1));
      assert Newest(LastClosed(runs, |t.closed|), Max(cap, 1)) == LastClosed(runs, |now|);
    }
  }
}
