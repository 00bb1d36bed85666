/** Samples, runs of them, and the buckets that summarize runs. */
module TimelineRuns {
  import opened Basics

  datatype Sample = Sample(at: int, value: real)

  /** What stays of a run of samples: its two end times, the extremes and mean of the
      values, and their number. */
  datatype Bucket = Bucket(firstMs: int, lastMs: int, min: real, max: real, mean: real, count: nat)

  function BucketOf(s: Sample): Bucket {
    Bucket(s.at, s.at, s.value, s.value, s.value, 1)
  }

  function Total(ss: seq<Sample>): real {
    if ss == [] then 0.0 else Total(ss[..|ss| - 1]) + ss[|ss| - 1].value
  }

  /** One sample more in a bucket, whose values come to `sum` with it. */
  function Wider(b: Bucket, s: Sample, sum: real): Bucket {
    Bucket(b.firstMs, Max(b.lastMs, s.at), MinR(b.min, s.value), MaxR(b.max, s.value), sum / (b.count + 1) as real, b.count + 1)
  }

  /** The bucket a run of samples fills one by one. */
  function Summary(ss: seq<Sample>): Bucket
    requires ss != []
  {
    if |ss| == 1 then BucketOf(ss[0]) else Wider(Summary(ss[..|ss| - 1]), ss[|ss| - 1], Total(ss))
  }

  /** What a bucket says: how many samples, the least and the greatest value among them
      and the mean of them all, and their first and latest times. */
  lemma SummaryIs(ss: seq<Sample>)
    requires ss != []
    ensures Summary(ss).count == |ss| && Summary(ss).firstMs == ss[0].at
    ensures Summary(ss).mean * (|ss| as real) == Total(ss)
    ensures forall i :: 0 <= i < |ss| ==> Summary(ss).min <= ss[i].value <= Summary(ss).max && ss[i].at <= Summary(ss).lastMs
    ensures exists i :: 0 <= i < |ss| && ss[i].value == Summary(ss).min
    ensures exists i :: 0 <= i < |ss| && ss[i].value == Summary(ss).max
    ensures exists i :: 0 <= i < |ss| && ss[i].at == Summary(ss).lastMs
  {
    hide Summary, Total;
    SummaryCounts(ss);
    SummaryBounds(ss);
    SummaryAttained(ss);
  }

  lemma {:induction false} SummaryCounts(ss: seq<Sample>)
    requires ss != []
    ensures Summary(ss).count == |ss| && Summary(ss).firstMs == ss[0].at
    ensures Summary(ss).mean * (|ss| as real) == Total(ss)
  {
    var front := ss[..|ss| - 1];
    if |ss| == 1 {
      assert front == [] && Total(front) == 0.0;
    } else {
      SummaryCounts(front);
      Quotient(Total(ss), |ss| as real);
    }
  }

  lemma {:induction false} SummaryBounds(ss: seq<Sample>)
    requires ss != []
    ensures forall i :: 0 <= i < |ss| ==> Summary(ss).min <= ss[i].value <= Summary(ss).max && ss[i].at <= Summary(ss).lastMs
  {
    hide Total;
    if |ss| > 1 {
      var front := ss[..|ss| - 1];
      SummaryBounds(front);
      assert forall i :: 0 <= i < |front| ==> ss[i] == front[i];
    }
  }

  lemma {:induction false} SummaryAttained(ss: seq<Sample>)
    requires ss != []
    ensures exists i :: 0 <= i < |ss| && ss[i].value == Summary(ss).min
    ensures exists i :: 0 <= i < |ss| && ss[i].value == Summary(ss).max
    ensures exists i :: 0 <= i < |ss| && ss[i].at == Summary(ss).lastMs
  {
    hide Total;
    if |ss| == 1 {
      assert ss[0].value == Summary(ss).min && ss[0].value == Summary(ss).max && ss[0].at == Summary(ss).lastMs;
    } else {
      SummaryAttained(ss[..|ss| - 1]);
      Attained(ss[..|ss| - 1], ss[|ss| - 1], ss);
    }
  }

  lemma Quotient(x: real, n: real)
    requires n != 0.0
    ensures x / n * n == x
  {
  }

  lemma Attained(front: seq<Sample>, last: Sample, ss: seq<Sample>)
    requires front != [] && ss == front + [last]
    requires exists i :: 0 <= i < |front| && front[i].value == Summary(front).min
    requires exists i :: 0 <= i < |front| && front[i].value == Summary(front).max
    requires exists i :: 0 <= i < |front| && front[i].at == Summary(front).lastMs
    ensures exists i :: 0 <= i < |ss| && ss[i].value == Summary(ss).min
    ensures exists i :: 0 <= i < |ss| && ss[i].value == Summary(ss).max
    ensures exists i :: 0 <= i < |ss| && ss[i].at == Summary(ss).lastMs
  {
    assert ss[..|ss| - 1] == front && ss[|front|] == last;
    var i :| 0 <= i < |front| && front[i].value == Summary(front).min;
    var j :| 0 <= j < |front| && front[j].value == Summary(front).max;
    var k :| 0 <= k < |front| && front[k].at == Summary(front).lastMs;
    assert ss[i] == front[i] && ss[j] == front[j] && ss[k] == front[k];
  }

  /** In time order, the latest is the last. */
  lemma {:induction false} SummaryEnds(ss: seq<Sample>)
    requires ss != [] && InOrder(ss)
    ensures Summary(ss).lastMs == ss[|ss| - 1].at
  {
    if |ss| > 1 {
      SummaryEnds(ss[..|ss| - 1]);
      assert ss[|ss| - 2].at <= ss[|ss| - 1].at;
    }
  }

  predicate InOrder(log: seq<Sample>) {
    forall i, j :: 0 <= i <= j < |log| ==> log[i].at <= log[j].at
  }

  // Runs

  /** The samples from `from`, short of `to`. */
  datatype Run = Run(from: nat, to: nat)

  predicate Fits(r: Run, log: seq<Sample>) {
    r.from < r.to <= |log|
  }

  function RunBucket(log: seq<Sample>, r: Run): Bucket
    requires Fits(r, log)
  {
    Summary(log[r.from..r.to])
  }

  /** Which bucket of width `w` a time falls in. */
  function Index(at: int, w: int): int
    requires w > 0
  {
    at / w
  }

  /** The log cut into runs, a new one wherever the bucket changes. */
  function RunsOf(log: seq<Sample>, w: int): (runs: seq<Run>)
    requires w > 0
    ensures runs == [] <==> log == []
  {
    if log == [] then []
    else
      var n := |log| - 1;
      var runs := RunsOf(log[..n], w);
      if n > 0 && Index(log[n - 1].at, w) == Index(log[n].at, w)
      then runs[..|runs| - 1] + [Run(runs[|runs| - 1].from, n + 1)]
      else runs + [Run(n, n + 1)]
  }

  /** Together the runs are the whole log, in order, with nothing between them. */
  lemma {:induction false} RunsPartition(log: seq<Sample>, w: int)
    requires w > 0 && log != []
    ensures RunsOf(log, w)[0].from == 0 && RunsOf(log, w)[|RunsOf(log, w)| - 1].to == |log|
    ensures forall i :: 0 <= i < |RunsOf(log, w)| ==> Fits(RunsOf(log, w)[i], log)
    ensures forall i, j :: 0 <= i < |RunsOf(log, w)| && j == i + 1 < |RunsOf(log, w)| ==>
      RunsOf(log, w)[i].to == RunsOf(log, w)[j].from
  {
    if |log| > 1 {
      RunsPartition(log[..|log| - 1], w);
    } else {
      assert log[..0] == [];
      assert RunsOf(log[..0], w) == [];
      assert RunsOf(log, w) == [Run(0, 1)];
    }
  }

  /** What one sample more does to the runs: the last one grows, or there is a new one. */
  lemma RunsSnoc(log: seq<Sample>, w: int)
    requires w > 0 && |log| > 1
    ensures var n, before := |log| - 1, RunsOf(log[..|log| - 1], w);
      before != [] && RunsOf(log, w) ==
        if Index(log[n - 1].at, w) == Index(log[n].at, w)
        then before[..|before| - 1] + [Run(before[|before| - 1].from, n + 1)]
        else before + [Run(n, n + 1)]
  {
  }

  /** A run's samples fall in one bucket. */
  lemma {:induction false} RunInBucket(log: seq<Sample>, w: int, i: nat, a: nat)
    requires w > 0 && i < |RunsOf(log, w)| && RunsOf(log, w)[i].from <= a < RunsOf(log, w)[i].to
    ensures a < |log| && Index(log[a].at, w) == Index(log[RunsOf(log, w)[i].from].at, w)
    decreases |log|
  {
    hide RunsOf, Index;
    RunsPartition(log, w);
    var n := |log| - 1;
    if n > 0 {
      RunsPartition(log[..n], w);
      RunsSnoc(log, w);
      var before := RunsOf(log[..n], w);
      if i < |before| {
        RunInBucket(log[..n], w, i, if a < n then a else n - 1);
      }
    }
  }

  /** And the next run's, in time order, fall in a later one. */
  lemma {:induction false} RunsAdvance(log: seq<Sample>, w: int, i: nat, j: nat)
    requires w > 0 && InOrder(log) && i < j < |RunsOf(log, w)|
    ensures Fits(RunsOf(log, w)[i], log) && Fits(RunsOf(log, w)[j], log)
    ensures Index(log[RunsOf(log, w)[j].from].at, w) >= Index(log[RunsOf(log, w)[i].from].at, w) + (j - i)
    decreases j
  {
    RunsPartition(log, w);
    if i < j - 1 {
      RunsAdvance(log, w, i, j - 1);
    }
    NextRunLater(log, w, j);
  }

  lemma {:induction false} NextRunLater(log: seq<Sample>, w: int, j: nat)
    requires w > 0 && InOrder(log) && 0 < j < |RunsOf(log, w)|
    ensures Fits(RunsOf(log, w)[j - 1], log) && Fits(RunsOf(log, w)[j], log)
    ensures Index(log[RunsOf(log, w)[j].from].at, w) > Index(log[RunsOf(log, w)[j - 1].from].at, w)
    decreases |log|
  {
    RunsPartition(log, w);
    var n := |log| - 1;
    var before := RunsOf(log[..n], w);
    if j < |before| {
      NextRunLater(log[..n], w, j);
      RunsPartition(log[..n], w);
    } else {
      RunsPartition(log[..n], w);
      RunInBucket(log[..n], w, j - 1, n - 1);
      Monotone(log[n - 1].at, log[n].at, w);
    }
  }
}
