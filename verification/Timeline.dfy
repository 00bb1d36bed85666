/** Series: a ring of samples, and tiers of buckets that are all fed at once. */
module Timeline {
  import opened Basics
  import opened Ring
  import opened TimelineRuns
  import opened TimelineTiers

  function Width(r: Resolution): int {
    Max(r.bucketMs, 1)
  }

  predicate SizedAs(t: TierState, r: Resolution) {
    t.bucketMs == Width(r) && t.cap == Max(r.capacity, 1)
  }

  /** A tier that has been given nothing yet. */
  function NewTier(r: Resolution): TierState {
    TierState(Width(r), Max(r.capacity, 1), [], None)
  }

  // Changing the retention

  /** Which old tier, if any, becomes the tier for `r`: the first of its width that has
      not been taken already. */
  predicate Choice(was: seq<TierState>, r: Resolution, taken: seq<Option<nat>>, at: Option<nat>) {
    && (at.Some? ==> at.value < |was| && was[at.value].bucketMs == Width(r) && at !in taken)
    && forall j: nat :: j < (if at.Some? then at.value else |was|) && was[j].bucketMs == Width(r) ==> Some(j) in taken
  }

  /** The tier for `r`: the old one it is from, with what it held as far as it fits, or a new one. */
  function Refitted(was: seq<TierState>, r: Resolution, from: Option<nat>): TierState
    requires from.Some? ==> from.value < |was|
  {
    if from.Some? then Resized(was[from.value], r.capacity) else NewTier(r)
  }

  /** Every tier of another retention is the old tier of its width, resized, if there is
      one left for it, and else a new one. */
  predicate AllRefitted(was: seq<TierState>, r: seq<Resolution>, from: seq<Option<nat>>, now: seq<TierState>) {
    && |from| == |r| == |now|
    && forall i :: 0 <= i < |r| ==> Choice(was, r[i], from[..i], from[i]) && now[i] == Refitted(was, r[i], from[i])
  }

  lemma RefittedNext(
    was: seq<TierState>, r: seq<Resolution>, i: nat, from: seq<Option<nat>>, now: seq<TierState>, at: Option<nat>)
    requires i < |r| && AllRefitted(was, r[..i], from, now) && Choice(was, r[i], from, at)
    ensures AllRefitted(was, r[..i + 1], from + [at], now + [Refitted(was, r[i], at)])
  {
    hide Refitted;
    var from', now' := from + [at], now + [Refitted(was, r[i], at)];
    forall n | 0 <= n < i + 1
      ensures Choice(was, r[..i + 1][n], from'[..n], from'[n]) && now'[n] == Refitted(was, r[..i + 1][n], from'[n])
    {
      assert from'[..n] == from[..n];
      if n < i {
        assert Choice(was, r[..i][n], from[..n], from[n]);
      } else {
        assert from[..n] == from;
      }
    }
  }

  /** The first of the tiers left whose buckets are `width` wide. */
  method Find(left: seq<Option<TierState>>, width: int) returns (at: Option<nat>)
    ensures at.Some? ==> at.value < |left| && left[at.value].Some? && left[at.value].value.bucketMs == width
    ensures forall j :: 0 <= j < (if at.Some? then at.value else |left|) && left[j].Some? ==> left[j].value.bucketMs != width
  {
    for j := 0 to |left|
      invariant forall i :: 0 <= i < j && left[i].Some? ==> left[i].value.bucketMs != width
    {
      if left[j].Some? && left[j].value.bucketMs == width {
        return Some(j);
      }
    }
    return None;
  }

  /** The tiers for another retention, and which old tier each is from. */
  method Refit(was: seq<TierState>, r: seq<Resolution>) returns (now: seq<TierState>, from: seq<Option<nat>>)
    ensures AllRefitted(was, r, from, now)
  {
    hide Resized, AllRefitted;
    var left := seq(|was|, j requires 0 <= j < |was| => Some(was[j]));
    now, from := [], [];
    RefittedNone(was);
    for i := 0 to |r|
      invariant |from| == i && AllRefitted(was, r[..i], from, now) && |left| == |was|
      invariant forall j: nat :: j < |was| ==> left[j] == if Some(j) in from then None else Some(was[j])
    {
      var at := Find(left, Width(r[i]));
      RefittedNext(was, r, i, from, now, at);
      var t := if at.Some? then Resized(left[at.value].value, r[i].capacity) else NewTier(r[i]);
      left := if at.Some? then left[at.value := None] else left;
      now, from := now + [t], from + [at];
    }
    assert r[..|r|] == r;
  }

  lemma RefittedNone(was: seq<TierState>)
    ensures AllRefitted(was, [], [], [])
  {
  }

  class Series {
    const raw: Ring<Sample>
    var tiers: seq<TierState>
    var retention: Retention
    /** Every sample pushed, and which of them was the first each tier was given. */
    ghost var log: seq<Sample>
    ghost var since: seq<nat>

    predicate Sized()
      reads this, raw
    {
      && raw.Valid() && raw.cap == Max(retention.raw, 1)
      && |tiers| == |retention.tiers|
      && (forall i :: 0 <= i < |tiers| ==> tiers[i].bucketMs > 0 && SizedAs(tiers[i], retention.tiers[i]))
    }

    ghost predicate Valid()
      reads this, raw
    {
      && Sized()
      && |raw.buf| <= |log| && raw.buf == log[|log| - |raw.buf|..]
      && |since| == |tiers|
      && (forall i :: 0 <= i < |tiers| ==> since[i] <= |log| && Tracks(tiers[i], log[since[i]..]))
    }

    /** The retention has been what it is from the start. */
    ghost predicate Steady()
      requires Valid()
      reads this, raw
    {
      && |raw.buf| == Min(raw.cap, |log|)
      && (forall i :: 0 <= i < |tiers| ==> since[i] == 0 && Full(tiers[i], log[since[i]..]))
    }

    constructor (retention: Retention)
      ensures Valid() && Steady() && this.retention == retention && log == [] && fresh(raw)
    {
      this.retention, log := retention, [];
      raw := new Ring(retention.raw);
      tiers := seq(|retention.tiers|, i requires 0 <= i < |retention.tiers| => NewTier(retention.tiers[i]));
      since := seq(|retention.tiers|, i => 0);
    }

    /** Append a sample. */
    method Push(at: int, value: real)
      requires Valid()
      modifies this`log, this`tiers, raw`buf
      ensures Valid() && log == old(log) + [Sample(at, value)]
      ensures raw.buf == Newest(old(raw.buf) + [Sample(at, value)], raw.cap)
      ensures old(Steady()) ==> Steady()
    {
      hide Tracks, TierPush, Full;
      var s := Sample(at, value);
      raw.Push(s);
      ghost var was := tiers;
      for i := 0 to |tiers|
        invariant raw.Valid() && raw.buf == Newest(old(raw.buf) + [s], raw.cap) && log == old(log)
        invariant |tiers| == |was|
        invariant forall j :: 0 <= j < i ==> was[j].bucketMs > 0 && tiers[j] == TierPush(was[j], s)
        invariant forall j :: i <= j < |tiers| ==> tiers[j] == was[j]
      {
        tiers := tiers[i := TierPush(tiers[i], s)];
      }
      forall i | 0 <= i < |tiers|
        ensures Tracks(tiers[i], (log + [s])[since[i]..])
        ensures Full(was[i], log[since[i]..]) ==> Full(tiers[i], (log + [s])[since[i]..])
      {
        assert (log + [s])[since[i]..] == log[since[i]..] + [s];
        PushTracks(was[i], log[since[i]..], s);
      }
      log := log + [s];
    }

    /** Every new tier is either an old one of its width, resized, or empty; `from` says which.
        The same retention again changes nothing. */
    method SetRetention(retention: Retention) returns (from: seq<Option<nat>>)
      requires Valid()
      modifies this`retention, this`tiers, this`since, raw
      ensures Valid() && this.retention == retention && log == old(log)
      ensures old(this.retention) == retention ==> unchanged(this) && unchanged(raw)
      ensures old(this.retention) != retention ==>
        raw.buf == Newest(old(raw.buf), raw.cap) && AllRefitted(old(tiers), retention.tiers, from, tiers)
    {
      hide Tracks, Resized, Choice, AllRefitted, SizedAs;
      from := [];
      if this.retention == retention {
        return;
      }
      raw.SetCapacity(retention.raw);
      ghost var was, began, all := tiers, since, |log|;
      tiers, from := Refit(tiers, retention.tiers);
      this.retention := retention;
      since := seq(|from|, i requires 0 <= i < |from| =>
        if from[i].Some? && from[i].value < |began| then began[from[i].value] else all);
      AllRefittedTrack(was, retention.tiers, from, tiers, began, log);
    }

    /** The least of the first raw time and all the times in `Starts` of any tier. */
    method OldestMs() returns (oldest: Option<int>)
      ensures oldest.None? <==> raw.buf == [] && forall i :: 0 <= i < |tiers| ==> Starts(tiers[i]) == []
      ensures oldest.Some? ==> (raw.buf != [] && oldest.value == raw.buf[0].at) || StartsAt(tiers, oldest.value)
      ensures raw.buf != [] ==> oldest.Some? && oldest.value <= raw.buf[0].at
      ensures forall i, t :: 0 <= i < |tiers| && t in Starts(tiers[i]) ==> oldest.Some? && oldest.value <= t
    {
      oldest := if raw.buf == [] then None else Some(raw.buf[0].at);
      for i := 0 to |tiers|
        invariant oldest.None? <==> raw.buf == [] && forall j :: 0 <= j < i ==> Starts(tiers[j]) == []
        invariant oldest.Some? ==> (raw.buf != [] && oldest.value == raw.buf[0].at) || StartsAt(tiers, oldest.value)
        invariant raw.buf != [] ==> oldest.Some? && oldest.value <= raw.buf[0].at
        invariant forall j, t :: 0 <= j < i && t in Starts(tiers[j]) ==> oldest.Some? && oldest.value <= t
      {
        var t := Least(Starts(tiers[i]));
        oldest := if oldest.None? then t else if t.None? then oldest else Some(Min(oldest.value, t.value));
      }
    }
  }

  /** When a tier's oldest closed bucket and its open one start. */
  function Starts(t: TierState): seq<int> {
    (if t.closed != [] then [t.closed[0].firstMs] else []) + if t.open.Some? then [t.open.value.bucket.firstMs] else []
  }

  predicate StartsAt(tiers: seq<TierState>, t: int) {
    exists i :: 0 <= i < |tiers| && t in Starts(tiers[i])
  }

  function Least(ts: seq<int>): (least: Option<int>)
    ensures least.None? <==> ts == []
    ensures least.Some? ==> least.value in ts && forall t :: t in ts ==> least.value <= t
  {
    if ts == [] then None
    else
      var before := Least(ts[..|ts| - 1]);
      assert forall t :: t in ts ==> t in ts[..|ts| - 1] || t == ts[|ts| - 1];
      Some(if before.Some? && before.value <= ts[|ts| - 1] then before.value else ts[|ts| - 1])
  }

  lemma RefittedTracks(
    was: seq<TierState>, r: Resolution, taken: seq<Option<nat>>, from: Option<nat>, began: seq<nat>, log: seq<Sample>)
    requires Choice(was, r, taken, from) && |began| == |was|
    requires forall i :: 0 <= i < |was| ==> was[i].bucketMs > 0 && began[i] <= |log| && Tracks(was[i], log[began[i]..])
    ensures from.Some? ==> from.value < |was|
    ensures var t := Refitted(was, r, from);
      t.bucketMs > 0 && SizedAs(t, r)
      && Tracks(t, log[(if from.Some? then began[from.value] else |log|)..])
  {
    hide Tracks;
    if from.Some? {
      ResizedTracks(was[from.value], log[began[from.value]..], r.capacity);
    } else {
      NewTracks(r);
      assert log[|log|..] == [];
    }
  }

  lemma AllRefittedTrack(
    was: seq<TierState>, r: seq<Resolution>, from: seq<Option<nat>>, now: seq<TierState>, began: seq<nat>, log: seq<Sample>)
    requires AllRefitted(was, r, from, now) && |began| == |was|
    requires forall i :: 0 <= i < |was| ==> was[i].bucketMs > 0 && began[i] <= |log| && Tracks(was[i], log[began[i]..])
    ensures |now| == |r| == |from|
    ensures forall i :: 0 <= i < |now| ==> now[i].bucketMs > 0 && SizedAs(now[i], r[i])
    ensures forall i :: 0 <= i < |now| ==>
      Tracks(now[i], log[(if from[i].Some? && from[i].value < |began| then began[from[i].value] else |log|)..])
  {
    hide Tracks, Refitted, SizedAs;
    forall i | 0 <= i < |now|
      ensures now[i].bucketMs > 0 && SizedAs(now[i], r[i])
      ensures Tracks(now[i], log[(if from[i].Some? && from[i].value < |began| then began[from[i].value] else |log|)..])
    {
      RefittedTracks(was, r[i], from[..i], from[i], began, log);
    }
  }

  lemma NewTracks(r: Resolution)
    ensures Tracks(NewTier(r), [])
  {
  }
}
