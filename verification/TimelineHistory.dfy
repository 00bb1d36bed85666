/** An iterator over a series, from the newest backwards: raw samples first, then each
    tier in turn where the finer ones end. */
module TimelineHistory {
  import opened Basics
  import opened TimelineRuns
  import opened TimelineTiers
  import opened Timeline

  /** Whether a bucket lies wholly before what has been yielded, if anything has. */
  predicate Before(b: Bucket, cut: Option<int>) {
    cut.None? || b.lastMs < cut.value
  }

  /** Of a tier's buckets, oldest first, those not overlapping what has been yielded,
      newest first. */
  function Sift(bs: seq<Bucket>, cut: Option<int>): seq<Bucket> {
    if bs == [] then []
    else
      var b := bs[|bs| - 1];
      if Before(b, cut) then [b] + Sift(bs[..|bs| - 1], Some(b.firstMs)) else Sift(bs[..|bs| - 1], cut)
  }

  /** Where what has been yielded starts after that. */
  function CutAfter(bs: seq<Bucket>, cut: Option<int>): Option<int> {
    if bs == [] then cut
    else
      var b := bs[|bs| - 1];
      CutAfter(bs[..|bs| - 1], if Before(b, cut) then Some(b.firstMs) else cut)
  }

  function SiftAll(tiers: seq<TierState>, cut: Option<int>): seq<Bucket> {
    if tiers == [] then []
    else Sift(tiers[0].Buckets(), cut) + SiftAll(tiers[1..], CutAfter(tiers[0].Buckets(), cut))
  }

  function Coarse(bs: seq<Bucket>, tiers: seq<TierState>, cut: Option<int>): seq<Bucket> {
    Sift(bs, cut) + SiftAll(tiers, CutAfter(bs, cut))
  }

  /** The raw samples, newest first, then the tiers. */
  function Read(raw: seq<Sample>, tiers: seq<TierState>, cut: Option<int>): seq<Bucket> {
    if raw == [] then SiftAll(tiers, cut)
    else
      var s := raw[|raw| - 1];
      [BucketOf(s)] + Read(raw[..|raw| - 1], tiers, Some(s.at))
  }

  /** Reads a series' history, bucket by bucket. */
  class History {
    var raw: seq<Sample>
    var tiers: seq<TierState>
    /** What the tier at hand has left to give: its open bucket, and closed ones from the end. */
    var open: Option<Bucket>
    var closed: seq<Bucket>
    /** Nothing that begins at or after this is given any more. */
    var cut: Option<int>

    /** What is left of the current tier, oldest first. */
    function Left(): seq<Bucket>
      reads this
    {
      closed + if open.Some? then [open.value] else []
    }

    /** The current tier is only looked at once the raw samples are through. */
    predicate Valid()
      reads this
    {
      raw != [] ==> Left() == []
    }

    /** What is still to come. */
    function Rest(): seq<Bucket>
      reads this
    {
      if raw != [] then Read(raw, tiers, cut) else Coarse(Left(), tiers, cut)
    }

    constructor (s: Series)
      ensures Valid() && Rest() == Read(s.raw.buf, s.tiers, None)
    {
      raw, tiers, open, closed, cut := s.raw.buf, s.tiers, None, [], None;
      new;
      assert Left() == [];
      CoarseOfNone(tiers, cut);
    }

    method Next() returns (b: Option<Bucket>)
      requires Valid()
      modifies this
      ensures Valid()
      ensures match b case Some(x) => old(Rest()) == [x] + Rest() case None => old(Rest()) == [] && Rest() == []
    {
      hide Sift, CutAfter, SiftAll, Coarse, Read, Before;
      if raw != [] {
        var s := raw[|raw| - 1];
        RawStep(raw, tiers, cut);
        raw, cut := raw[..|raw| - 1], Some(s.at);
        CoarseOfNone(tiers, cut);
        return Some(BucketOf(s));
      }
      while true
        invariant raw == [] && Valid() && Rest() == old(Rest())
        decreases |tiers|, |Left()|
      {
        var next: Option<Bucket> := None;
        ghost var left, was := Left(), cut;
        if open.Some? {
          next, open := open, None;
          assert left[..|left| - 1] == Left();
        } else if closed != [] {
          next, closed := Some(closed[|closed| - 1]), closed[..|closed| - 1];
          assert left[..|left| - 1] == Left();
        }
        match next {
          case Some(x) =>
            assert left[|left| - 1] == x;
            CoarseStep(left, tiers, was);
            if Before(x, cut) {
              cut := Some(x.firstMs);
              return Some(x);
            }
          // Not before `cut`: passed over.
          case None =>
            CoarseEnd(tiers, cut);
            if tiers == [] {
              return None;
            }
            var t := tiers[0];
            open, closed := if t.open.Some? then Some(t.open.value.bucket) else None, t.closed;
            tiers := tiers[1..];
            assert Left() == t.Buckets();
        }
      }
    }
  }

  lemma RawStep(raw: seq<Sample>, tiers: seq<TierState>, cut: Option<int>)
    requires raw != []
    ensures Read(raw, tiers, cut) == [BucketOf(raw[|raw| - 1])] + Read(raw[..|raw| - 1], tiers, Some(raw[|raw| - 1].at))
  {
  }

  lemma CoarseStep(bs: seq<Bucket>, tiers: seq<TierState>, cut: Option<int>)
    requires bs != []
    ensures var b, front := bs[|bs| - 1], bs[..|bs| - 1];
      Coarse(bs, tiers, cut)
        == if Before(b, cut) then [b] + Coarse(front, tiers, Some(b.firstMs)) else Coarse(front, tiers, cut)
  {
  }

  lemma CoarseEnd(tiers: seq<TierState>, cut: Option<int>)
    ensures Coarse([], tiers, cut) == if tiers == [] then [] else Coarse(tiers[0].Buckets(), tiers[1..], cut)
  {
  }

  lemma CoarseOfNone(tiers: seq<TierState>, cut: Option<int>)
    ensures Coarse([], tiers, cut) == SiftAll(tiers, cut) == Read([], tiers, cut)
  {
  }
}
