/** The sampler's side of a recording: which snapshots are handed over when passes,
    writers, and the starting and stopping of recordings interleave in any way at all. */
module Sampler {
  import opened Basics
  import opened RecordChannel

  /** How far a pass has come: it has measured, it has seen where snapshots go. Recordings
      go by the number they were started with. */
  datatype Pass = Between | Measured | Holding(sink: Option<nat>)

  /** One step of one of the threads; steps that do not apply do nothing. */
  datatype Act =
    // The sampling thread.
    | Measures | LooksUp | Publishes
    // Any thread that starts or stops a recording.
    | Starts | Keeps(k: nat) | Takes | Hides | Closes(k: nat)
    // A recording's writer.
    | Writes(k: nat, ok: bool)

  /** The ticks from `a` up to, not including, `b`. */
  function Ticks(a: nat, b: nat): seq<nat> {
    if b <= a then [] else seq(b - a, i requires 0 <= i < b - a => a + i)
  }

  /** The first snapshot for a recording started when `since` had been published. */
  function First(since: nat, late: bool): nat {
    since + if late then 2 else 1
  }

  /** The snapshots from the first on, none missing, none that are not out yet. */
  predicate Unbroken(offered: seq<nat>, first: nat, published: nat) {
    && offered == Ticks(first, first + |offered|)
    && (offered != [] ==> first + |offered| <= published + 1)
  }

  lemma NoneYet(first: nat, published: nat)
    ensures Unbroken([], first, published)
  {
  }

  lemma OneMore(offered: seq<nat>, first: nat, published: nat)
    requires Unbroken(offered, first, published) && first + |offered| == published + 1
    ensures Unbroken(offered + [published + 1], first, published + 1)
  {
    assert Ticks(first, published + 2) == Ticks(first, published + 1) + [published + 1];
  }

  class Sampler {
    /** Every recording started so far, oldest first. */
    var started: seq<Channel<nat>>
    /** Which of them a pass that looks now will feed. */
    var sink: Option<nat>
    /** Which of them counts as being in progress. */
    var recording: Option<nat>
    var tick: nat
    var published: nat
    var pass: Pass

    /** What had been published when each was started, and whether a pass had by then
        looked up where to hand its snapshot. */
    ghost var since: seq<nat>
    ghost var late: seq<bool>

    /** The first snapshot each can have. */
    ghost var firsts: seq<nat>

    predicate Open(k: nat)
      requires k < |started|
      reads this, started
    {
      started[k].tx && started[k].rx
    }

    /** A recording that is still open has been offered everything from its first snapshot
        up to the last one published. */
    ghost predicate Current(k: nat)
      requires |firsts| == |started|
      reads this, started
    {
      && k < |started|
      && firsts[k] <= published + 1
      && (Open(k) ==> firsts[k] + |started[k].offered| == published + 1)
    }

    /** The pass going on will not feed the recording that later ones will. */
    predicate Overtaken()
      reads this
    {
      pass.Holding? && sink.Some? && sink != pass.sink
    }

    ghost predicate Recordings()
      reads this, started
    {
      && |since| == |late| == |firsts| == |started|
      && (forall i, j :: 0 <= i < j < |started| ==> started[i] != started[j])
      && (forall k :: 0 <= k < |started| ==> started[k].Valid())
      && (forall k :: 0 <= k < |started| ==> firsts[k] == First(since[k], late[k]))
      && (forall k :: 0 <= k < |started| ==> Unbroken(started[k].offered, firsts[k], published))
    }

    ghost predicate Valid()
      reads this, started
    {
      && Recordings()
      && (recording.Some? ==> recording.value < |started|)
      && (pass.Holding? && pass.sink.Some? ==> Current(pass.sink.value))
      && (sink.Some? && !Overtaken() ==> Current(sink.value))
      && (Overtaken() ==> sink.value < |started| && started[sink.value].offered == []
                          && firsts[sink.value] == published + 2)
      && tick == published + (if pass.Between? then 0 else 1)
    }

    constructor ()
      ensures Valid() && started == [] && published == 0 && pass.Between?
    {
      started, sink, recording, tick, published, pass := [], None, None, 0, 0, Between;
      since, late, firsts := [], [], [];
    }

    // A pass

    method Measure()
      requires Valid() && pass.Between?
      modifies this`tick, this`pass
      ensures Valid() && pass.Measured? && tick == old(tick) + 1
    {
      tick, pass := tick + 1, Measured;
    }

    method LookUp()
      requires Valid() && pass.Measured?
      modifies this`pass
      ensures Valid() && pass == Holding(sink)
    {
      pass := Holding(sink);
    }

    lemma Later()
      requires Recordings()
      ensures forall k :: 0 <= k < |started| ==> Unbroken(started[k].offered, firsts[k], published + 1)
    {
    }

    /** The snapshot is offered to the recording the pass saw. */
    method Hand(k: nat)
      requires Valid() && pass == Holding(Some(k))
      modifies started[k]
      ensures started[k].Valid() && started[k].tx == old(started[k].tx) && started[k].rx == old(started[k].rx)
      ensures started[k].offered == old(started[k].offered + if Open(k) then [tick] else [])
      ensures Unbroken(started[k].offered, firsts[k], published + 1)
      ensures Open(k) ==> firsts[k] + |started[k].offered| == published + 2
    {
      hide Channel.Valid;
      if Open(k) {
        OneMore(started[k].offered, firsts[k], published);
      }
      started[k].Offer(tick);
    }

    /** Offer the snapshot to the recording the pass saw, if any, and publish it. No other
        recording is touched. */
    method Publish()
      requires Valid() && pass.Holding?
      modifies this`published, this`pass, started
      ensures Valid() && pass.Between? && published == tick
      ensures forall k :: 0 <= k < |started| && old(pass.sink) == Some(k) ==>
        started[k].offered == old(started[k].offered + if Open(k) then [tick] else [])
      ensures forall k :: 0 <= k < |started| && old(pass.sink) != Some(k) ==> unchanged(started[k])
    {
      hide Channel.Valid, Unbroken, Ticks;
      Later();
      var to := pass.sink;
      if to.Some? {
        Hand(to.value);
      }
      published, pass := tick, Between;
    }

    // Starting and stopping

    /** A new recording, which passes feed from their next look on. */
    method Start()
      requires Valid()
      modifies this`started, this`sink, this`since, this`late, this`firsts
      ensures Valid() && |started| == |old(started)| + 1 && started[..|old(started)|] == old(started)
      ensures sink == Some(|old(started)|) && fresh(started[|old(started)|])
      ensures started[|old(started)|].tx && started[|old(started)|].rx && started[|old(started)|].offered == []
      ensures since == old(since) + [published] && late == old(late) + [pass.Holding?]
    {
      hide Channel.Valid, Unbroken;
      NoneYet(First(published, pass.Holding?), published);
      var c := new Channel<nat>();
      sink := Some(|started|);
      started, since, late := started + [c], since + [published], late + [pass.Holding?];
      firsts := firsts + [First(published, pass.Holding?)];
    }

    /** The started recording is in progress from here on; any other that was is dropped,
        which closes it some time later. */
    method Keep(k: nat)
      requires Valid() && k < |started|
      modifies this`recording
      ensures Valid() && recording == Some(k)
    {
      recording := Some(k);
    }

    /** Stopping takes three steps: the recording is taken, passes no longer see it, its
        channel closes. */
    method Take() returns (k: Option<nat>)
      requires Valid()
      modifies this`recording
      ensures Valid() && recording.None? && k == old(recording)
    {
      k, recording := recording, None;
    }

    method Hide()
      requires Valid()
      modifies this`sink
      ensures Valid() && sink.None?
    {
      sink := None;
    }

    method Close(k: nat)
      requires Valid() && k < |started|
      modifies started[k]
      ensures Valid() && !started[k].tx && started[k].offered == old(started[k].offered)
    {
      hide Channel.Valid;
      started[k].Close();
    }

    /** A writer's step. */
    method Write(k: nat, ok: bool)
      requires Valid() && k < |started|
      modifies started[k]
      ensures Valid() && started[k].offered == old(started[k].offered)
    {
      hide Channel.Valid;
      started[k].Step(ok);
    }

    // Runs

    method Do(act: Act)
      requires Valid()
      modifies this, started
      ensures Valid() && old(started) <= started && old(since) <= since && old(late) <= late
      ensures forall k :: |old(started)| <= k < |started| ==> fresh(started[k])
    {
      hide *;
      match act
      case Measures => if pass.Between? { Measure(); }
      case LooksUp => if pass.Measured? { LookUp(); }
      case Publishes => if pass.Holding? { Publish(); }
      case Starts => Start();
      case Keeps(k) => if k < |started| { Keep(k); }
      case Takes => var _ := Take();
      case Hides => Hide();
      case Closes(k) => if k < |started| { Close(k); }
      case Writes(k, ok) => if k < |started| { Write(k, ok); }
    }

    /** Any steps at all, in any order: whatever recording was started along the way has
        in its file, or on the way there, some of the snapshots from its first one on, in
        the order they were published, and the rest of those it was offered are counted. */
    method Run(acts: seq<Act>)
      requires Valid()
      modifies this, started
      ensures Valid() && old(started) <= started && old(since) <= since && old(late) <= late
      ensures forall k :: 0 <= k < |started| && !started[k].failed ==>
        && Subsequence(started[k].file + started[k].Waiting(), started[k].offered)
        && |started[k].file| + |started[k].Waiting()| + started[k].dropped == |started[k].offered|
    {
      for i := 0 to |acts|
        invariant Valid() && old(started) <= started && old(since) <= since && old(late) <= late
        invariant forall k :: |old(started)| <= k < |started| ==> fresh(started[k])
      {
        Do(acts[i]);
      }
      forall k | 0 <= k < |started| && !started[k].failed
        ensures Subsequence(started[k].file + started[k].Waiting(), started[k].offered)
        ensures |started[k].file| + |started[k].Waiting()| + started[k].dropped == |started[k].offered|
      {
        Accounted(started[k]);
      }
    }
  }

  /** Without drops and failures, a recording that is through has exactly the snapshots from
      its first on up to where it was closed. */
  lemma RecordedInOrder(s: Sampler, k: nat)
    requires s.Valid() && k < |s.started| && !s.started[k].failed
    ensures var c := s.started[k];
      && Subsequence(c.file + c.Waiting(), Ticks(s.firsts[k], s.firsts[k] + |c.offered|))
      && |c.file| + |c.Waiting()| + c.dropped == |c.offered|
      && (c.dropped == 0 && c.doing.Finished? ==> c.file == Ticks(s.firsts[k], s.firsts[k] + |c.file|))
  {
    hide Ticks, Subsequence, Picked, Passed;
    var c := s.started[k];
    assert c.Valid() && Unbroken(c.offered, s.firsts[k], s.published);
    Accounted(c);
    if c.dropped == 0 && c.doing.Finished? {
      NoneDropped(c.offered, c.taken);
      assert c.file + c.Waiting() == c.file;
    }
  }

  lemma {:induction false} NoneDropped<T>(all: seq<T>, picks: seq<bool>)
    requires |all| == |picks| && Passed(picks) == 0
    ensures Picked(all, picks) == all
  {
    if all != [] {
      NoneDropped(all[..|all| - 1], picks[..|all| - 1]);
    }
  }

  /** "From now on" holds of a recording while it is on just if no pass had looked up where
      its snapshot goes when it was started, or that pass is still not through: otherwise
      the one snapshot is published and not handed over. */
  lemma FromNowOnIff(s: Sampler, k: nat)
    requires s.Valid() && s.sink == Some(k) && s.Open(k)
    ensures s.started[k].offered == Ticks(s.since[k] + 1, s.published + 1)
      <==> !s.late[k] || s.published <= s.since[k]
  {
    var n := |s.started[k].offered|;
    assert n == |Ticks(s.firsts[k], s.firsts[k] + n)|;
    if s.Overtaken() {
      assert s.firsts[k] == s.published + 2;
    }
  }

  /** A run in which that happens. */
  method MissesOne() returns (s: Sampler)
    ensures fresh(s) && s.Valid() && s.sink == Some(0) && |s.started| == 1 && s.late == [true]
    ensures s.published == s.since[0] + 1 && s.started[0].tx && s.started[0].offered == []
  {
    s := new Sampler();
    s.Measure();
    s.LookUp();
    s.Start();
    s.Publish();
  }
}
