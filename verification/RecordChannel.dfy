/** Handing published snapshots to the writer thread, in every interleaving of sampler,
    writer and stop. */
module RecordChannel {
  import opened Basics

  /** The bound on `queue`: an offer that finds it this long is counted in `dropped`. */
  const QUEUE: nat := 4

  /** The elements of `all` that are picked, in order. */
  function Picked<T>(all: seq<T>, picks: seq<bool>): seq<T>
    requires |all| == |picks|
  {
    if all == [] then []
    else Picked(all[..|all| - 1], picks[..|all| - 1]) + if picks[|all| - 1] then [all[|all| - 1]] else []
  }

  function Passed(picks: seq<bool>): nat {
    if picks == [] then 0 else Passed(picks[..|picks| - 1]) + if picks[|picks| - 1] then 0 else 1
  }

  lemma PickedNext<T>(all: seq<T>, picks: seq<bool>, x: T, pick: bool)
    requires |all| == |picks|
    ensures Picked(all + [x], picks + [pick]) == Picked(all, picks) + if pick then [x] else []
    ensures Passed(picks + [pick]) == Passed(picks) + if pick then 0 else 1
  {
    assert (all + [x])[..|all|] == all && (picks + [pick])[..|picks|] == picks;
  }

  /** What is picked and what is passed over are all there is. */
  lemma {:induction false} PickedCount<T>(all: seq<T>, picks: seq<bool>)
    requires |all| == |picks|
    ensures |Picked(all, picks)| + Passed(picks) == |all|
  {
    if all != [] {
      PickedCount(all[..|all| - 1], picks[..|all| - 1]);
    }
  }

  /** `part` is what is left of `all`, in order, when some are passed over. */
  ghost predicate Subsequence<T(!new)>(part: seq<T>, all: seq<T>) {
    exists picks: seq<bool> :: |picks| == |all| && part == Picked(all, picks)
  }

  /** What the writer is about: waiting for a frame, writing one, through with the file, or
      stopped by an error. */
  datatype Doing<T> = Waiting | Writing(frame: T) | Finished | Failed

  /** What a recording amounted to. */
  datatype Stats = Stats(written: nat, dropped: nat)

  /** The channel, both its ends, and the counters they update. */
  class Channel<T(!new)> {
    /** The sampler's end; none once closed. */
    var tx: bool
    /** The writer's end; gone once it has stopped on an error. */
    var rx: bool
    var queue: seq<T>
    var doing: Doing<T>
    /** The frames in the file. */
    var file: seq<T>
    // The counters.
    var dropped: nat
    var frames: nat
    var failed: bool

    /** Snapshots offered while the channel was open at both ends, and which of them it took. */
    ghost var offered: seq<T>
    ghost var taken: seq<bool>

    /** The frames taken that have not reached the file yet. */
    function Waiting(): seq<T>
      reads this
    {
      (if doing.Writing? then [doing.frame] else []) + queue
    }

    ghost predicate Valid()
      reads this
    {
      && |queue| <= QUEUE
      && |taken| == |offered|
      && dropped == Passed(taken)
      && (!failed ==> Picked(offered, taken) == file + Waiting())
      && (doing.Finished? ==> !tx && queue == [] && !failed)
      && (failed ==> doing.Failed?)
      && (doing.Failed? && !failed ==> !tx && queue == [])
      && (rx || doing.Failed?)
      && frames <= |file|
      && (doing.Waiting? || doing.Finished? ==> frames == |file|)
      && file <= Picked(offered, taken)
    }

    constructor ()
      ensures Valid() && tx && rx && file == [] && dropped == 0 && offered == [] && doing.Waiting? && !failed
    {
      tx, rx, queue, doing, file, dropped, frames, failed := true, true, [], Doing.Waiting, [], 0, 0, false;
      offered, taken := [], [];
    }

    /** Appends to `queue` if there is room, else counts a drop; with either end gone, neither. */
    method Offer(snap: T)
      requires Valid()
      modifies this`queue, this`dropped, this`offered, this`taken
      ensures Valid()
      ensures !(old(tx) && rx) ==> unchanged(this)
      ensures old(tx) && rx ==> offered == old(offered) + [snap]
      ensures old(tx) && rx && |old(queue)| < QUEUE ==> queue == old(queue) + [snap] && dropped == old(dropped)
      ensures old(tx) && rx && |old(queue)| == QUEUE ==> queue == old(queue) && dropped == old(dropped) + 1
    {
      if !tx {
        return;
      }
      // `rx` is gone only after a failure, and then `Result` tells of it.
      if !rx {
        return;
      }
      ghost var room := |queue| < QUEUE;
      PickedNext(offered, taken, snap, room);
      offered, taken := offered + [snap], taken + [room];
      if |queue| < QUEUE {
        queue := queue + [snap];
      } else {
        dropped := dropped + 1;
      }
    }

    method Close()
      requires Valid()
      modifies this`tx
      ensures Valid() && !tx
    {
      tx := false;
    }

    // The writer

    /** Go on to the oldest frame in the queue; with none left and none to come, finish the
        file, which goes through if `ok`. A failure there is the result's error, and does
        not set `failed`. */
    method Take(ok: bool)
      requires Valid() && doing.Waiting?
      modifies this`queue, this`doing
      ensures Valid()
      ensures old(queue) != [] ==> queue == old(queue)[1..] && doing == Writing(old(queue)[0])
      ensures old(queue) == [] ==> queue == []
      ensures old(queue) == [] ==> doing == if tx then Doing.Waiting else if ok then Doing.Finished else Doing.Failed
    {
      if queue != [] {
        assert queue == [queue[0]] + queue[1..];
        doing, queue := Writing(queue[0]), queue[1..];
      } else if !tx {
        doing := if ok then Doing.Finished else Doing.Failed;
      }
    }

    /** The frame has been written. */
    method Wrote()
      requires Valid() && doing.Writing?
      modifies this`file, this`doing, this`frames
      ensures Valid() && file == old(file) + [old(doing).frame] && frames == |file| && doing.Waiting?
    {
      assert file + Waiting() == file + [doing.frame] + queue;
      file := file + [doing.frame];
      frames, doing := |file|, Doing.Waiting;
      assert Waiting() == queue;
    }

    /** A write error ends the file. Until `Gone`, offers still enter the queue, from which
        nothing takes them any more. */
    method Fail()
      requires Valid() && doing.Writing?
      modifies this`doing, this`failed
      ensures Valid() && failed && doing.Failed?
    {
      doing, failed := Doing.Failed, true;
    }

    method Gone()
      requires Valid() && doing.Failed?
      modifies this`rx
      ensures Valid() && !rx
    {
      rx := false;
    }

    /** The writer's next step, whatever it is about. */
    method Step(ok: bool)
      requires Valid()
      modifies this`queue, this`doing, this`file, this`frames, this`failed, this`rx
      ensures Valid() && (rx ==> old(rx))
      ensures old(file) <= file
    {
      match doing
      case Waiting => Take(ok);
      case Writing(_) => if ok { Wrote(); } else { Fail(); }
      case Failed => Gone();
      case Finished =>
    }

    /** Stop: the result is there once the writer is through. */
    method Result() returns (r: Option<Result<Stats>>)
      requires Valid() && !tx
      ensures doing.Finished? ==> r == Some(Ok(Stats(frames, dropped)))
      ensures doing.Failed? ==> r.Some? && r.value.Err?
      ensures doing.Waiting? || doing.Writing? ==> r.None?
      ensures r.Some? && r.value.Ok? ==>
        r.value.value.written == |file| && r.value.value.written + r.value.value.dropped == |offered|
        && Subsequence(file, offered)
    {
      match doing {
        case Finished =>
          Accounted(this);
          r := Some(Ok(Stats(frames, dropped)));
        case Failed => r := Some(Err(Io));
        case _ => r := None;
      }
    }

    /** Any steps at all, in any order. */
    method Run(steps: seq<Act<T>>)
      requires Valid()
      modifies this
      ensures Valid()
      ensures !old(tx) ==> !tx && dropped == old(dropped) && offered == old(offered)
    {
      for k := 0 to |steps|
        invariant Valid()
        invariant !old(tx) ==> !tx && dropped == old(dropped) && offered == old(offered)
      {
        match steps[k]
        case Offers(snap) => Offer(snap);
        case Closes => Close();
        case Writes(ok) => Step(ok);
      }
    }
  }

  datatype Act<T> = Offers(snap: T) | Closes | Writes(ok: bool)

  /** At every moment of a recording that has not failed: what was offered is in the file,
      on its way there, or counted as dropped, and the file has what it has in the order
      it was offered. */
  lemma Accounted<T(!new)>(c: Channel<T>)
    requires c.Valid() && !c.failed
    ensures |c.file| + |c.Waiting()| + c.dropped == |c.offered|
    ensures |c.queue| <= QUEUE
    ensures Subsequence(c.file + c.Waiting(), c.offered)
    ensures c.doing.Finished? ==> |c.file| + c.dropped == |c.offered| && Subsequence(c.file, c.offered)
  {
    PickedCount(c.offered, c.taken);
    assert c.doing.Finished? ==> c.file + c.Waiting() == c.file;
  }
}
