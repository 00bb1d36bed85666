/** Replaying a recording: the calls a user makes and the player's own thread, every
    interleaving of what each does under the lock. */
module Player {
  import opened Basics

  /** What happens, for the record: a frame asked for, a request taken up, the schedule
      started over from the position, dropped, a frame played by it, and the position told. */
  datatype Event =
    | Asked(frame: nat)
    | Took(frame: nat)
    | Anchored(at: real, from: nat, speed: real)
    | Changed(at: real)
    | Played(frame: nat, when: real)
    | Told(frame: nat)

  /** The frame asked for last, if it has not been taken up. */
  function Pending(log: seq<Event>): Option<nat> {
    if log == [] then None
    else
      match log[|log| - 1]
      case Asked(i) => Some(i)
      case Took(_) => None
      case _ => Pending(log[..|log| - 1])
  }

  /** The schedule in force: when it started, from which frame, and how fast. */
  function Schedule(log: seq<Event>): Option<Event> {
    if log == [] then None
    else
      match log[|log| - 1]
      case Anchored(_, _, _) => Some(log[|log| - 1])
      case Changed(_) => None
      case _ => Schedule(log[..|log| - 1])
  }

  /** When a user's call or the end of playing last dropped the schedule. */
  function LastChange(log: seq<Event>): Option<real> {
    if log == [] then None
    else
      match log[|log| - 1]
      case Changed(at) => Some(at)
      case _ => LastChange(log[..|log| - 1])
  }

  /** The position: the frame told last, at first frame zero. */
  function Position(log: seq<Event>): nat {
    if log == [] then 0
    else
      match log[|log| - 1]
      case Told(i) => i
      case _ => Position(log[..|log| - 1])
  }

  /** The load begun last: its frame, and whether it was asked for. */
  function LastLoad(log: seq<Event>): Option<(nat, bool)> {
    if log == [] then None
    else
      match log[|log| - 1]
      case Took(i) => Some((i, true))
      case Played(i, _) => Some((i, false))
      case _ => LastLoad(log[..|log| - 1])
  }

  lemma {:induction false} ScheduleIsAnchored(log: seq<Event>)
    ensures Schedule(log).Some? ==> Schedule(log).value.Anchored?
  {
    if log != [] {
      ScheduleIsAnchored(log[..|log| - 1]);
    }
  }

  /** When a schedule has a frame due. Offsets are in milliseconds, times in seconds. */
  function Due(offsets: seq<int>, e: Event, frame: nat): real
    requires e.Anchored? && e.from < |offsets| && frame < |offsets| && e.speed > 0.0
  {
    e.at + Max(offsets[frame] - offsets[e.from], 0) as real / e.speed / 1000.0
  }

  /** What may happen next: a request taken up is the last one made; a frame is played only
      with none outstanding, by the schedule in force, no sooner than it is due. */
  ghost predicate MayFollow(offsets: seq<int>, log: seq<Event>, e: Event) {
    match e
    case Took(i) => Pending(log) == Some(i)
    case Played(i, when) =>
      && Pending(log) == None && Schedule(log).Some?
      && var s := Schedule(log).value;
        s.Anchored? && s.from < i < |offsets| && s.speed > 0.0 && when >= Due(offsets, s, i)
    case Anchored(at, from, speed) =>
      && from < |offsets| && speed > 0.0 && from == Position(log) && Schedule(log).None?
      && LastChange(log).Some? && at >= LastChange(log).value
    case Told(i) => LastLoad(log).Some? && LastLoad(log).value.0 == i
    case _ => true
  }

  ghost predicate Orderly(offsets: seq<int>, log: seq<Event>) {
    forall k :: 0 <= k < |log| ==> MayFollow(offsets, log[..k], log[k])
  }

  lemma OrderlyNext(offsets: seq<int>, log: seq<Event>, e: Event)
    requires Orderly(offsets, log) && MayFollow(offsets, log, e)
    ensures Orderly(offsets, log + [e])
    ensures Pending(log + [e]) == (match e case Asked(i) => Some(i) case Took(_) => None case _ => Pending(log))
    ensures Schedule(log + [e]) == (match e case Anchored(_, _, _) => Some(e) case Changed(_) => None case _ => Schedule(log))
    ensures LastChange(log + [e]) == (match e case Changed(at) => Some(at) case _ => LastChange(log))
    ensures Position(log + [e]) == (match e case Told(i) => i case _ => Position(log))
    ensures LastLoad(log + [e]) ==
      match e case Took(i) => Some((i, true)) case Played(i, _) => Some((i, false)) case _ => LastLoad(log)
  {
    var more := log + [e];
    assert more[..|log|] == log;
    forall k | 0 <= k < |more|
      ensures MayFollow(offsets, more[..k], more[k])
    {
      assert k < |log| ==> more[..k] == log[..k];
    }
  }

  // What an orderly log says

  /** The last request is the one that is loaded: between it and its being taken up, no
      other was made. */
  lemma {:induction false} LastRequestLoaded(offsets: seq<int>, log: seq<Event>, k: nat) returns (j: nat)
    requires Orderly(offsets, log) && k < |log| && log[k].Took?
    ensures j < k && log[j] == Asked(log[k].frame)
    ensures forall m :: j < m < k ==> !log[m].Asked? && !log[m].Took?
  {
    assert MayFollow(offsets, log[..k], log[k]);
    j := PendingSince(log[..k]);
    assert forall m :: 0 <= m < k ==> log[..k][m] == log[m];
  }

  lemma {:induction false} PendingSince(log: seq<Event>) returns (j: nat)
    requires Pending(log).Some?
    ensures j < |log| && log[j] == Asked(Pending(log).value)
    ensures forall m :: j < m < |log| ==> !log[m].Asked? && !log[m].Took?
  {
    var n := |log| - 1;
    if log[n].Asked? {
      j := n;
    } else {
      j := PendingSince(log[..n]);
      assert forall m :: 0 <= m < n ==> log[..n][m] == log[m];
    }
  }

  /** No frame is played over a request: every one made before has been taken up. */
  lemma NoneOutstanding(offsets: seq<int>, log: seq<Event>, k: nat, j: nat) returns (m: nat)
    requires Orderly(offsets, log) && j < k < |log| && log[k].Played? && log[j].Asked?
    ensures j < m < k && log[m].Took?
  {
    assert MayFollow(offsets, log[..k], log[k]);
    m := TakenSince(log[..k], j);
    assert log[..k][m] == log[m];
  }

  lemma {:induction false} TakenSince(log: seq<Event>, j: nat) returns (m: nat)
    requires Pending(log).None? && j < |log| && log[j].Asked?
    ensures j < m < |log| && log[m].Took?
  {
    var n := |log| - 1;
    if log[n].Took? {
      m := n;
    } else {
      assert j < n;
      m := TakenSince(log[..n], j);
    }
  }

  /** Frames played one after another, with nothing changed between, keep one schedule:
      however long each takes to load, the next is due when it was. */
  lemma {:induction false} OneSchedule(offsets: seq<int>, log: seq<Event>, j: nat, k: nat)
    requires Orderly(offsets, log) && j <= k <= |log|
    requires forall m :: j <= m < k ==> log[m].Played? || log[m].Asked? || log[m].Took? || log[m].Told?
    ensures Schedule(log[..k]) == Schedule(log[..j])
    decreases k
  {
    if j < k {
      OneSchedule(offsets, log, j, k - 1);
      assert log[..k][..k - 1] == log[..k - 1];
    }
  }

  // The state, and what changes it

  /** What the thread is about: looking at the controls, loading a frame (by request or by
      playing), showing it, or giving up on it. */
  datatype Doing = Looking | Loading(frame: nat, asked: bool) | Showing(frame: nat) | Failing | Ended

  class Player {
    /** How far each frame of the recording is from the first, in milliseconds. */
    const offsets: seq<int>

    // The controls
    var playing: bool
    var speed: real
    var seek: Option<nat>
    var stop: bool
    /** The schedule in force: a clock time and the recording's offset due at it. */
    var anchor: Option<(real, int)>

    /** The frame on show, and the position told. */
    var current: Option<nat>
    var position: nat
    var error: bool
    var doing: Doing
    var clock: real

    ghost var log: seq<Event>
    /** The frame the schedule in force started from. */
    ghost var from: nat

    function Len(): nat {
      |offsets|
    }

    ghost predicate Valid()
      reads this
    {
      && position < Max(Len(), 1) && speed > 0.0
      && (seek.Some? ==> seek.value < Len() && anchor.None?)
      && (doing.Loading? ==> doing.frame < Len())
      && (doing.Showing? ==> doing.frame < Len())
      && (current == if Len() == 0 then None else if doing.Showing? then Some(doing.frame) else Some(position))
      && Orderly(offsets, log) && Pending(log) == seek
      && (doing.Loading? ==> LastLoad(log) == Some((doing.frame, doing.asked)))
      && (doing.Showing? ==> LastLoad(log).Some? && LastLoad(log).value.0 == doing.frame)
      && Position(log) == position
      && (playing ==> LastChange(log).Some?)
      && (LastChange(log).Some? ==> LastChange(log).value <= clock)
      && (doing.Failing? ==> error)
      && (!error && !doing.Loading? && !doing.Showing? ==>
            position == if LastLoad(log).Some? then LastLoad(log).value.0 else 0)
      && (anchor.Some? ==> from <= position && from < Len() && anchor.value.1 == offsets[from])
      && Schedule(log) == (if anchor.Some? then Some(Anchored(anchor.value.0, from, speed)) else None)
      && (anchor.Some? ==> anchor.value.0 <= clock)
      && (anchor.Some? && doing.Loading? ==> !doing.asked && doing.frame == position + 1)
      && (anchor.Some? && doing.Showing? ==> doing.frame == position + 1)
    }

    /** Open at the first frame, paused. */
    constructor (offsets: seq<int>, clock: real)
      ensures Valid() && this.offsets == offsets && position == 0 && !playing && log == [] && doing == Looking
    {
      this.offsets, this.clock := offsets, clock;
      playing, speed, seek, stop, anchor := false, 1.0, None, false, None;
      position, error, doing, log, from := 0, false, Looking, [], 0;
      current := if |offsets| == 0 then None else Some(0);
    }

    ghost method Note(e: Event)
      requires Orderly(offsets, log) && MayFollow(offsets, log, e)
      modifies this`log
      ensures log == old(log) + [e] && Orderly(offsets, log)
      ensures Pending(log) == (match e case Asked(i) => Some(i) case Took(_) => None case _ => Pending(old(log)))
      ensures Schedule(log) == (match e case Anchored(_, _, _) => Some(e) case Changed(_) => None case _ => Schedule(old(log)))
      ensures LastChange(log) == (match e case Changed(at) => Some(at) case _ => LastChange(old(log)))
      ensures Position(log) == (match e case Told(i) => i case _ => Position(old(log)))
      ensures LastLoad(log) ==
        match e case Took(i) => Some((i, true)) case Played(i, _) => Some((i, false)) case _ => LastLoad(old(log))
    {
      OrderlyNext(offsets, log, e);
      log := log + [e];
    }

    // What users call

    /** Turns playing on, from frame zero if the position is the last one and no other frame has
        been asked for; with fewer than two frames nothing happens. */
    method Play()
      requires Valid()
      modifies this`seek, this`playing, this`anchor, this`log
      ensures old(log) <= log
      ensures Valid()
      ensures Len() < 2 ==> unchanged(this)
      ensures Len() >= 2 ==> playing && anchor.None?
      ensures Len() >= 2 ==> seek == if position + 1 >= Len() && old(seek).None? then Some(0) else old(seek)
    {
      hide Orderly, Pending, Schedule, LastLoad, LastChange, Position;
      if Len() < 2 {
        return;
      }
      if position + 1 >= Len() && seek.None? {
        seek := Some(0);
        Note(Asked(0));
      }
      playing, anchor := true, None;
      Note(Changed(clock));
    }

    /** Stay on the current frame. */
    method Pause()
      requires Valid()
      modifies this`playing, this`anchor, this`log
      ensures old(log) <= log
      ensures Valid() && !playing && anchor.None?
    {
      hide Orderly, Pending, Schedule, LastLoad, LastChange, Position;
      playing, anchor := false, None;
      Note(Changed(clock));
    }

    /** Asks for a frame, the last one if `i` is past it; `playing` stays as it is. */
    method Seek(i: nat)
      requires Valid()
      modifies this`seek, this`anchor, this`log
      ensures old(log) <= log
      ensures Valid()
      ensures if Len() == 0 then unchanged(this) else seek == Some(Min(i, Len() - 1)) && anchor.None?
    {
      hide Orderly, Pending, Schedule, LastLoad, LastChange, Position;
      if Len() == 0 {
        return;
      }
      seek := Some(Min(i, Len() - 1));
      Note(Asked(seek.value));
      anchor := None;
      Note(Changed(clock));
    }

    /** Where a step from the current position leads: read before the lock is taken. */
    method StepTarget(by_: int) returns (target: nat)
      requires Valid() && Len() > 0
      ensures target == Max(0, Min(position + by_, Len() - 1)) && target < Len()
    {
      target := Max(0, Min(position + by_, Len() - 1));
    }

    /** Show the frame a step led to. Pauses. */
    method Step(target: nat)
      requires Valid() && target < Len()
      modifies this`playing, this`seek, this`anchor, this`log
      ensures old(log) <= log
      ensures Valid() && !playing && seek == Some(target) && anchor.None?
    {
      hide Orderly, Pending, Schedule, LastLoad, LastChange, Position;
      playing := false;
      seek := Some(target);
      Note(Asked(target));
      anchor := None;
      Note(Changed(clock));
    }

    /** Playback rate; none given is taken as one. */
    method SetSpeed(to: Option<real>)
      requires Valid()
      modifies this`speed, this`anchor, this`log
      ensures old(log) <= log
      ensures Valid() && anchor.None?
      ensures speed == if to.None? then 1.0 else if to.value < 0.01 then 0.01 else if to.value > 1000.0 then 1000.0 else to.value
    {
      hide Orderly, Pending, Schedule, LastLoad, LastChange, Position;
      speed := if to.None? then 1.0 else if to.value < 0.01 then 0.01 else if to.value > 1000.0 then 1000.0 else to.value;
      anchor := None;
      Note(Changed(clock));
    }

    method Stop()
      requires Valid()
      modifies this`stop
      ensures Valid() && stop
    {
      stop := true;
    }

    // The thread

    /** One look at the controls, under the lock. */
    method Look()
      requires Valid() && doing == Looking
      modifies this`seek, this`playing, this`anchor, this`from, this`doing, this`log
      ensures Valid() && old(log) <= log
      ensures stop ==> doing == Ended
      ensures !stop && old(seek).Some? ==> doing == Loading(old(seek).value, true) && seek.None?
      ensures !stop && old(seek).None? ==> seek.None? && (doing == Looking || doing == Loading(position + 1, false))
      ensures !stop && old(seek).None? && !old(playing) ==> doing == Looking && !playing
      ensures !stop && old(seek).None? && old(playing) ==> (playing <==> position + 1 < Len())
      ensures !stop && old(seek).None? && playing ==>
        && anchor == (if old(anchor).Some? then old(anchor) else Some((clock, offsets[position])))
        && (old(anchor).None? ==> from == position)
        && (doing == Loading(position + 1, false) <==>
              clock >= anchor.value.0 + Max(offsets[position + 1] - anchor.value.1, 0) as real / speed / 1000.0)
      ensures doing == Loading(position + 1, false) && old(seek).None? ==> playing
    {
      hide Orderly, Pending, Schedule, LastLoad, LastChange, Position;
      if stop {
        doing := Ended;
      } else if seek.Some? {
        Note(Took(seek.value));
        doing, seek := Loading(seek.value, true), None;
      } else if playing {
        Advance();
      }
    }

    /** When the next frame is due. */
    function DueNext(): real
      requires anchor.Some? && position + 1 < Len() && speed > 0.0
      reads this
    {
      anchor.value.0 + Max(offsets[position + 1] - anchor.value.1, 0) as real / speed / 1000.0
    }

    method Advance()
      requires Valid() && doing == Looking && playing && seek.None?
      modifies this`playing, this`anchor, this`from, this`doing, this`log
      ensures Valid() && old(log) <= log
      ensures doing == Looking || doing == Loading(position + 1, false)
      ensures playing <==> position + 1 < Len()
      ensures doing == Loading(position + 1, false) ==> playing
      ensures playing ==> anchor == if old(anchor).Some? then old(anchor) else Some((clock, offsets[position]))
      ensures playing && old(anchor).None? ==> from == position
      ensures playing ==> (clock >= DueNext() <==> doing == Loading(position + 1, false))
    {
      hide Orderly, Pending, Schedule, LastLoad, LastChange, Position;
      if position + 1 >= Len() {
        playing, anchor := false, None;
        Note(Changed(clock));
        return;
      }
      if anchor.None? {
        from := position;
        anchor := Some((clock, offsets[position]));
        Note(Anchored(clock, position, speed));
      }
      if clock >= DueNext() {
        Note(Played(position + 1, clock));
        doing := Loading(position + 1, false);
      }
    }

    /** The frame has been decoded: it goes on show first, and then its position is told. */
    method Show()
      requires Valid() && doing.Loading?
      modifies this`current, this`doing
      ensures Valid() && doing == Showing(old(doing).frame) && current == Some(old(doing).frame)
    {
      current, doing := Some(doing.frame), Showing(doing.frame);
    }

    method Tell()
      requires Valid() && doing.Showing?
      modifies this`position, this`error, this`doing, this`log
      ensures old(log) <= log
      ensures Valid() && position == old(doing).frame && !error && doing == Looking
    {
      hide Orderly, Pending, Schedule, LastLoad, LastChange, Position;
      position, error, doing := doing.frame, false, Looking;
      Note(Told(position));
    }

    /** The frame could not be read: playback stops, and the one on show stays. */
    method GiveUp()
      requires Valid() && doing.Loading?
      modifies this`error, this`doing
      ensures Valid() && error && doing == Failing
    {
      error, doing := true, Failing;
    }

    method StopPlaying()
      requires Valid() && doing.Failing?
      modifies this`playing, this`anchor, this`doing, this`log
      ensures old(log) <= log
      ensures Valid() && !playing && anchor.None? && doing == Looking
    {
      hide Orderly, Pending, Schedule, LastLoad, LastChange, Position;
      playing, anchor, doing := false, None, Looking;
      Note(Changed(clock));
    }

    method Wait(seconds: real)
      requires Valid() && seconds >= 0.0
      modifies this`clock
      ensures Valid() && clock == old(clock) + seconds
    {
      clock := clock + seconds;
    }

    /** Any steps at all, in any order: the user's calls, the thread's own, and time. A step
        the thread is not up to does nothing. */
    method Run(steps: seq<Act>)
      requires Valid()
      modifies this
      ensures Valid() && old(log) <= log
    {
      for k := 0 to |steps|
        invariant Valid() && old(log) <= log
      {
        Do(steps[k]);
      }
    }

    method Do(a: Act)
      requires Valid()
      modifies this
      ensures Valid() && old(log) <= log
    {
      hide Valid;
      match a
      case CallPlay => Play();
      case CallPause => Pause();
      case CallSeek(i) => Seek(i);
      case CallStep(target) => if target < Len() { Step(target); }
      case CallSpeed(to) => SetSpeed(to);
      case CallStop => Stop();
      case Passes(seconds) => if seconds >= 0.0 { Wait(seconds); }
      case Thread(ok) =>
        match doing
        case Looking => Look();
        case Loading(_, _) => if ok { Show(); } else { GiveUp(); }
        case Showing(_) => Tell();
        case Failing => StopPlaying();
        case Ended =>
    }
  }

  /** What may happen at any moment. */
  datatype Act =
    | CallPlay
    | CallPause
    | CallSeek(frame: nat)
    | CallStep(target: nat)
    | CallSpeed(to: Option<real>)
    | CallStop
    | Passes(seconds: real)
    | Thread(ok: bool)

  /** Between loads the frame on show is the frame at the position told, and that is always
      in the recording. It is the one of the last request taken up or frame played, if that
      could be read. */
  lemma OnShow(p: Player)
    requires p.Valid() && p.Len() > 0
    ensures p.position < p.Len()
    ensures !p.doing.Showing? ==> p.current == Some(p.position)
    ensures !p.doing.Loading? && !p.error && LastLoad(p.log).Some? ==> p.current == Some(LastLoad(p.log).value.0)
  {
  }

  /** In every run, no frame is played before it is due: the time since the user last changed
      anything is at least what the recording says lies between the frame that was then the
      position and this one, at the speed set. */
  lemma NeverEarly(p: Player, k: nat) returns (j: nat, m: nat)
    requires p.Valid() && k < |p.log| && p.log[k].Played?
    ensures j < m < k && p.log[j].Changed? && forall n :: j < n < k ==> !p.log[n].Changed?
    ensures p.log[m].Anchored? && p.log[m].speed > 0.0 && forall n :: m < n < k ==> !p.log[n].Anchored?
    ensures p.log[m].from == Position(p.log[..m]) < p.log[k].frame < p.Len()
    ensures p.log[k].when >= p.log[j].at
      + Max(p.offsets[p.log[k].frame] - p.offsets[Position(p.log[..m])], 0) as real / p.log[m].speed / 1000.0
  {
    assert MayFollow(p.offsets, p.log[..k], p.log[k]);
    m := AnchoredSince(p.log[..k]);
    assert forall n :: 0 <= n < k ==> p.log[..k][n] == p.log[n];
    assert p.log[..k][..m] == p.log[..m];
    assert MayFollow(p.offsets, p.log[..m], p.log[m]);
    j := ChangedSince(p.log[..m]);
    assert forall n :: 0 <= n < m ==> p.log[..m][n] == p.log[n];
  }

  lemma {:induction false} AnchoredSince(log: seq<Event>) returns (m: nat)
    requires Schedule(log).Some?
    ensures m < |log| && log[m] == Schedule(log).value && log[m].Anchored?
    ensures forall n :: m < n < |log| ==> !log[n].Anchored? && !log[n].Changed?
  {
    var n := |log| - 1;
    if log[n].Anchored? {
      m := n;
    } else {
      m := AnchoredSince(log[..n]);
      assert forall i :: 0 <= i < n ==> log[..n][i] == log[i];
      assert log[..n][..m] == log[..m];
    }
  }

  lemma {:induction false} ChangedSince(log: seq<Event>) returns (j: nat)
    requires LastChange(log).Some?
    ensures j < |log| && log[j] == Changed(LastChange(log).value)
    ensures forall m :: j < m < |log| ==> !log[m].Changed?
  {
    var n := |log| - 1;
    if log[n].Changed? {
      j := n;
    } else {
      j := ChangedSince(log[..n]);
      assert forall m :: 0 <= m < n ==> log[..n][m] == log[m];
    }
  }
}
