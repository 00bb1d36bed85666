/** The two accounts of the processor: a fading total for every process, and a history by
    program; and the ledger that says they agree. */
module Usage {
  import opened Basics
  import opened Model
  import opened UsageLists
  import opened UsageFade
  import opened UsageFolds
  import opened UsageHistory
  import opened UsageTheorems
  import opened UsageLineage
  import opened UsageSums
  import opened UsageSteps
  import opened UsageCounters

  /** The two parts of the floor in `DropGhosts`: absolute, and relative to the sum of all
      entries. */
  const GHOST_FLOOR: real := 1_000_000.0
  const GHOST_SHARE: real := 0.0001

  /** What of the state a snapshot has a say in. */
  datatype Account = Account(
    procs: Entries, sum: real, seen: Lineage, trimmedMs: int, firstMs: Option<int>, programs: seq<string>,
    lost: Option<nat> -> real, log: seq<Stretch>, start: seq<real>, reach: int)
  {
    /** Each program's processes, with the ghosts that were dropped, come to what its
        recorded use comes to, faded from the session's start. */
    ghost predicate Ledger(rate: Rate) {
      forall g: nat :: SumOf(procs, Some(g)) + lost(Some(g)) == Run(rate, TotalOf(start, g), Uses(log, g))
    }
  }

  /** What one snapshot does: every total fades, each process adds what it took, small
      ghosts go, the lineage is trimmed when that is due, and the stretch is recorded
      if it took any time. */
  ghost predicate Follows(
    ps: seq<ProcessSample>, when: When, machine: Machine, was: Account, now: Account, mid: Entries, sums: seq<seq<real>>,
    noted: Lineage, percent: bv32 -> real, labelOf: ProcessStatic -> string)
  {
    && now.firstMs == Some(when.session) && now.reach == was.reach && was.programs <= now.programs
    && FoldedIn(Faded(was.procs, when.Keep()), mid, ps, when, percent, sums, was.start, now.start, was.seen, noted)
    && Labelled(Faded(was.procs, when.Keep()), mid, now.programs, labelOf, ps)
    && (!when.first ==> now.start == was.start)
    && now.sum == SumOf(mid, None)
    && Dropped(mid, now.procs, Floor(now.sum), when.Keep(), was.lost, now.lost)
    && (if when.now - was.trimmedMs >= STEP_MIN_MS
        then Trimmed(noted, when.now - was.reach, now.seen) && now.trimmedMs == when.now
        else now.seen == noted && now.trimmedMs == was.trimmedMs)
    && (if when.span > 0 then Recorded(was.log, now.log, sums, when.now, when.span, machine) else now.log == was.log)
  }

  class Usage {
    const rate: Rate
    /** What the bits of a percentage stand for, and what a process is charted under. */
    const percent: bv32 -> real
    const labelOf: ProcessStatic -> string
    const history: History

    var procs: Entries
    /** The lineage, and the time of its last `TrimLineage`. */
    var seen: Lineage
    var trimmedMs: int
    /** Sum of every total, those of the ghosts dropped last included. */
    var sum: real
    /** The session's clock: its latest value, and its value at the start. */
    var nowMs: int
    var firstMs: Option<int>
    var lastTick: Option<u64>
    var programs: seq<string>
    var programIds: map<string, nat>

    /** What the totals of the dropped ghosts would have come to, by program and in all. */
    ghost var lost: Option<nat> -> real

    predicate Formed()
      reads this
    {
      && Named(programs, programIds)
      && (forall k :: k in procs ==> procs[k].program < |programs|)
    }

    ghost predicate Valid()
      reads this, history
    {
      && history.Valid() && history.rate == rate && Positive(history.log)
      && Formed()
      && (firstMs.None? ==> procs == map[] && history.log == [] && history.start == [])
      && (history.log != [] ==> history.log[|history.log| - 1].end == nowMs)
    }

    constructor (rate: Rate, percent: bv32 -> real, labelOf: ProcessStatic -> string)
      ensures Valid() && Ledger() && fresh(history) && history.log == [] && procs == map[] && firstMs.None? && lastTick.None?
      ensures this.rate == rate && this.percent == percent && this.labelOf == labelOf
    {
      this.rate, this.percent, this.labelOf := rate, percent, labelOf;
      history := new History(rate);
      procs, seen, trimmedMs, sum, nowMs, firstMs, lastTick := map[], map[], 0, 0.0, 0, None, None;
      programs, programIds := [], map[];
      lost := of => 0.0;
      new;
      assert forall g: nat :: Uses(history.log, g) == [];
    }

    /** The program that processes labelled like `s` are charted under: the one they
        have always been, or the next. */
    method ProgramId(s: ProcessStatic) returns (id: nat)
      requires Formed()
      modifies this`programs, this`programIds
      ensures Formed() && id < |programs| && programs[id] == labelOf(s)
      ensures programs == old(programs) + if labelOf(s) in old(programIds) then [] else [labelOf(s)]
    {
      var name := labelOf(s);
      if name in programIds {
        id := programIds[name];
      } else {
        id := |programs|;
        programs, programIds := programs + [name], programIds[name := id];
      }
    }

    /** Fold one process of a snapshot in. */
    method Sight(p: ProcessSample, when: When) returns (took: Took)
      requires Formed() && history.Valid() && !IsIdle(p) && when.rate == rate && (when.first ==> history.log == [])
      modifies this`procs, this`programs, this`programIds, this`seen, history`fadedOut, history`start
      ensures Formed() && history.Valid() && took == TookOf(old(procs), p, when)
      ensures p.Key() in procs && procs == old(procs)[p.Key() := procs[p.Key()]]
      ensures SightedAs(old(procs), procs[p.Key()], p, when)
      ensures p.Key() !in old(procs) ==> programs[procs[p.Key()].program] == labelOf(p.statics.value)
      ensures old(programs) <= programs
      ensures StartedOn(old(history.start), history.start, old(procs), procs[p.Key()], p, when)
      ensures seen == See(old(seen), p, procs[p.Key()].program, when.now)
      ensures !when.first ==> unchanged(history)
    {
      hide Named, TotalOf, Tiled, Replayed, See;
      ghost var before := procs;
      took := TookOf(procs, p, when);
      var e := EntryOf(p, when);
      if e.statics.addr != p.statics.addr {
        e := e.(statics := p.statics);
      }
      if took.cycles > 0 {
        e := e.(total := e.total + took.cycles as real * when.Arrived());
      }
      e := e.(last := p.cycles, lastCpuNs := p.cpuTimeNs, alive := true);
      procs := procs[p.Key() := e];
      seen := See(seen, p, e.program, when.now);
    }

    /** A process's entry, or a new one, its total what it starts from. */
    method EntryOf(p: ProcessSample, when: When) returns (e: Entry)
      requires Formed() && history.Valid() && when.rate == rate && (when.first ==> history.log == [])
      modifies this`programs, this`programIds, history`fadedOut, history`start
      ensures Formed() && history.Valid() && old(programs) <= programs && e.program < |programs|
      ensures e.total == Base(procs, p, when)
      ensures p.Key() in procs ==> e == procs[p.Key()]
      ensures p.Key() !in procs ==> programs[e.program] == labelOf(p.statics.value)
      ensures StartedOn(old(history.start), history.start, procs, e, p, when)
      ensures !when.first ==> unchanged(history)
    {
      hide Named, Tiled, Replayed, TotalOf;
      if p.Key() in procs {
        e := procs[p.Key()];
      } else {
        var program := ProgramId(p.statics.value);
        e := Entry(p.statics, p.cycles, p.cpuTimeNs, 0.0, true, program);
        if !StartedSince(p, when) && when.first {
          e := e.(total := GuessBefore(p, when));
          history.StartOn(program, e.total);
        }
      }
    }

    /** Every process but the idle one. */
    method SightAll(ps: seq<ProcessSample>, when: When) returns (byProgram: seq<seq<real>>)
      requires Formed() && history.Valid() && when.rate == rate && (when.first ==> history.log == []) && Distinct(ps)
      modifies this`procs, this`programs, this`programIds, this`seen, history`fadedOut, history`start
      ensures Formed() && history.Valid() && old(programs) <= programs
      ensures FoldedIn(old(procs), procs, ps, when, percent, byProgram, old(history.start), history.start, old(seen), seen)
      ensures Labelled(old(procs), procs, programs, labelOf, ps)
      ensures !when.first ==> unchanged(history)
    {
      hide Named, Tiled, Replayed, TotalOf, SightedAs, StartedOn, FoldedIn, Row, AddRow, See, History.Valid;
      byProgram := [];
      FoldedInNone(procs, when, percent, history.start, seen);
      for i := 0 to |ps|
        invariant Formed() && history.Valid() && old(programs) <= programs
        invariant FoldedIn(old(procs), procs, ps[..i], when, percent, byProgram, old(history.start), history.start, old(seen), seen)
        invariant Labelled(old(procs), procs, programs, labelOf, ps[..i])
        invariant !when.first ==> unchanged(history)
      {
        if IsIdle(ps[i]) {
          FoldedInIdle(old(procs), procs, ps, i, when, percent, byProgram, old(history.start), history.start, old(seen), seen);
          LabelledIdle(old(procs), procs, programs, labelOf, ps, i);
        } else {
          byProgram := SightNext(old(procs), old(history.start), old(seen), ps, i, when, byProgram);
        }
      }
      assert ps[..|ps|] == ps;
    }

    method SightNext(
      ghost known: Entries, ghost was: seq<real>, ghost unseen: Lineage, ps: seq<ProcessSample>, i: nat, when: When,
      soFar: seq<seq<real>>) returns (byProgram: seq<seq<real>>)
      requires Formed() && history.Valid() && when.rate == rate && (when.first ==> history.log == []) && Distinct(ps)
      requires i < |ps| && !IsIdle(ps[i]) && Labelled(known, procs, programs, labelOf, ps[..i])
      requires FoldedIn(known, procs, ps[..i], when, percent, soFar, was, history.start, unseen, seen)
      modifies this`procs, this`programs, this`programIds, this`seen, history`fadedOut, history`start
      ensures Formed() && history.Valid() && old(programs) <= programs
      ensures FoldedIn(known, procs, ps[..i + 1], when, percent, byProgram, was, history.start, unseen, seen)
      ensures Labelled(known, procs, programs, labelOf, ps[..i + 1])
      ensures !when.first ==> unchanged(history)
    {
      hide Named, Tiled, Replayed, TotalOf, SightedAs, StartedOn, FoldedIn, Row, AddRow, See, History.Valid, Labelled;
      FoldedInRows(known, procs, ps[..i], when, percent, soFar, was, history.start, unseen, seen);
      var took := Sight(ps[i], when);
      FoldedInNext(known, old(procs), ps, i, procs[ps[i].Key()], when, percent, soFar, was, old(history.start), history.start,
                   unseen, old(seen));
      LabelledNext(known, old(procs), procs[ps[i].Key()], old(programs), programs, labelOf, ps, i);
      byProgram := AddRow(soFar, procs[ps[i].Key()].program, Row(took, ps[i], when.span, percent));
    }

    method FadeAll(keep: real)
      requires Formed()
      modifies this`procs
      ensures Formed() && procs == Faded(old(procs), keep)
    {
      procs := Faded(procs, keep);
    }

    /** Ghosts whose totals are too small to matter go. */
    method DropGhosts(keep: real)
      requires Formed()
      modifies this`procs, this`sum, this`lost
      ensures Formed() && sum == SumOf(old(procs), None)
      ensures Dropped(old(procs), procs, Floor(sum), keep, old(lost), lost)
    {
      hide SumOf, Named;
      sum := SumAll(procs);
      var stay := Staying(procs, Floor(sum));
      ghost var go := Only(procs, procs.Keys - stay);
      ghost var was := lost;
      lost := of => was(of) * keep + SumOf(go, of);
      procs := Only(procs, stay);
    }

    /** Whether a snapshot is passed over: it is empty, or the last one again. */
    predicate Ignores(snap: Snapshot)
      reads this
    {
      snap.takenAt.None? || lastTick == Some(snap.tick)
    }

    /** How a snapshot taken at `now` follows those before it. */
    function WhenOf(now: int): When
      reads this
    {
      When(firstMs.None?, if firstMs.Some? then firstMs.value else now, now,
           if firstMs.Some? then Max(now - nowMs, 0) else 0, rate)
    }

    /** Add the stretch that ended at `now`, `span` long, to the history. */
    method Record(byProgram: seq<seq<real>>, now: int, span: int, machine: Machine)
      requires Rows(byProgram) && span > 0 && history.Valid() && Positive(history.log)
      requires history.log != [] ==> history.log[|history.log| - 1].end == now - span
      modifies history
      ensures history.Valid() && Positive(history.log) && history.start == old(history.start) && history.reach == old(history.reach)
      ensures Recorded(old(history.log), history.log, byProgram, now, span, machine)
      ensures history.HeldWithin(now - history.reach)
    {
      hide History.Valid, History.HeldWithin, KeepsNewest, Aged, Amount, Tiled, Positive, At, Rows;
      var lists := AllListed(byProgram);
      var frame := Stretch(now, span, lists, machine);
      LogTiled(history);
      FollowsOn(history.log, frame);
      PositiveNext(history.log, frame, byProgram);
      history.PushFrame(frame);
    }

    /** Take one more snapshot into both accounts. One without a time, or with the tick
        of the last, changes nothing. `machine` is what the stretch says of the machine. */
    method Observe(snap: Snapshot, clockMs: int, machine: Machine)
      returns (ghost mid: Entries, ghost sums: seq<seq<real>>, ghost noted: Lineage)
      requires Valid() && Distinct(snap.processes)
      requires !Ignores(snap) && firstMs.Some? ==> NowMs(snap.takenAt.value, clockMs) >= nowMs
      modifies this, history
      ensures Valid()
      ensures old(Ignores(snap)) ==> unchanged(this) && unchanged(history)
      ensures !old(Ignores(snap)) ==>
        var now := NowMs(snap.takenAt.value, clockMs);
        lastTick == Some(snap.tick) && nowMs == now && Outcome(snap.processes, old(WhenOf(now)), machine, old(Accounts()), Accounts(), mid, sums, noted)
      ensures !old(Ignores(snap)) && old(Ledger()) && (old(firstMs).Some? ==> nowMs > old(nowMs)) ==> Ledger()
      ensures !old(Ignores(snap)) && old(Ledger()) && old(firstMs).Some? && nowMs == old(nowMs) && Fades(rate) ==>
        (Ledger() <==> NobodyUsed(snap.processes, old(procs), old(WhenOf(nowMs))))
      // In the snapshot's own numbers:
      ensures !old(Ignores(snap)) && snap.takenAt.value >= 0 ==>
        nowMs == Min(snap.takenAt.value / 1_000_000, 0x7FFF_FFFF_FFFF_FFFF)
      ensures !old(Ignores(snap)) ==> firstMs == if old(firstMs).Some? then old(firstMs) else Some(nowMs)
      ensures !old(Ignores(snap)) && old(firstMs).Some? ==>
        forall i :: 0 <= i < |snap.processes| && snap.processes[i].Key().pid != 0 && snap.processes[i].Key() in old(procs) ==>
          && snap.processes[i].Key() in procs && procs[snap.processes[i].Key()].last == snap.processes[i].cycles
          && procs[snap.processes[i].Key()].total
             == old(procs)[snap.processes[i].Key()].total * rate.kept(nowMs - old(nowMs))
                + Max(snap.processes[i].cycles - old(procs)[snap.processes[i].Key()].last, 0) as real
                  * rate.arrived(nowMs - old(nowMs))
    {
      hide History.Valid, SumOf, FoldedIn, Named, Recorded, Dropped, Positive, Trimmed, Labelled, Faded, Distinct, Run, TotalOf, Follows, NobodyUsed, Fades, Account.Ledger;
      mid, sums, noted := procs, [], seen;
      if Ignores(snap) {
        return;
      }
      lastTick := Some(snap.tick);
      var now := NowMs(snap.takenAt.value, clockMs);
      ghost var was := Accounts();
      ghost var when := WhenOf(now);
      mid, sums, noted := Fold(snap.processes, WhenOf(now), machine);
      AllListedCount(snap.processes, when, machine, was, Accounts(), mid, sums, noted, percent, labelOf);
      if was.Ledger(rate) && (when.first || when.span > 0) {
        LedgerNext(snap.processes, when, machine, was, Accounts(), mid, sums, noted, percent, labelOf);
      }
      if was.Ledger(rate) && !when.first && when.span == 0 && Fades(rate) {
        LedgerAtSameTime(snap.processes, when, machine, was, Accounts(), mid, sums, noted, percent, labelOf);
      }
    }

    /** Everything the totals, the chart and the lineage are, to be compared with what
        they were. */
    ghost function Accounts(): Account
      reads this, history
    {
      Account(procs, sum, seen, trimmedMs, firstMs, programs, lost, history.log, history.start, history.reach)
    }

    ghost predicate Outcome(
      ps: seq<ProcessSample>, when: When, machine: Machine, was: Account, now: Account, mid: Entries, sums: seq<seq<real>>,
      noted: Lineage)
    {
      Follows(ps, when, machine, was, now, mid, sums, noted, percent, labelOf)
    }

    ghost predicate Ledger()
      reads this, history
    {
      Accounts().Ledger(rate)
    }

    method Fold(ps: seq<ProcessSample>, when: When, machine: Machine)
      returns (ghost mid: Entries, ghost sums: seq<seq<real>>, ghost noted: Lineage)
      requires Valid() && Distinct(ps) && when == WhenOf(when.now) && (firstMs.Some? ==> when.now >= nowMs)
      modifies this, history
      ensures Valid() && nowMs == when.now && lastTick == old(lastTick) && firstMs == Some(when.session)
      ensures Outcome(ps, when, machine, old(Accounts()), Accounts(), mid, sums, noted)
    {
      hide History.Valid, SumOf, Sighted, FoldedIn, Named, Recorded, Dropped, Amount, Positive, At, Trimmed, Labelled, Replayed, Tiled, Faded, Staying;
      firstMs, nowMs := Some(when.session), when.now;
      var byProgram;
      byProgram, mid, noted := TakeIn(ps, when);
      sums := byProgram;
      Trim(when.now);
      RecordAny(byProgram, when, machine);
    }

    /** The totals' part: fade, add what each process took, drop small ghosts. */
    method TakeIn(ps: seq<ProcessSample>, when: When)
      returns (byProgram: seq<seq<real>>, ghost mid: Entries, ghost noted: Lineage)
      requires Formed() && history.Valid() && Distinct(ps) && when.rate == rate && (when.first ==> history.log == [])
      modifies this`procs, this`programs, this`programIds, this`seen, this`sum, this`lost, history`fadedOut, history`start
      ensures Formed() && history.Valid() && old(programs) <= programs && Rows(byProgram) && seen == noted
      ensures FoldedIn(Faded(old(procs), when.Keep()), mid, ps, when, percent, byProgram, old(history.start), history.start,
                       old(seen), noted)
      ensures Labelled(Faded(old(procs), when.Keep()), mid, programs, labelOf, ps)
      ensures !when.first ==> unchanged(history)
      ensures sum == SumOf(mid, None) && Dropped(mid, procs, Floor(sum), when.Keep(), old(lost), lost)
    {
      hide History.Valid, SumOf, FoldedIn, Named, Dropped, Labelled, Faded, Distinct;
      FadeAll(when.Keep());
      byProgram := SightAll(ps, when);
      mid, noted := procs, seen;
      FoldedInRows(Faded(old(procs), when.Keep()), mid, ps, when, percent, byProgram, old(history.start), history.start, old(seen), noted);
      DropGhosts(when.Keep());
    }

    /** Trim the lineage, if that was not done lately. */
    method Trim(now: int)
      modifies this`seen, this`trimmedMs
      ensures if now - old(trimmedMs) >= STEP_MIN_MS
              then Trimmed(old(seen), now - history.reach, seen) && trimmedMs == now
              else seen == old(seen) && trimmedMs == old(trimmedMs)
    {
      if now - trimmedMs >= STEP_MIN_MS {
        trimmedMs := now;
        seen := TrimLineage(seen, now - history.reach);
      }
    }

    method RecordAny(byProgram: seq<seq<real>>, when: When, machine: Machine)
      requires Rows(byProgram) && when.span >= 0 && history.Valid() && Positive(history.log)
      requires history.log != [] ==> history.log[|history.log| - 1].end == when.now - when.span
      modifies history
      ensures history.Valid() && Positive(history.log) && history.start == old(history.start) && history.reach == old(history.reach)
      ensures if when.span > 0 then Recorded(old(history.log), history.log, byProgram, when.now, when.span, machine)
              else history.log == old(history.log)
      ensures history.log != [] ==> history.log[|history.log| - 1].end == when.now
      ensures when.first && when.span == 0 ==> unchanged(history)
    {
      hide History.Valid, Recorded, Positive, Rows;
      if when.span > 0 {
        Record(byProgram, when.now, when.span, machine);
        RecordedLast(old(history.log), history.log, byProgram, when.now, when.span, machine);
      }
    }
  }

  /** The lists of each kind. */
  method AllListed(byProgram: seq<seq<real>>) returns (lists: seq<List>)
    requires Rows(byProgram)
    ensures |lists| == KINDS
    ensures forall k :: 0 <= k < KINDS ==> Sorted(lists[k])
    ensures forall k, g: nat :: 0 <= k < KINDS ==> Amount(lists[k], g) == Above(At(byProgram, g, k))
  {
    hide Amount;
    lists := [];
    for k := 0 to KINDS
      invariant |lists| == k
      invariant forall j :: 0 <= j < k ==> Sorted(lists[j])
      invariant forall j, g: nat :: 0 <= j < k ==> Amount(lists[j], g) == Above(At(byProgram, g, j))
    {
      var list := Listed(byProgram, k);
      lists := lists + [list];
    }
  }

  lemma LogTiled(h: History)
    requires h.Valid()
    ensures Tiled(h.log)
  {
  }

  lemma FollowsOn(log: seq<Stretch>, frame: Stretch)
    requires Tiled(log) && frame.span > 0 && (log != [] ==> log[|log| - 1].end == frame.Start())
    ensures Tiled(log + [frame])
  {
  }

  lemma PositiveNext(log: seq<Stretch>, frame: Stretch, byProgram: seq<seq<real>>)
    requires Positive(log) && |frame.lists| == KINDS
    requires forall g: nat :: Amount(frame.lists[CYCLES], g) == Above(At(byProgram, g, CYCLES))
    ensures Positive(log + [frame])
  {
    hide Amount;
  }

  function Floor(sum: real): real {
    if GHOST_FLOOR >= sum * GHOST_SHARE then GHOST_FLOOR else sum * GHOST_SHARE
  }

  /** What has become of the ghosts too small to stay. */
  ghost predicate Dropped(
    was: Entries, procs: Entries, floor: real, keep: real, lost: Option<nat> -> real, lost': Option<nat> -> real)
  {
    var stay := Staying(was, floor);
    procs == Only(was, stay) && forall of :: lost'(of) == lost(of) * keep + SumOf(Only(was, was.Keys - stay), of)
  }

  /** One stretch has been recorded: for each kind, what each program has any of. */
  ghost predicate Recorded(
    was: seq<Stretch>, log: seq<Stretch>, byProgram: seq<seq<real>>, now: int, span: int, machine: Machine)
  {
    && |log| == |was| + 1 && was == log[..|was|]
    && log[|was|].Formed() && log[|was|].end == now && log[|was|].span == span && log[|was|].machine == machine
    && forall k, g: nat :: 0 <= k < KINDS ==> Amount(log[|was|].lists[k], g) == Above(At(byProgram, g, k))
  }

  lemma RecordedLast(was: seq<Stretch>, log: seq<Stretch>, byProgram: seq<seq<real>>, now: int, span: int, machine: Machine)
    requires Recorded(was, log, byProgram, now, span, machine)
    ensures log != [] && log[|log| - 1].end == now
  {
  }

  /** Whatever a snapshot taken later does, the processes' totals, with the ghosts'
      that were dropped, stay the fading sums of what was recorded. */
  lemma LedgerNext(
    ps: seq<ProcessSample>, when: When, machine: Machine, was: Account, now: Account, mid: Entries, sums: seq<seq<real>>,
    noted: Lineage, percent: bv32 -> real, labelOf: ProcessStatic -> string)
    requires was.Ledger(when.rate) && Follows(ps, when, machine, was, now, mid, sums, noted, percent, labelOf)
    requires if when.first then was.procs == map[] && was.log == [] && was.start == [] && when.span == 0 else when.span > 0
    ensures now.Ledger(when.rate)
  {
    forall g: nat
      ensures SumOf(now.procs, Some(g)) + now.lost(Some(g)) == Run(when.rate, TotalOf(now.start, g), Uses(now.log, g))
    {
      LedgerOf(ps, when, machine, was, now, mid, sums, noted, percent, labelOf, g);
    }
  }

  lemma LedgerOf(
    ps: seq<ProcessSample>, when: When, machine: Machine, was: Account, now: Account, mid: Entries, sums: seq<seq<real>>,
    noted: Lineage, percent: bv32 -> real, labelOf: ProcessStatic -> string, g: nat)
    requires Follows(ps, when, machine, was, now, mid, sums, noted, percent, labelOf)
    requires if when.first then was.procs == map[] && was.log == [] && was.start == [] && when.span == 0 else when.span > 0
    requires SumOf(was.procs, Some(g)) + was.lost(Some(g)) == Run(when.rate, TotalOf(was.start, g), Uses(was.log, g))
    ensures SumOf(now.procs, Some(g)) + now.lost(Some(g)) == Run(when.rate, TotalOf(now.start, g), Uses(now.log, g))
  {
    hide SumOf, Run, TotalOf, Amount, Sighted, Labelled, Trimmed, Faded, SeeAll, Dropped;
    var known, keep := Faded(was.procs, when.Keep()), when.Keep();
    var used := Amount(Shares(ps, known, mid, when, percent, CYCLES), g);
    SumFaded(was.procs, keep, Some(g));
    MidSum(ps, when, known, mid, sums, was.start, now.start, was.seen, noted, percent, g);
    DroppedSum(mid, now.procs, Floor(now.sum), keep, was.lost, now.lost, g);
    if when.first {
      FadedNone(keep);
      SumNone(Some(g));
      TotalOfNone(g);
      FirstTakesNothing(ps, known, mid, when, percent, g);
      assert Uses(now.log, g) == [] && Uses(was.log, g) == [];
      RunOfNone(when.rate, TotalOf(was.start, g));
      RunOfNone(when.rate, TotalOf(now.start, g));
    } else {
      UsedRecorded(ps, when, machine, was.log, now.log, sums, known, mid, percent, g);
      RunSnoc(when.rate, TotalOf(was.start, g), Uses(was.log, g), Use(when.span, used), Uses(now.log, g));
      Spread(SumOf(was.procs, Some(g)), was.lost(Some(g)), keep);
    }
  }

  lemma FadedNone(keep: real)
    ensures Faded(map[], keep) == map[]
  {
  }

  lemma TotalOfNone(g: nat)
    ensures TotalOf([], g) == 0.0
  {
  }

  /** No process took any cycles since it was last seen. */
  predicate NobodyUsed(ps: seq<ProcessSample>, known: Entries, when: When) {
    forall i :: 0 <= i < |ps| && !IsIdle(ps[i]) ==> TookOf(known, ps[i], when).cycles == 0
  }

  /** A snapshot taken at the time of the one before records no stretch, so the ledger
      survives it if and only if no process used any cycles in between. */
  lemma LedgerAtSameTime(
    ps: seq<ProcessSample>, when: When, machine: Machine, was: Account, now: Account, mid: Entries, sums: seq<seq<real>>,
    noted: Lineage, percent: bv32 -> real, labelOf: ProcessStatic -> string)
    requires was.Ledger(when.rate) && Follows(ps, when, machine, was, now, mid, sums, noted, percent, labelOf)
    requires Fades(when.rate) && !when.first && when.span == 0
    ensures now.Ledger(when.rate) <==> NobodyUsed(ps, was.procs, when)
  {
    hide SumOf, Run, TotalOf, Amount, Shares, Follows, Fades, Faded, NobodyUsed;
    var known := Faded(was.procs, when.Keep());
    var l := Shares(ps, known, mid, when, percent, CYCLES);
    SameCounters(was.procs, when.Keep());
    SharesZeroIff(ps, was.procs, known, mid, when, percent);
    forall g: nat
      ensures SumOf(now.procs, Some(g)) + now.lost(Some(g)) == Run(when.rate, TotalOf(now.start, g), Uses(now.log, g))
        <==> Amount(l, g) == 0.0
    {
      SameTimeOf(ps, when, machine, was, now, mid, sums, noted, percent, labelOf, g);
    }
    if now.Ledger(when.rate) {
      forall g: nat
        ensures Amount(l, g) == 0.0
      {
        assert SumOf(now.procs, Some(g)) + now.lost(Some(g)) == Run(when.rate, TotalOf(now.start, g), Uses(now.log, g));
      }
      assert NobodyUsed(ps, was.procs, when);
    }
    if NobodyUsed(ps, was.procs, when) {
      forall g: nat
        ensures SumOf(now.procs, Some(g)) + now.lost(Some(g)) == Run(when.rate, TotalOf(now.start, g), Uses(now.log, g))
      {
        assert Amount(l, g) == 0.0;
      }
      assert now.Ledger(when.rate);
    }
  }

  lemma SameTimeOf(
    ps: seq<ProcessSample>, when: When, machine: Machine, was: Account, now: Account, mid: Entries, sums: seq<seq<real>>,
    noted: Lineage, percent: bv32 -> real, labelOf: ProcessStatic -> string, g: nat)
    requires Follows(ps, when, machine, was, now, mid, sums, noted, percent, labelOf)
    requires Fades(when.rate) && !when.first && when.span == 0
    requires SumOf(was.procs, Some(g)) + was.lost(Some(g)) == Run(when.rate, TotalOf(was.start, g), Uses(was.log, g))
    ensures SumOf(now.procs, Some(g)) + now.lost(Some(g)) == Run(when.rate, TotalOf(now.start, g), Uses(now.log, g))
      <==> Amount(Shares(ps, Faded(was.procs, when.Keep()), mid, when, percent, CYCLES), g) == 0.0
  {
    hide SumOf, Run, TotalOf, Amount, Sighted, Labelled, Trimmed, Faded, SeeAll, Dropped, Fades, Shares;
    var known, keep := Faded(was.procs, when.Keep()), when.Keep();
    SumFaded(was.procs, keep, Some(g));
    MidSum(ps, when, known, mid, sums, was.start, now.start, was.seen, noted, percent, g);
    DroppedSum(mid, now.procs, Floor(now.sum), keep, was.lost, now.lost, g);
    KeptNothing(when.rate);
    Bounds(when.rate, 0);
    assert keep == 1.0 && when.Arrived() == 1.0;
  }

  /** Fading changes no counter. */
  lemma SameCounters(procs: Entries, keep: real)
    ensures forall p, when :: TookOf(Faded(procs, keep), p, when) == TookOf(procs, p, when)
  {
  }

  /** A program's processes took nothing, for every program, just when no process did. */
  lemma SharesZeroIff(ps: seq<ProcessSample>, was: Entries, known: Entries, procs: Entries, when: When, percent: bv32 -> real)
    requires forall p :: TookOf(known, p, when) == TookOf(was, p, when)
    ensures NobodyUsed(ps, was, when)
      <==> forall g: nat :: Amount(Shares(ps, known, procs, when, percent, CYCLES), g) == 0.0
  {
    hide Amount, TookOf;
    var l := Shares(ps, known, procs, when, percent, CYCLES);
    assert forall i :: 0 <= i < |ps| ==> l[i].1 == if IsIdle(ps[i]) then 0.0 else TookOf(was, ps[i], when).cycles as real;
    if NobodyUsed(ps, was, when) {
      forall g: nat
        ensures Amount(l, g) == 0.0
      {
        NoAmount(l, g);
      }
    } else {
      var i :| 0 <= i < |ps| && !IsIdle(ps[i]) && TookOf(was, ps[i], when).cycles != 0;
      AmountAtLeast(l, i);
      assert Amount(l, l[i].0) > 0.0;
    }
  }

  lemma {:induction false} AmountAtLeast(l: List, i: nat)
    requires i < |l| && forall k :: 0 <= k < |l| ==> l[k].1 >= 0.0
    ensures Amount(l, l[i].0) >= l[i].1
  {
    if i == |l| - 1 {
      AmountNonNegative(l[..|l| - 1], l[i].0);
    } else {
      AmountAtLeast(l[..|l| - 1], i);
    }
  }

  lemma MidSum(
    ps: seq<ProcessSample>, when: When, known: Entries, mid: Entries, sums: seq<seq<real>>, was: seq<real>, start: seq<real>,
    unseen: Lineage, noted: Lineage, percent: bv32 -> real, g: nat)
    requires FoldedIn(known, mid, ps, when, percent, sums, was, start, unseen, noted)
    ensures SumOf(mid, Some(g)) == SumOf(known, Some(g))
      + Amount(Shares(ps, known, mid, when, percent, CYCLES), g) * when.Arrived() + TotalOf(start, g) - TotalOf(was, g)
  {
    hide SumOf, Amount, TotalOf, Sighted, Charted, SeeAll, Shares;
  }

  lemma DroppedSum(
    was: Entries, procs: Entries, floor: real, keep: real, lost: Option<nat> -> real, lost': Option<nat> -> real, g: nat)
    requires Dropped(was, procs, floor, keep, lost, lost')
    ensures SumOf(procs, Some(g)) + lost'(Some(g)) == SumOf(was, Some(g)) + lost(Some(g)) * keep
  {
    hide SumOf, Only;
    SumParts(was, Staying(was, floor), Some(g));
  }

  /** At the session's start nothing has been used yet. */
  lemma FirstTakesNothing(ps: seq<ProcessSample>, known: Entries, procs: Entries, when: When, percent: bv32 -> real, g: nat)
    requires when.first && known == map[]
    ensures Amount(Shares(ps, known, procs, when, percent, CYCLES), g) == 0.0
  {
    var l := Shares(ps, known, procs, when, percent, CYCLES);
    assert forall i :: 0 <= i < |l| ==> l[i].1 == 0.0;
    SameAmounts(l, seq(|l|, i => (0, 0.0)), g);
    NoAmount(seq(|l|, i => (0, 0.0)), g);
  }

  lemma {:induction false} NoAmount(l: List, g: nat)
    requires forall i :: 0 <= i < |l| ==> l[i].1 == 0.0
    ensures Amount(l, g) == 0.0
  {
    if l != [] {
      NoAmount(l[..|l| - 1], g);
    }
  }

  lemma RunOfNone(r: Rate, t: real)
    ensures Run(r, t, []) == t
  {
  }

  lemma RunSnoc(r: Rate, t: real, before: seq<Use>, u: Use, us: seq<Use>)
    requires us == before + [u]
    ensures Run(r, t, us) == Run(r, t, before) * r.kept(u.span) + u.cycles * r.arrived(u.span)
  {
    assert us[..|us| - 1] == before;
  }

  /** The recorded stretch has of each program what its processes took. */
  lemma UsedRecorded(
    ps: seq<ProcessSample>, when: When, machine: Machine, was: seq<Stretch>, log: seq<Stretch>, sums: seq<seq<real>>,
    known: Entries, mid: Entries, percent: bv32 -> real, g: nat)
    requires Charted(sums, ps, known, mid, when, percent) && Recorded(was, log, sums, when.now, when.span, machine)
    ensures Uses(log, g) == Uses(was, g) + [Use(when.span, Amount(Shares(ps, known, mid, when, percent, CYCLES), g))]
  {
    var l := Shares(ps, known, mid, when, percent, CYCLES);
    assert forall i :: 0 <= i < |l| ==> l[i].1 >= 0.0;
    AmountNonNegative(l, g);
    assert log == was + [log[|was|]];
  }

  /** A fading sum run over the frames, oldest first, from the faded-out totals comes to
      the program's processes' totals with the dropped ghosts', off by no more than
      folding lost. */
  lemma ChartComesToTotals(u: Usage, g: nat)
    requires u.Valid() && u.Ledger() && Fades(u.rate)
    ensures Within(Run(u.rate, TotalOf(u.history.fadedOut, g), Uses(u.history.Held(), g)),
                   SumOf(u.procs, Some(g)) + u.lost(Some(g)),
                   AllLoss(u.rate, AllSteps(u.history, g)))
  {
    hide History.Valid, SumOf, Run, TotalOf, Fades, Positive;
    ReplayComesClose(u.history, g);
  }

  /** And to exactly that while every step is one sample's, or was evenly used. */
  lemma ChartComesToTotalsExactly(u: Usage, g: nat)
    requires u.Valid() && u.Ledger() && Fades(u.rate)
    requires Lossless(AllSteps(u.history, g))
    ensures Run(u.rate, TotalOf(u.history.fadedOut, g), Uses(u.history.Held(), g)) == SumOf(u.procs, Some(g)) + u.lost(Some(g))
  {
    hide History.Valid, SumOf, Run, TotalOf, Fades, Positive;
    ReplayIsExact(u.history, g);
  }

  /** A ghost only goes once its total is below the floor; a process that lives never
      does. What went is in the reported sum still. */
  lemma OnlySmallGhostsGo(was: Entries, procs: Entries, floor: real, keep: real, lost: Option<nat> -> real, lost': Option<nat> -> real)
    requires Dropped(was, procs, floor, keep, lost, lost')
    ensures forall k :: k in was && k !in procs ==> !was[k].alive && was[k].total < floor
    ensures forall k :: k in procs ==> k in was && procs[k] == was[k]
    ensures SumOf(was, None) - SumOf(procs, None) == lost'(None) - lost(None) * keep
  {
    SumParts(was, Staying(was, floor), None);
  }

  // In counters

  /** What every process of a snapshot comes to, by its counters before and after. */
  lemma ListedCounts(
    ps: seq<ProcessSample>, when: When, machine: Machine, was: Account, now: Account, mid: Entries, sums: seq<seq<real>>,
    noted: Lineage, percent: bv32 -> real, labelOf: ProcessStatic -> string, i: nat)
    requires Follows(ps, when, machine, was, now, mid, sums, noted, percent, labelOf) && i < |ps| && !IsIdle(ps[i])
    ensures ps[i].Key() in mid && ps[i].Key() in now.procs && now.procs[ps[i].Key()] == mid[ps[i].Key()]
    ensures CountedAs(was.procs, now.procs[ps[i].Key()], ps[i], when)
  {
    hide Charted, Grown, SeeAll, Labelled, Trimmed, Recorded, SumOf, CountedAs, Sighted, Faded;
    EachListed(was.procs, mid, ps, when, i);
    AliveOf(was.procs, mid[ps[i].Key()], ps[i], when);
  }

  lemma AliveOf(was: Entries, e: Entry, p: ProcessSample, when: When)
    requires CountedAs(was, e, p, when)
    ensures e.alive
  {
  }

  lemma AllListedCount(
    ps: seq<ProcessSample>, when: When, machine: Machine, was: Account, now: Account, mid: Entries, sums: seq<seq<real>>,
    noted: Lineage, percent: bv32 -> real, labelOf: ProcessStatic -> string)
    requires Follows(ps, when, machine, was, now, mid, sums, noted, percent, labelOf)
    ensures forall i :: 0 <= i < |ps| && !IsIdle(ps[i]) ==>
      ps[i].Key() in now.procs && CountedAs(was.procs, now.procs[ps[i].Key()], ps[i], when)
  {
    hide Follows, CountedAs;
    forall i | 0 <= i < |ps| && !IsIdle(ps[i])
      ensures ps[i].Key() in now.procs && CountedAs(was.procs, now.procs[ps[i].Key()], ps[i], when)
    {
      ListedCounts(ps, when, machine, was, now, mid, sums, noted, percent, labelOf, i);
    }
  }

  /** A process that is not listed fades, and goes once its total is under a million cycles or
      under a ten-thousandth of all totals. */
  lemma UnlistedFades(
    ps: seq<ProcessSample>, when: When, machine: Machine, was: Account, now: Account, mid: Entries, sums: seq<seq<real>>,
    noted: Lineage, percent: bv32 -> real, labelOf: ProcessStatic -> string, k: ProcessKey)
    requires Follows(ps, when, machine, was, now, mid, sums, noted, percent, labelOf) && !Listing(ps, k)
    ensures var total := if k in was.procs then was.procs[k].total * when.rate.kept(when.span) else 0.0;
      && (k in now.procs <==> k in was.procs && total >= 1_000_000.0 && total >= now.sum * 0.0001)
      && (k in now.procs ==> now.procs[k] == was.procs[k].(total := total, alive := false))
  {
    hide Charted, Grown, SeeAll, Labelled, Trimmed, Recorded, SumOf, Sighted, Faded;
    EachUnlisted(was.procs, mid, ps, when, k);
  }

  /** What the chart has of each program for a stretch is what its processes add. */
  lemma ChartGets(
    ps: seq<ProcessSample>, when: When, machine: Machine, was: Account, now: Account, mid: Entries, sums: seq<seq<real>>,
    noted: Lineage, percent: bv32 -> real, labelOf: ProcessStatic -> string, kind: nat, g: nat)
    requires Follows(ps, when, machine, was, now, mid, sums, noted, percent, labelOf) && when.span > 0 && kind < KINDS
    ensures |now.log| == |was.log| + 1 && was.log == now.log[..|was.log|]
    ensures var s, all := now.log[|was.log|], AllAdd(was.procs, mid, ps, when, percent, kind, g);
      && s.end == when.now && s.span == when.span && |s.lists| == KINDS
      && Amount(s.lists[kind], g) == if all > 0.0 then all else 0.0
  {
    hide Grown, SeeAll, Labelled, Trimmed, SumOf, Dropped, Amount, AllAdd, Shares, Faded;
    forall i | 0 <= i < |ps| && !IsIdle(ps[i])
      ensures ps[i].Key() in mid
    {
      EachListed(was.procs, mid, ps, when, i);
    }
    SharesAdd(was.procs, mid, ps, when, percent, kind, g);
  }

  // A ledger that is not kept

  /** Whoever a snapshot lists is among the entries after it, with the counters it had. */
  lemma ListedStay(
    ps: seq<ProcessSample>, when: When, machine: Machine, was: Account, now: Account, mid: Entries, sums: seq<seq<real>>,
    noted: Lineage, percent: bv32 -> real, labelOf: ProcessStatic -> string, i: nat)
    requires Follows(ps, when, machine, was, now, mid, sums, noted, percent, labelOf) && i < |ps| && !IsIdle(ps[i])
    ensures ps[i].Key() in now.procs && now.procs[ps[i].Key()].last == ps[i].cycles
  {
    hide Charted, Grown, SeeAll, Labelled, Trimmed, Recorded, SumOf, Base, TookOf;
    assert Sighted(Faded(was.procs, when.Keep()), mid, ps, when);
    assert SightedAs(Faded(was.procs, when.Keep()), mid[ps[i].Key()], ps[i], when);
  }

  /** The only process of a machine, when it has used so many cycles. */
  function Sole(cycles: u64): ProcessSample {
    ProcessSample(
      Arc(1, NO_STATICS.(key := ProcessKey(1, 1))), 0, 0, cycles, 0, 0, 0, 0, 0, 0, 0, 1, 1, None, None, 0, 0, 0, false, None, None,
      App, Normal, 0, 0, 0, 0, 0, IoCounters(0, 0, 0, 0, 0, 0), None, Arc(0, []), 0, 0)
  }

  /** The machine a millisecond after the epoch. */
  function AtOne(tick: u64, cycles: u64): Snapshot {
    Snapshot(tick, Some(NANOS_PER_MS), Levels([]), [Sole(cycles)], [], [], [], [], Arc(0, []), Hardware([]))
  }

  /** Two snapshots of one time, between which a process used five cycles. */
  method SameTimeBreaksLedger(rate: Rate, percent: bv32 -> real, labelOf: ProcessStatic -> string) returns (u: Usage)
    requires Fades(rate)
    ensures u.Valid() && !u.Ledger()
  {
    hide *;
    u := SeenOnce(rate, percent, labelOf);
    HasUsed(u.procs, u.WhenOf(1));
    NowOfOne(2, 5);
    NotPassedOver(u, AtOne(2, 5));
    var _, _, _ := u.Observe(AtOne(2, 5), 0, NO_MACHINE);
  }

  lemma NowOfOne(tick: u64, cycles: u64)
    ensures var s := AtOne(tick, cycles);
      s.takenAt == Some(NANOS_PER_MS) && NowMs(NANOS_PER_MS, 0) == 1 && s.tick == tick && s.processes == [Sole(cycles)]
      && Distinct(s.processes)
    ensures !IsIdle(Sole(cycles)) && Sole(cycles).cycles == cycles
  {
  }

  lemma NotPassedOver(u: Usage, snap: Snapshot)
    requires snap.takenAt.Some? && u.lastTick != Some(snap.tick)
    ensures !u.Ignores(snap)
  {
  }

  lemma HasUsed(known: Entries, when: When)
    requires Sole(0).Key() in known && known[Sole(0).Key()].last == 0
    ensures !NobodyUsed([Sole(5)], known, when)
  {
    assert TookOf(known, Sole(5), when).cycles == 5;
    assert !IsIdle([Sole(5)][0]);
  }

  method SeenOnce(rate: Rate, percent: bv32 -> real, labelOf: ProcessStatic -> string) returns (u: Usage)
    ensures u.Valid() && u.Ledger() && fresh(u) && fresh(u.history) && u.rate == rate
    ensures u.firstMs.Some? && u.nowMs == 1 && u.lastTick == Some(1)
    ensures Sole(0).Key() in u.procs && u.procs[Sole(0).Key()].last == 0
  {
    hide Usage.Valid, Usage.Ledger, Usage.Ignores, Fades, Follows, NobodyUsed, AtOne, Distinct, NowMs, Sole, SumOf, Run, TotalOf;
    u := new Usage(rate, percent, labelOf);
    ghost var was, when := u.Accounts(), u.WhenOf(1);
    NowOfOne(1, 0);
    NotPassedOver(u, AtOne(1, 0));
    ghost var mid, sums, noted;
    mid, sums, noted := u.Observe(AtOne(1, 0), 0, NO_MACHINE);
    ListedStay([Sole(0)], when, NO_MACHINE, was, u.Accounts(), mid, sums, noted, percent, labelOf, 0);
    assert u.firstMs == Some(when.session) by {
      FirstIs([Sole(0)], when, NO_MACHINE, was, u.Accounts(), mid, sums, noted, percent, labelOf);
    }
  }

  lemma FirstIs(
    ps: seq<ProcessSample>, when: When, machine: Machine, was: Account, now: Account, mid: Entries, sums: seq<seq<real>>,
    noted: Lineage, percent: bv32 -> real, labelOf: ProcessStatic -> string)
    requires Follows(ps, when, machine, was, now, mid, sums, noted, percent, labelOf)
    ensures now.firstMs == Some(when.session)
  {
  }
}
