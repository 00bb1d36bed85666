/** What a recording's files and readings come to in terms a user of them has: where the
    keyframes are, what a read costs, what is refused, and field by field what comes back. */
module RecordingLaws {
  import opened Basics
  import opened Model
  import opened Frame
  import opened FrameProofs
  import opened Format
  import opened Recorder
  import opened Recording
  import opened RecordingRuns
  import opened RecordingTheorems

  // Keyframes

  lemma {:induction false} SinceKeyIs(cfg: Config, events: seq<Event>)
    ensures StateAfter(cfg, events).sinceKey == if events == [] then 0 else (|events| - 1) % Max(cfg.keyframeEvery, 1) + 1
  {
    hide *;
    if events == [] {
      NothingWritten(cfg);
    } else {
      var n := |events| - 1;
      var before := events[..n];
      assert events[..n + 1] == events;
      SinceKeyIs(cfg, before);
      RunCounts(cfg, before);
      AfterOne(cfg, events, n);
      SinceKeyNext(cfg, StateAfter(cfg, before), events[n]);
      NextInStep(n, Max(cfg.keyframeEvery, 1));
    }
  }

  lemma NothingWritten(cfg: Config)
    ensures StateAfter(cfg, []).sinceKey == 0
  {
  }

  lemma SinceKeyNext(cfg: Config, st: State, e: Event)
    ensures var key := st.prev.None? || st.sinceKey >= Max(cfg.keyframeEvery, 1);
      && IsKey(cfg, st) == key
      && Wrote(cfg, st, e.snap, e.held).sinceKey == if key then 1 else st.sinceKey + 1
    ensures Max(cfg.keyframeEvery, 1) >= 1
  {
    hide NextFrame, NewTables, NewFrame, SweptTables, FlushedTables, Offsets, Bytes, UnixMs, Config.Start;
  }

  lemma NextInStep(n: nat, every: nat)
    requires every >= 1
    ensures n > 0 ==> n % every == if (n - 1) % every + 1 == every then 0 else (n - 1) % every + 1
    ensures 0 % every == 0 && n % every < every
  {
    if n > 0 {
      var q, r := (n - 1) / every, (n - 1) % every;
      assert n - 1 == q * every + r;
      if r + 1 == every {
        assert (q + 1) * every == q * every + every;
        Remainder(n, every, q + 1, 0);
      } else {
        Remainder(n, every, q, r + 1);
      }
    }
  }

  /** In every run, frame `i` is a keyframe if and only if `i` is a multiple of the interval;
      its entry has its snapshot's tick, and its time in whole milliseconds. */
  lemma KeyEvery(cfg: Config, events: seq<Event>, i: nat)
    requires i < |events|
    ensures var frames := StateAfter(cfg, events).index.frames;
      && |frames| == |events|
      && (frames[i].key <==> i % Max(cfg.keyframeEvery, 1) == 0)
      && frames[i].tick == events[i].snap.tick && frames[i].atUnixMs == UnixMs(events[i].snap.takenAt)
  {
    hide *;
    var before := events[..i];
    RunCounts(cfg, events);
    RunCounts(cfg, before);
    SinceKeyIs(cfg, before);
    SinceKeyNext(cfg, StateAfter(cfg, before), events[i]);
    NextInStep(i, Max(cfg.keyframeEvery, 1));
    AfterOne(cfg, events, i);
    WroteEntry(cfg, StateAfter(cfg, before), events[i]);
    RunGrows(cfg, events, i + 1);
  }

  /** So no read of any frame of a run decodes more frames than the interval has. */
  lemma ReadsAreShort(cfg: Config, events: seq<Event>, o: Opened)
    requires OpensRun(cfg, events, o)
    ensures |o.frames| == |events| && KeysEvery(o.frames, Max(cfg.keyframeEvery, 1))
  {
    hide StateAfter, LogsAfter, Covers, At, Bytes, Config.Start, UnixMs;
    RunCounts(cfg, events);
    forall i | 0 <= i < |o.frames|
      ensures o.frames[i].key <==> i % Max(cfg.keyframeEvery, 1) == 0
    {
      KeyEvery(cfg, events, i);
    }
  }

  // What comes back, field by field

  /** A process as version `version` keeps it, but for its pointers' addresses and where its
      threads are. */
  ghost predicate SameProcess(d: ProcessSample, p: ProcessSample, version: nat) {
    && d == p.(statics := d.statics, window := d.window, services := d.services,
               privateWorkingSet := if version >= 2 then p.privateWorkingSet else 0,
               gpuShare := if version >= 3 then p.gpuShare else 0,
               gpuDedicated := if version >= 3 then p.gpuDedicated else 0,
               gpuShared := if version >= 3 then p.gpuShared else 0,
               threadFirst := d.threadFirst, threadRows := d.threadRows)
    && d.statics.value == (if version >= 5 then p.statics.value else p.statics.value.(parentPid := None))
    && (d.window.Some? <==> p.window.Some?)
    && (p.window.Some? ==> d.window.value.value == p.window.value.value)
    && d.services.value == p.services.value
  }

  /** Its threads: those its range named, or none if the range was not a valid one. */
  ghost predicate SameThreadRows(d: Snapshot, s: Snapshot, i: nat)
    requires i < |d.processes| && i < |s.processes|
  {
    var was, now := s.processes[i], d.processes[i];
    if was.threadFirst + was.threadRows <= |s.threads| then
      && now.threadRows == was.threadRows && now.threadFirst + now.threadRows <= |d.threads|
      && d.threads[now.threadFirst..now.threadFirst + now.threadRows]
         == s.threads[was.threadFirst..was.threadFirst + was.threadRows]
    else now.threadRows == 0
  }

  ghost predicate SameDevices<I(!new)>(d: seq<Device<I>>, s: seq<Device<I>>) {
    && |d| == |s|
    && forall i :: 0 <= i < |s| ==> d[i].readings == s[i].readings && d[i].info.value == s[i].info.value
  }

  ghost predicate SameSnapshot(d: Snapshot, s: Snapshot, version: nat, hardware: Hardware) {
    && d.tick == s.tick && d.takenAt == s.takenAt && d.levels == s.levels && d.hardware == hardware
    && |d.processes| == |s.processes|
    && (forall i :: 0 <= i < |s.processes| ==> SameProcess(d.processes[i], s.processes[i], version))
    && (forall i :: 0 <= i < |s.processes| ==> SameThreadRows(d, s, i))
    && SameDevices(d.disks, s.disks) && SameDevices(d.gpus, s.gpus)
    && |d.adapters| == |s.adapters|
    && (forall i :: 0 <= i < |s.adapters| ==>
          && d.adapters[i].readings == s.adapters[i].readings
          && d.adapters[i].info.value
             == (if version >= 4 then s.adapters[i].info.value else s.adapters[i].info.value.(parent := None)))
    && d.services.value == s.services.value
  }

  lemma {:induction false} RowsWithin(s: Snapshot, i: nat, n: nat)
    requires i < n <= |s.processes|
    ensures var from, rows := |RowsBefore(s, i)|, ThreadRows(s, s.processes[i]);
      && from + |rows| <= |RowsBefore(s, n)|
      && RowsBefore(s, n)[from..from + |rows|] == rows
  {
    hide ThreadRows;
    var from, rows := |RowsBefore(s, i)|, ThreadRows(s, s.processes[i]);
    if i + 1 < n {
      RowsWithin(s, i, n - 1);
      assert RowsBefore(s, n)[from..from + |rows|] == RowsBefore(s, n - 1)[from..from + |rows|];
    }
  }

  lemma ProcessIsSame(d: Snapshot, s: Snapshot, version: nat, hardware: Hardware, i: nat)
    requires ComesBackAs(d, s, version, hardware) && i < |s.processes|
    ensures |d.processes| == |s.processes| && d.threads == RowsBefore(s, |s.processes|)
    ensures PlainProcess(d.processes[i]) == KeptProcess(s, version, i)
  {
    hide RowsBefore, KeptProcess, PlainProcess;
    assert Plain(d).processes[i] == Kept(s, version, hardware).processes[i];
  }

  lemma RangeIs(d: Snapshot, s: Snapshot, version: nat, hardware: Hardware, i: nat)
    requires ComesBackAs(d, s, version, hardware) && Countable(s) && i < |s.processes|
    ensures |d.processes| == |s.processes|
    ensures d.processes[i].threadFirst == |RowsBefore(s, i)| && d.processes[i].threadRows == |ThreadRows(s, s.processes[i])|
  {
    hide ComesBackAs, RowsBefore, ThreadRows;
    ProcessIsSame(d, s, version, hardware, i);
    RowsWithin(s, i, |s.processes|);
    var now := d.processes[i];
    assert now.threadFirst == PlainProcess(now).threadFirst && now.threadRows == PlainProcess(now).threadRows;
  }

  lemma ThreadsAreSame(d: Snapshot, s: Snapshot, version: nat, hardware: Hardware, i: nat)
    requires ComesBackAs(d, s, version, hardware) && Countable(s) && i < |s.processes|
    ensures |d.processes| == |s.processes| && SameThreadRows(d, s, i)
  {
    hide ComesBackAs, RowsBefore, Countable, PlainProcess, KeptProcess;
    ProcessIsSame(d, s, version, hardware, i);
    RangeIs(d, s, version, hardware, i);
    RowsWithin(s, i, |s.processes|);
  }

  lemma ProcessesAreSame(d: Snapshot, s: Snapshot, version: nat, hardware: Hardware, i: nat)
    requires ComesBackAs(d, s, version, hardware) && i < |s.processes|
    ensures |d.processes| == |s.processes| && SameProcess(d.processes[i], s.processes[i], version)
  {
    hide ComesBackAs, RowsBefore, ThreadRows;
    ProcessIsSame(d, s, version, hardware, i);
    var now := d.processes[i];
    assert now == PlainProcess(now).(statics := now.statics, window := now.window, services := now.services);
  }

  lemma DevicesAreSame<I(!new)>(d: seq<Device<I>>, s: seq<Device<I>>)
    requires PlainDevices(d) == PlainDevices(s)
    ensures SameDevices(d, s)
  {
    assert |PlainDevices(d)| == |PlainDevices(s)|;
    forall i | 0 <= i < |s|
      ensures d[i].readings == s[i].readings && d[i].info.value == s[i].info.value
    {
      assert PlainDevices(d)[i] == PlainDevices(s)[i];
    }
  }

  lemma RestIsSame(d: Snapshot, s: Snapshot, version: nat, hardware: Hardware)
    requires ComesBackAs(d, s, version, hardware)
    ensures d.tick == s.tick && d.takenAt == s.takenAt && d.levels == s.levels && d.hardware == hardware
    ensures |d.processes| == |s.processes| && d.services.value == s.services.value
    ensures PlainDevices(d.disks) == PlainDevices(s.disks) && PlainDevices(d.gpus) == PlainDevices(s.gpus)
    ensures PlainDevices(d.adapters) == KeptAdapters(version, s.adapters)
  {
    hide RowsBefore, KeptProcess, PlainProcess, PlainDevices, KeptAdapters;
    var p, k := Plain(d), Kept(s, version, hardware);
    assert |p.processes| == |k.processes|;
    assert p.services == k.services;
  }

  lemma AdaptersAreSame(d: seq<Device<AdapterInfo>>, s: seq<Device<AdapterInfo>>, version: nat)
    requires PlainDevices(d) == KeptAdapters(version, s)
    ensures |d| == |s|
    ensures forall i :: 0 <= i < |s| ==>
      && d[i].readings == s[i].readings
      && d[i].info.value == (if version >= 4 then s[i].info.value else s[i].info.value.(parent := None))
  {
    assert |PlainDevices(d)| == |KeptAdapters(version, s)|;
    forall i | 0 <= i < |s|
      ensures d[i].readings == s[i].readings
      ensures d[i].info.value == (if version >= 4 then s[i].info.value else s[i].info.value.(parent := None))
    {
      assert PlainDevices(d)[i] == KeptAdapters(version, s)[i];
    }
  }

  /** What comes back as a snapshot is that snapshot: nothing is different but addresses, the
      order of thread rows, and what the version leaves out. */
  lemma ComesBackIsSame(d: Snapshot, s: Snapshot, version: nat, hardware: Hardware)
    requires ComesBackAs(d, s, version, hardware) && Countable(s)
    ensures SameSnapshot(d, s, version, hardware)
  {
    hide *;
    RestIsSame(d, s, version, hardware);
    DevicesAreSame(d.disks, s.disks);
    DevicesAreSame(d.gpus, s.gpus);
    AdaptersAreSame(d.adapters, s.adapters, version);
    forall i | 0 <= i < |s.processes|
      ensures SameProcess(d.processes[i], s.processes[i], version) && SameThreadRows(d, s, i)
    {
      ProcessesAreSame(d, s, version, hardware, i);
      ThreadsAreSame(d, s, version, hardware, i);
    }
    SameIf(d, s, version, hardware);
  }

  lemma SameIf(d: Snapshot, s: Snapshot, version: nat, hardware: Hardware)
    requires d.tick == s.tick && d.takenAt == s.takenAt && d.levels == s.levels && d.hardware == hardware
    requires |d.processes| == |s.processes| && |d.adapters| == |s.adapters| && d.services.value == s.services.value
    requires forall i :: 0 <= i < |s.processes| ==> SameProcess(d.processes[i], s.processes[i], version) && SameThreadRows(d, s, i)
    requires SameDevices(d.disks, s.disks) && SameDevices(d.gpus, s.gpus)
    requires forall i :: 0 <= i < |s.adapters| ==>
      && d.adapters[i].readings == s.adapters[i].readings
      && d.adapters[i].info.value
         == (if version >= 4 then s.adapters[i].info.value else s.adapters[i].info.value.(parent := None))
    ensures SameSnapshot(d, s, version, hardware)
  {
    hide SameProcess, SameThreadRows, SameDevices;
  }

  ghost predicate ReadsAs(c: Codec, o: Opened, i: nat, s: Snapshot) {
    i < |o.frames| && FrameAt(c, o, i).Ok? && SameSnapshot(FrameAt(c, o, i).value, s, o.version, o.header.hardware)
  }

  ghost predicate AllReadAs(c: Codec, o: Opened, events: seq<Event>) {
    |o.frames| == |events| && forall i :: 0 <= i < |events| ==> ReadsAs(c, o, i, events[i].snap)
  }

  /** The whole way round, field by field. */
  lemma FramesAreSame(cfg: Config, events: seq<Event>) returns (o: Opened)
    requires Proper(cfg) && PossibleRun(cfg, events)
    requires |IndexRecord(cfg, StateAfter(cfg, events)).payload| <= MAX_PAYLOAD
    ensures Open(cfg.codec, FinishedFile(cfg, StateAfter(cfg, events))) == Ok(o)
    ensures o.version == cfg.version && o.header == cfg.header && AllReadAs(cfg.codec, o, events)
  {
    hide *;
    o := FinishedOpens(cfg, events);
    AllAreSame(cfg, events, o);
  }

  lemma AllAreSame(cfg: Config, events: seq<Event>, o: Opened)
    requires Proper(cfg) && PossibleRun(cfg, events) && OpensRun(cfg, events, o)
    ensures o.version == cfg.version && o.header == cfg.header && AllReadAs(cfg.codec, o, events)
  {
    hide Proper, PossibleRun, OpensRun, ReadsAs;
    OpensParts(cfg, events, o);
    RunCounts(cfg, events);
    forall i | 0 <= i < |events|
      ensures ReadsAs(cfg.codec, o, i, events[i].snap)
    {
      FrameIsSame(cfg, events, o, i);
    }
  }

  /** The same of any file that opens with the frames of a run: finished or cut short. */
  lemma FrameIsSame(cfg: Config, events: seq<Event>, o: Opened, i: nat)
    requires Proper(cfg) && PossibleRun(cfg, events) && OpensRun(cfg, events, o) && i < |events|
    ensures ReadsAs(cfg.codec, o, i, events[i].snap)
  {
    hide *;
    FrameComesBack(cfg, events, o, i);
    CountableAt(cfg, events, i);
    OpensParts(cfg, events, o);
    ComesBackIsSame(FrameAt(cfg.codec, o, i).value, events[i].snap, cfg.version, cfg.header.hardware);
    ReadsIf(cfg.codec, o, i, events[i].snap);
  }

  lemma ReadsIf(c: Codec, o: Opened, i: nat, s: Snapshot)
    requires i < |o.frames| && FrameAt(c, o, i).Ok? && SameSnapshot(FrameAt(c, o, i).value, s, o.version, o.header.hardware)
    ensures ReadsAs(c, o, i, s)
  {
    hide FrameAt, SameSnapshot;
  }

  lemma CountableAt(cfg: Config, events: seq<Event>, i: nat)
    requires PossibleRun(cfg, events) && i < |events|
    ensures Countable(events[i].snap)
  {
    hide Countable, AllLive, SnapshotPoints, CpuTimesFit, FrameFits, StateAfter;
    assert Possible(cfg, StateAfter(cfg, events[..i]), events[i]);
  }

  // Tables and rows

  ghost predicate OnlyHeld(t: Tables, held: set<nat>) {
    && t.statics.ids.Keys <= held && t.windows.ids.Keys <= held && t.processServices.ids.Keys <= held
    && t.disks.ids.Keys <= held && t.adapters.ids.Keys <= held && t.gpus.ids.Keys <= held
    && t.services.ids.Keys <= held
  }

  lemma SweptHolds(t: Tables, held: set<nat>)
    ensures OnlyHeld(SweptTables(t, held), held)
  {
  }

  /** After every sixty-fourth frame the tables keep nothing alive: all they have is held by
      somebody else as well. */
  lemma SweptOnTime(cfg: Config, events: seq<Event>)
    requires events != [] && |events| % 64 == 0
    ensures OnlyHeld(StateAfter(cfg, events).tables, events[|events| - 1].held)
  {
    hide NextFrame, NewTables, NewFrame, SweptTables, FlushedTables, Offsets, Bytes, UnixMs, Config.Start, IsKey, OnlyHeld;
    var n := |events| - 1;
    var st, e := StateAfter(cfg, events[..n]), events[n];
    RunCounts(cfg, events[..n]);
    SweptHolds(FlushedTables(NextFrame(cfg, st, e.snap).tables), e.held);
  }

  /** What a row is: a change if and only if the frame before has a process of the same key,
      with its threads row by row if and only if they are the same threads. */
  ghost predicate RowFor(row: Row, snap: Snapshot, p: ProcessSample, prev: Option<Snapshot>) {
    && (row.Changes? <==> exists j :: WasAt(prev, p.Key(), j))
    && (row.Changes? ==> exists j :: WasAt(prev, p.Key(), j) && ByRows(row, snap, p, prev.value, j))
    && (row.Full? ==> row.threads == ThreadRows(snap, p))
  }

  lemma RowIsChange(snap: Snapshot, prev: Option<Snapshot>, t: Tables, k: nat)
    requires k < |snap.processes|
    ensures RowFor(EncodeRows(snap, prev, t, |snap.processes|).rows[k], snap, snap.processes[k], prev)
  {
    hide Was, EncodeRow, RowFor, EncodeRows;
    EncodeRowsEncodes(snap, prev, t, |snap.processes|);
    var e := EncodeRows(snap, prev, t, |snap.processes|);
    assert Encodes(e, k, snap, prev);
    EncodedFor(snap, snap.processes[k], prev, e.rows[k].statics, e.rows[k].window, e.rows[k].services);
  }

  lemma EncodedFor(snap: Snapshot, p: ProcessSample, prev: Option<Snapshot>, statics: nat, window: Option<nat>, services: nat)
    ensures RowFor(EncodeRow(snap, p, prev, statics, window, services), snap, p, prev)
  {
    hide OnWire, ThreadRows, ByKey;
    if prev.Some? {
      KeysFound(prev.value.processes, p.Key());
      var base := BaseIndex(prev, p.Key());
      if base.Some? {
        assert WasAt(prev, p.Key(), base.value);
      } else if j: nat :| WasAt(prev, p.Key(), j) {
        assert false;
      }
    }
  }

  ghost predicate WasAt(prev: Option<Snapshot>, key: ProcessKey, j: nat) {
    prev.Some? && j < |prev.value.processes| && prev.value.processes[j].Key() == key
  }

  ghost predicate ByRows(row: Row, snap: Snapshot, p: ProcessSample, prev: Snapshot, j: nat)
    requires j < |prev.processes| && row.Changes?
  {
    row.rows.SameRows? <==> SameIdentities(ThreadRows(snap, p), ThreadRows(prev, prev.processes[j]))
  }

  ghost predicate SameIdentities(a: seq<ThreadSample>, b: seq<ThreadSample>) {
    && |a| == |b|
    && forall i :: 0 <= i < |a| ==> a[i].tid == b[i].tid && a[i].birth == b[i].birth && a[i].startedUnixMs == b[i].startedUnixMs
  }

  lemma {:induction false} KeysFound(ps: seq<ProcessSample>, key: ProcessKey)
    ensures key in ByKey(ps) <==> exists j :: 0 <= j < |ps| && ps[j].Key() == key
  {
    if ps != [] {
      var front := ps[..|ps| - 1];
      KeysFound(front, key);
      if j :| 0 <= j < |ps| && ps[j].Key() == key {
        assert j < |front| ==> front[j].Key() == key;
      }
      if j :| 0 <= j < |front| && front[j].Key() == key {
        assert ps[j].Key() == key;
      }
    }
  }

  /** Everything a row refers to is there: its shared values, and for a change a process of its
      key in the frame before, with as many threads as changes to them. */
  ghost predicate RowStands(row: Row, prev: Option<Snapshot>, r: Readers) {
    && r.statics.Get(row.statics).Ok? && r.processServices.Get(row.services).Ok?
    && (row.window.Some? ==> r.windows.Get(row.window.value).Ok?)
    && (row.Changes? ==> exists j: nat :: WasAt(prev, r.statics.Get(row.statics).value.value.key, j) && AsMany(row, prev.value, j))
  }

  ghost predicate AsMany(row: Row, prev: Snapshot, j: nat)
    requires j < |prev.processes| && row.Changes?
  {
    row.rows.SameRows? ==> |row.rows.deltas| == |ThreadRows(prev, prev.processes[j])|
  }

  lemma RowMust(row: Row, added: Added, prev: Option<Snapshot>, r: Readers)
    requires DecodeRow(row, added, prev, r).Ok?
    ensures RowStands(row, prev, r)
  {
    hide ThreadRows, ByKey;
    if row.Changes? {
      var key := r.statics.Get(row.statics).value.value.key;
      assert WasAt(prev, key, BaseIndex(prev, key).value);
    }
  }

  lemma {:induction false} RowsMust(
    body: Body, extra: Option<Extra>, gpu: Option<GpuExtra>, prev: Option<Snapshot>, r: Readers, n: nat, k: nat)
    requires CountsAgree(body, extra, gpu) && k < n <= |body.processes| && DecodeRows(body, extra, gpu, prev, r, n).Ok?
    ensures RowStands(body.processes[k], prev, r)
  {
    hide RowStands, DecodeRow;
    if k < n - 1 {
      RowsMust(body, extra, gpu, prev, r, n - 1, k);
    } else {
      RowMust(body.processes[k], AddedAt(extra, gpu, k), prev, r);
    }
  }

  /** A frame that decodes has nothing made up in it: its columns are as long as its rows, and
      every row stands on something that was read. */
  lemma NothingMadeUp(
    body: Body, extra: Option<Extra>, gpu: Option<GpuExtra>, prev: Option<Snapshot>, r: Readers, hardware: Hardware)
    requires Decoded(body, extra, gpu, prev, r, hardware).Ok?
    ensures extra.Some? ==> |extra.value.privateWorkingSet| == |body.processes|
    ensures gpu.Some? ==> |gpu.value.share| == |gpu.value.dedicated| == |gpu.value.shared| == |body.processes|
    ensures |body.disks| == |body.diskInfos| && |body.adapters| == |body.adapterInfos| && |body.gpus| == |body.gpuInfos|
    ensures forall k :: 0 <= k < |body.processes| ==> RowStands(body.processes[k], prev, r)
  {
    hide RowStands, DecodeRows, AttachFirst;
    forall k | 0 <= k < |body.processes|
      ensures RowStands(body.processes[k], prev, r)
    {
      RowsMust(body, extra, gpu, prev, r, |body.processes|, k);
    }
  }

  // Refusals

  /** Some error other than that the file is no recording, or one of another version. */
  predicate Inside<T>(r: Result<T>) {
    r.Err? ==> r.error.Corrupt? || r.error.Encoding?
  }

  lemma RecordErrors(file: seq<u8>, offset: nat, limit: nat)
    requires limit <= |file|
    ensures Inside(ReadRecord(file, offset, limit))
  {
  }

  lemma IndexErrors(c: Codec, file: seq<u8>, start: nat)
    ensures Inside(ReadIndex(c, file, start))
  {
    hide Plausible, FromLe;
  }

  lemma LoadErrors(c: Codec, r: Readers, kind: Kind, payload: seq<u8>)
    ensures Inside(LoadedRecord(c, r, kind, payload))
  {
    hide Stored, FromLe;
  }

  lemma {:induction false} ScanErrors(c: Codec, file: seq<u8>, pos: nat, so: Scanned)
    ensures Inside(ScanFrom(c, file, pos, so))
    decreases |file| - pos
  {
    hide LoadedRecord, ParseFramePrefix;
    var header := ReadRecordHeader(file, pos);
    if header.Some? {
      var start := pos + RECORD_HEADER_LEN;
      var end := start + header.value.1;
      var kind := KindFromByte(header.value.0);
      if header.value.1 <= MAX_PAYLOAD && end <= |file| && kind.Some? {
        if kind.value.IsFrame() {
          if header.value.1 >= FRAME_PREFIX_LEN {
            var prefix := ParseFramePrefix(file[start..start + FRAME_PREFIX_LEN]);
            if prefix.Some? {
              var entry := FrameEntry(pos, kind.value == KeyFrame, prefix.value.0, prefix.value.1);
              ScanErrors(c, file, end, so.(frames := so.frames + [entry]));
            }
          }
        } else if kind.value.IsTable() {
          LoadErrors(c, so.readers, kind.value, file[start..end]);
          var readers := LoadedRecord(c, so.readers, kind.value, file[start..end]);
          if readers.Ok? {
            ScanErrors(c, file, end, so.(readers := readers.value));
          }
        }
      }
    }
  }

  /** Which files are refused before anything of them is looked at: those without the mark,
      and those with it whose version, two bytes with the low one first, is none of 1 to 5. */
  lemma Refused(c: Codec, file: seq<u8>)
    ensures var marked := |file| >= 7 && file[..5] == [79, 84, 82, 69, 67];
      && (Open(c, file) == Err(NotARecording) <==> !marked)
      && forall v: nat :: Open(c, file) == Err(UnsupportedVersion(v)) <==>
           marked && v == file[5] as nat + 256 * file[6] as nat && !(1 <= v <= 5)
  {
    hide ReadRecord, ReadIndex, ScanFrom, LoadTables, Parse, Trimmed;
    if |file| >= 7 {
      assert file[5..7] == [file[5], file[6]];
      TwoBytes(file[5], file[6]);
      RecordErrors(file, PREAMBLE_LEN, |file|);
      var start := ReadStart(c, file);
      if start.Ok? {
        IndexErrors(c, file, start.value.2);
        ScanErrors(c, file, start.value.2, Scanned([], EmptyReaders(start.value.1)));
      } else {
        StartErrors(c, file);
      }
    }
  }

  lemma TwoBytes(a: u8, b: u8)
    ensures FromLe([a, b]) == a as nat + 256 * b as nat
  {
    assert [a, b][1..] == [b] && [b][1..] == [];
    assert FromLe([b]) == b as nat + 256 * FromLe([]);
  }

  lemma StartErrors(c: Codec, file: seq<u8>)
    requires |file| >= 7 && ReadStart(c, file).Err?
    ensures var v := FromLe(file[5..7]);
      if file[..5] != MAGIC then ReadStart(c, file) == Err(NotARecording)
      else if !(OLDEST_VERSION <= v <= FORMAT_VERSION) then ReadStart(c, file) == Err(UnsupportedVersion(v))
      else Inside(ReadStart(c, file))
  {
    hide ReadRecord;
    RecordErrors(file, PREAMBLE_LEN, |file|);
  }
}
