/** Whole runs: any sequence of snapshots, any keyframe interval, any format version,
    whatever the sweeps found and wherever the file was cut. */
module RecordingRuns {
  import opened Basics
  import opened Model
  import opened Table
  import opened Frame
  import opened FrameProofs
  import opened Format
  import opened Recorder
  import opened Recording
  import opened RecordingProofs
  import opened RecordingTables

  /** A snapshot handed to the recorder: what every live address held then, and where
      somebody besides the tables held a pointer afterwards. */
  datatype Event = Event(snap: Snapshot, memory: Memory, held: set<nat>)

  function StateAfter(cfg: Config, events: seq<Event>): State {
    if events == [] then CREATED
    else
      var e := events[|events| - 1];
      Wrote(cfg, StateAfter(cfg, events[..|events| - 1]), e.snap, e.held)
  }

  /** Every value numbered so far, by table, in order of their ids. */
  function LogsAfter(cfg: Config, events: seq<Event>): Logs {
    if events == [] then NO_LOGS
    else
      var before := events[..|events| - 1];
      AllKnown(NextFrame(cfg, StateAfter(cfg, before), events[|events| - 1].snap).tables, LogsAfter(cfg, before))
  }

  /** What the reader can take: nothing larger than it allocates for, before
      compression or after. The recorder does not check this. */
  predicate FrameFits(cfg: Config, st: State, snap: Snapshot) {
    var f := NextFrame(cfg, st, snap);
    && AllFit(cfg.codec, TablePayloads(cfg.version, f.tables))
    && |cfg.codec.ser(FramePayload(cfg.version, f))| <= MAX_PAYLOAD
    && |NewFrame(cfg, st, snap).payload| <= MAX_PAYLOAD
  }

  /** What one snapshot may be: its pointers live, as are those the tables hold, and
      its numbers within what the format carries. */
  ghost predicate Possible(cfg: Config, st: State, e: Event) {
    && AllLive(st.tables, e.memory) && SnapshotPoints(e.snap, e.memory)
    && CpuTimesFit(e.snap) && Countable(e.snap)
    && FrameFits(cfg, st, e.snap)
  }

  ghost predicate PossibleRun(cfg: Config, events: seq<Event>) {
    forall i :: 0 <= i < |events| ==> Possible(cfg, StateAfter(cfg, events[..i]), events[i])
  }

  ghost predicate Proper(cfg: Config) {
    && Faithful(cfg.codec)
    && OLDEST_VERSION <= cfg.version <= FORMAT_VERSION
    && |cfg.HeaderRecord().payload| <= MAX_PAYLOAD
  }

  // One step

  lemma SweptSound(t: Tables, w: Logs, held: set<nat>)
    requires AllSound(t, w)
    ensures AllSound(SweptTables(t, held), w)
  {
    hide Sound, Swept;
    SweepSound(t.statics, w.statics, held);
    SweepSound(t.windows, w.windows, held);
    SweepSound(t.processServices, w.processServices, held);
    SweepSound(t.disks, w.disks, held);
    SweepSound(t.adapters, w.adapters, held);
    SweepSound(t.gpus, w.gpus, held);
    SweepSound(t.services, w.services, held);
  }

  lemma FlushedSound(t: Tables, w: Logs, m: Memory)
    requires AllSound(t, w) && AllLive(t, m)
    ensures AllSound(FlushedTables(t), AllKnown(t, w))
  {
    hide Sound, Live, Known, PendingTaken;
    FlushSound(t.statics, w.statics, m.statics);
    FlushSound(t.windows, w.windows, m.windows);
    FlushSound(t.processServices, w.processServices, m.processServices);
    FlushSound(t.disks, w.disks, m.disks);
    FlushSound(t.adapters, w.adapters, m.adapters);
    FlushSound(t.gpus, w.gpus, m.gpus);
    FlushSound(t.services, w.services, m.services);
  }

  lemma KnownGrown(t: Tables, w: Logs)
    ensures Grown(w, AllKnown(t, w))
  {
  }

  /** Writing a frame keeps the tables sound, and every id in the frame stands for
      its value. */
  lemma WroteSound(cfg: Config, st: State, w: Logs, e: Event)
    requires AllSound(st.tables, w) && AllLive(st.tables, e.memory) && SnapshotPoints(e.snap, e.memory)
    ensures var f := NextFrame(cfg, st, e.snap);
      && AllSound(f.tables, w)
      && FrameRefers(f, e.snap, AllKnown(f.tables, w))
      && Grown(w, AllKnown(f.tables, w))
      && AllSound(Wrote(cfg, st, e.snap, e.held).tables, AllKnown(f.tables, w))
  {
    hide AllSound, AllLive, SnapshotPoints, FrameRefers, Encoded, AllKnown, SweptTables, FlushedTables, NewTables, NewFrame,
      Grown, Bytes, Offsets, UnixMs;
    var prev := if IsKey(cfg, st) then None else st.prev;
    EncodedSound(e.snap, prev, st.tables, w, e.memory);
    var f := NextFrame(cfg, st, e.snap);
    KnownGrown(f.tables, w);
    FlushedSound(f.tables, w, e.memory);
    SweptSound(FlushedTables(f.tables), AllKnown(f.tables, w), e.held);
  }

  // Runs

  lemma {:induction false} RunSound(cfg: Config, events: seq<Event>)
    requires PossibleRun(cfg, events)
    ensures AllSound(StateAfter(cfg, events).tables, LogsAfter(cfg, events))
  {
    if events == [] {
      NothingSound();
    } else {
      hide AllSound, Wrote, NextFrame, AllKnown, Possible;
      var n := |events| - 1;
      var before, e := events[..n], events[n];
      PossibleBefore(cfg, events, n);
      RunSound(cfg, before);
      PossibleNow(cfg, StateAfter(cfg, before), e);
      WroteSound(cfg, StateAfter(cfg, before), LogsAfter(cfg, before), e);
    }
  }

  lemma NothingSound()
    ensures AllSound(CREATED.tables, NO_LOGS)
  {
  }

  lemma PossibleBefore(cfg: Config, events: seq<Event>, n: nat)
    requires PossibleRun(cfg, events) && n <= |events|
    ensures PossibleRun(cfg, events[..n])
    ensures n < |events| ==> Possible(cfg, StateAfter(cfg, events[..n]), events[n])
  {
    hide Possible, StateAfter;
    forall i | 0 <= i < n
      ensures Possible(cfg, StateAfter(cfg, events[..n][..i]), events[..n][i])
    {
      assert events[..n][..i] == events[..i];
    }
  }

  lemma PossibleNow(cfg: Config, st: State, e: Event)
    requires Possible(cfg, st, e)
    ensures AllLive(st.tables, e.memory) && SnapshotPoints(e.snap, e.memory)
    ensures CpuTimesFit(e.snap) && Countable(e.snap)
    ensures AllFit(cfg.codec, TablePayloads(cfg.version, NextFrame(cfg, st, e.snap).tables))
    ensures |cfg.codec.ser(FramePayload(cfg.version, NextFrame(cfg, st, e.snap)))| <= MAX_PAYLOAD
    ensures |NewFrame(cfg, st, e.snap).payload| <= MAX_PAYLOAD
  {
    hide AllLive, SnapshotPoints, NextFrame, NewFrame, TablePayloads, FramePayload, AllFit, CpuTimesFit, Countable;
  }

  lemma WroteGrows(cfg: Config, st: State, e: Event)
    ensures st.records <= Wrote(cfg, st, e.snap, e.held).records
    ensures st.index.frames <= Wrote(cfg, st, e.snap, e.held).index.frames
  {
    hide NextFrame, NewTables, NewFrame, SweptTables, FlushedTables, Offsets, Bytes, UnixMs, Config.Start, IsKey;
  }

  /** A longer run's file starts with a shorter one's, its index lists the same first
      frames, and ids go on meaning what they meant. */
  lemma {:induction false} RunGrows(cfg: Config, events: seq<Event>, n: nat)
    requires n <= |events|
    ensures StateAfter(cfg, events[..n]).records <= StateAfter(cfg, events).records
    ensures StateAfter(cfg, events[..n]).index.frames <= StateAfter(cfg, events).index.frames
    ensures Grown(LogsAfter(cfg, events[..n]), LogsAfter(cfg, events))
  {
    hide AllKnown, NextFrame, Wrote, Grown;
    if n == |events| {
      assert events[..n] == events;
      GrownSame(LogsAfter(cfg, events));
    } else {
      var m := |events| - 1;
      var before, e := events[..m], events[m];
      assert before[..n] == events[..n];
      RunGrows(cfg, before, n);
      WroteGrows(cfg, StateAfter(cfg, before), e);
      KnownGrown(NextFrame(cfg, StateAfter(cfg, before), e.snap).tables, LogsAfter(cfg, before));
      GrownTransitive(LogsAfter(cfg, events[..n]), LogsAfter(cfg, before), LogsAfter(cfg, events));
    }
  }

  lemma GrownSame(w: Logs)
    ensures Grown(w, w)
  {
  }

  lemma {:induction false} RunCounts(cfg: Config, events: seq<Event>)
    ensures var st := StateAfter(cfg, events);
      && |st.index.frames| == |events| == st.frames
      && (events != [] ==> st.prev == Some(events[|events| - 1].snap))
      && (events == [] ==> st.prev == None)
  {
    hide NextFrame, NewTables, NewFrame, SweptTables, FlushedTables, Offsets, Bytes, UnixMs;
    if events != [] {
      RunCounts(cfg, events[..|events| - 1]);
    }
  }

  // The index lists what is in the file

  lemma FrameEntryIs(cfg: Config, pos: nat, snap: Snapshot, key: bool, f: EncodedFrame)
    ensures var r := FrameRecord(cfg, snap, key, f);
      && |r.payload| >= FRAME_PREFIX_LEN && r.kind.IsFrame()
      && EntryOf(pos, r) == FrameEntry(pos, key, snap.tick, UnixMs(snap.takenAt))
      && r.payload[FRAME_PREFIX_LEN..] == Compress(cfg.codec, cfg.codec.ser(FramePayload(cfg.version, f)))
  {
    var packed := Compress(cfg.codec, cfg.codec.ser(FramePayload(cfg.version, f)));
    PrefixRoundTrip(snap.tick, UnixMs(snap.takenAt), packed);
  }

  lemma TableIndexed(base: nat, records: seq<Record>, table: Record)
    requires table.kind.IsTable()
    ensures Frames(base, records + [table]) == Frames(base, records)
    ensures TableOffsets(base, records + [table]) == TableOffsets(base, records) + [base + |Bytes(records)|]
  {
    hide RecordBytes, EntryOf;
    assert (records + [table])[..|records|] == records;
  }

  lemma NoTablesIndexed(base: nat, records: seq<Record>)
    ensures Offsets(base, []) == [] && records + [] == records
  {
  }

  /** Records that are all tables add their offsets to the index and no frames. */
  lemma {:induction false} TablesIndexed(base: nat, records: seq<Record>, tables: seq<Record>)
    requires forall i :: 0 <= i < |tables| ==> tables[i].kind.IsTable()
    ensures Frames(base, records + tables) == Frames(base, records)
    ensures TableOffsets(base, records + tables) == TableOffsets(base, records) + Offsets(base + |Bytes(records)|, tables)
  {
    hide *;
    if tables == [] {
      NoTablesIndexed(base + |Bytes(records)|, records);
    } else {
      var most, last := tables[..|tables| - 1], tables[|tables| - 1];
      TablesIndexed(base, records, most);
      TableIndexed(base, records + most, last);
      BytesAppend(records, most);
      OffsetsSnoc(base + |Bytes(records)|, most, last);
      assert tables == most + [last];
      assert records + tables == records + most + [last];
    }
  }

  lemma FrameIndexed(base: nat, records: seq<Record>, frame: Record)
    requires frame.kind.IsFrame()
    ensures Frames(base, records + [frame]) == Frames(base, records) + [EntryOf(base + |Bytes(records)|, frame)]
    ensures TableOffsets(base, records + [frame]) == TableOffsets(base, records)
  {
    hide RecordBytes, EntryOf;
    assert (records + [frame])[..|records|] == records;
  }

  lemma NewTablesAreTables(cfg: Config, st: State, snap: Snapshot)
    ensures forall i :: 0 <= i < |NewTables(cfg, st, snap)| ==> NewTables(cfg, st, snap)[i].kind.IsTable()
  {
    hide NextFrame, FirstPayloads, Compress;
    TablesAreTables(cfg.version, NextFrame(cfg, st, snap).tables, 7);
  }

  /** The index names every frame and every table of the file, and nothing else. */
  lemma {:induction false} IndexIsRight(cfg: Config, events: seq<Event>)
    ensures var st := StateAfter(cfg, events);
      && st.index.frames == Frames(|cfg.Start()|, st.records)
      && st.index.tables == TableOffsets(|cfg.Start()|, st.records)
  {
    if events == [] {
      assert StateAfter(cfg, events) == CREATED;
    }
    hide *;
    if events != [] {
      var n := |events| - 1;
      var before, e := events[..n], events[n];
      IndexIsRight(cfg, before);
      StateOne(cfg, events);
      WroteIndex(cfg, StateAfter(cfg, before), e);
    }
  }

  lemma StateOne(cfg: Config, events: seq<Event>)
    requires events != []
    ensures StateAfter(cfg, events)
      == Wrote(cfg, StateAfter(cfg, events[..|events| - 1]), events[|events| - 1].snap, events[|events| - 1].held)
  {
    hide Wrote;
  }

  lemma WroteIndex(cfg: Config, st: State, e: Event)
    requires st.index.frames == Frames(|cfg.Start()|, st.records)
    requires st.index.tables == TableOffsets(|cfg.Start()|, st.records)
    ensures var after := Wrote(cfg, st, e.snap, e.held);
      && after.index.frames == Frames(|cfg.Start()|, after.records)
      && after.index.tables == TableOffsets(|cfg.Start()|, after.records)
  {
    hide NextFrame, NewTables, SweptTables, FlushedTables, Offsets, Bytes, UnixMs, EntryOf, FrameRecord, Config.Start, Frames, TableOffsets;
    var base := |cfg.Start()|;
    var tables, frame := NewTables(cfg, st, e.snap), NewFrame(cfg, st, e.snap);
    NewTablesAreTables(cfg, st, e.snap);
    TablesIndexed(base, st.records, tables);
    FrameEntryIs(cfg, base + |Bytes(st.records + tables)|, e.snap, IsKey(cfg, st), NextFrame(cfg, st, e.snap));
    FrameIndexed(base, st.records + tables, frame);
  }

  // Loading and walking what a run wrote

  lemma {:induction false} ShelvesAppend(c: Codec, r: Readers, a: seq<Record>, b: seq<Record>)
    requires Shelves(c, r, a).Ok?
    ensures Shelves(c, r, a + b) == Shelves(c, Shelves(c, r, a).value, b)
  {
    hide LoadedRecord;
    if b == [] {
      assert a + b == a;
    } else {
      var most := b[..|b| - 1];
      ShelvesAppend(c, r, a, most);
      assert (a + b)[..|a + b| - 1] == a + most;
    }
  }

  lemma ShelvesFrame(c: Codec, r: Readers, records: seq<Record>, frame: Record)
    requires frame.kind.IsFrame()
    ensures Shelves(c, r, records + [frame]) == Shelves(c, r, records)
  {
    hide LoadedRecord;
    assert (records + [frame])[..|records|] == records;
  }

  /** The records of a run load as just the values it numbered. */
  lemma {:induction false} RunLoads(cfg: Config, events: seq<Event>)
    requires Proper(cfg) && PossibleRun(cfg, events)
    ensures var s := Shelves(cfg.codec, EmptyReaders(cfg.version), StateAfter(cfg, events).records);
      s.Ok? && HoldsAll(s.value, LogsAfter(cfg, events)) && s.value.version == cfg.version
    ensures AllReadable(StateAfter(cfg, events).records)
  {
    if events == [] {
      EmptyHolds(cfg.version);
    } else {
      hide HoldsAll, Wrote, Shelves, AllReadable, LogsAfter, PossibleRun, Proper;
      var n := |events| - 1;
      var before := events[..n];
      PossibleBefore(cfg, events, n);
      RunLoads(cfg, before);
      RunSound(cfg, before);
      EventLoads(cfg, events);
    }
  }

  lemma EventLoads(cfg: Config, events: seq<Event>)
    requires Proper(cfg) && PossibleRun(cfg, events) && events != []
    requires var before := events[..|events| - 1];
      && (var s := Shelves(cfg.codec, EmptyReaders(cfg.version), StateAfter(cfg, before).records);
          s.Ok? && HoldsAll(s.value, LogsAfter(cfg, before)) && s.value.version == cfg.version)
      && AllReadable(StateAfter(cfg, before).records)
      && AllSound(StateAfter(cfg, before).tables, LogsAfter(cfg, before))
    ensures var s := Shelves(cfg.codec, EmptyReaders(cfg.version), StateAfter(cfg, events).records);
      s.Ok? && HoldsAll(s.value, LogsAfter(cfg, events)) && s.value.version == cfg.version
    ensures AllReadable(StateAfter(cfg, events).records)
  {
    var n := |events| - 1;
    var before, e := events[..n], events[n];
    PossibleBefore(cfg, events, n);
    assert StateAfter(cfg, events) == Wrote(cfg, StateAfter(cfg, before), e.snap, e.held);
    hide StateAfter, HoldsAll, AllSound, Shelves, PossibleRun, AllKnown, Wrote, NextFrame, Possible, AllReadable, Proper;
    StepLoads(cfg, StateAfter(cfg, before), LogsAfter(cfg, before), e);
  }

  /** One snapshot's records after those before it. */
  lemma StepLoads(cfg: Config, st: State, w: Logs, e: Event)
    requires Proper(cfg) && Possible(cfg, st, e) && AllSound(st.tables, w) && AllReadable(st.records)
    requires var s := Shelves(cfg.codec, EmptyReaders(cfg.version), st.records);
      s.Ok? && HoldsAll(s.value, w) && s.value.version == cfg.version
    ensures var after := Wrote(cfg, st, e.snap, e.held);
      var s := Shelves(cfg.codec, EmptyReaders(cfg.version), after.records);
      && s.Ok? && HoldsAll(s.value, AllKnown(NextFrame(cfg, st, e.snap).tables, w)) && s.value.version == cfg.version
      && AllReadable(after.records)
  {
    hide *;
    var r := Shelves(cfg.codec, EmptyReaders(cfg.version), st.records).value;
    var f := NextFrame(cfg, st, e.snap);
    var tables, frame := NewTables(cfg, st, e.snap), NewFrame(cfg, st, e.snap);
    PossibleNow(cfg, st, e);
    WroteParts(cfg, st, e);
    ProperCodec(cfg);
    FrameEntryIs(cfg, 0, e.snap, IsKey(cfg, st), f);
    TablesAreTables(cfg.version, f.tables, 7);
    WroteSound(cfg, st, w, e);
    assert tables[..|tables|] == tables;
    SomeFit(cfg.codec, TablePayloads(cfg.version, f.tables), |tables|);
    SomeTablesLoad(cfg.codec, r, f.tables, w, |tables|);
    TablesReadable(cfg.codec, FirstPayloads(cfg.version, f.tables, 7));
    ShelvesAppend(cfg.codec, EmptyReaders(cfg.version), st.records, tables);
    ShelvesFrame(cfg.codec, EmptyReaders(cfg.version), st.records + tables, frame);
    FrameReadable(st.records, tables, frame);
  }

  lemma WroteParts(cfg: Config, st: State, e: Event)
    ensures var f, tables, frame := NextFrame(cfg, st, e.snap), NewTables(cfg, st, e.snap), NewFrame(cfg, st, e.snap);
      && TablePayloads(cfg.version, f.tables) == FirstPayloads(cfg.version, f.tables, 7)
      && tables == TableRecords(cfg.codec, TablePayloads(cfg.version, f.tables))
      && frame == FrameRecord(cfg, e.snap, IsKey(cfg, st), f)
      && Wrote(cfg, st, e.snap, e.held).records == st.records + tables + [frame]
  {
    hide Encoded, TableRecords, FrameRecord, FirstPayloads, SweptTables, FlushedTables, Offsets, Bytes, UnixMs, Config.Start, IsKey;
  }

  lemma ProperCodec(cfg: Config)
    requires Proper(cfg)
    ensures Faithful(cfg.codec) && 1 <= cfg.version <= 5
  {
  }

  lemma FrameReadable(a: seq<Record>, tables: seq<Record>, frame: Record)
    requires AllReadable(a) && AllReadable(tables)
    requires frame.kind.IsFrame() && FRAME_PREFIX_LEN <= |frame.payload| <= MAX_PAYLOAD
    ensures AllReadable(a + tables + [frame])
  {
  }
}
