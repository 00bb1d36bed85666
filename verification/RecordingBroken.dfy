/** Writing a whole run to a file, and what a reader gets from it when the writing stopped
    part of the way because a record was too long. */
module RecordingBroken {
  import opened Basics
  import opened Model
  import opened Frame
  import opened FrameProofs
  import opened Format
  import opened Recorder
  import opened Recording
  import opened RecordingProofs
  import opened RecordingTables
  import opened RecordingRuns
  import opened RecordingTheorems

  /** A snapshot all of whose records fit their length fields. */
  predicate Writes(cfg: Config, st: State, snap: Snapshot) {
    Writable(NewTables(cfg, st, snap)) && Writable([NewFrame(cfg, st, snap)])
  }

  /** The snapshots of a run that get written: all, or those before the first that does
      not fit. */
  predicate WritesFirst(cfg: Config, events: seq<Event>, n: nat)
    requires n <= |events|
  {
    && (forall i :: 0 <= i < n ==> Writes(cfg, StateAfter(cfg, events[..i]), events[i].snap))
    && (n < |events| ==> !Writes(cfg, StateAfter(cfg, events[..n]), events[n].snap))
  }

  /** What has been recorded when `n` snapshots of a run were written and then the file was
      finished. */
  function Ending(cfg: Config, events: seq<Event>, n: nat): State
    requires n <= |events|
  {
    if n == |events| then StateAfter(cfg, events) else Broken(cfg, StateAfter(cfg, events[..n]), events[n].snap)
  }

  /** Create a file, write the snapshots until one fails, finish the file. The error is the
      first one met. */
  method RecordAll(cfg: Config, events: seq<Event>) returns (out: seq<u8>, n: nat, r: Result<()>)
    ensures n <= |events| && WritesFirst(cfg, events, n)
    ensures var st := Ending(cfg, events, n);
      && (r.Ok? <==> n == |events| && |IndexRecord(cfg, st).payload| < TWO_32)
      && out == if |IndexRecord(cfg, st).payload| < TWO_32 then FinishedFile(cfg, st) else File(cfg, st)
  {
    hide *;
    var rec := new Recorder(cfg);
    n := 0;
    NothingYet(cfg, events);
    while n < |events|
      invariant n <= |events| && rec.Valid() && !rec.finished && fresh(rec) && fresh(rec.tables.Repr())
      invariant rec.cfg == cfg && rec.Abstract() == StateAfter(cfg, events[..n])
      invariant forall i :: 0 <= i < n ==> Writes(cfg, StateAfter(cfg, events[..i]), events[i].snap)
    {
      r := rec.WriteShared(events[n].snap, events[n].held);
      AppendsIs(cfg, StateAfter(cfg, events[..n]), events[n].snap, events[n].held, r, rec.Abstract());
      AfterOne(cfg, events, n);
      if r.Err? {
        StopsAt(cfg, events, n);
        var unheard;
        out, unheard := Close(rec);
        return;
      }
      n := n + 1;
    }
    StopsAt(cfg, events, n);
    out, r := Close(rec);
  }

  method Close(rec: Recorder) returns (out: seq<u8>, r: Result<()>)
    requires rec.Valid() && !rec.finished
    modifies rec
    ensures var cfg, st := rec.cfg, old(rec.Abstract());
      && (r.Ok? <==> |IndexRecord(cfg, st).payload| < TWO_32)
      && out == if r.Ok? then FinishedFile(cfg, st) else File(cfg, st)
  {
    hide FinishedFile, IndexRecord, Bytes, Config.Start, Writable;
    r := rec.Finish();
    out := rec.out;
  }

  lemma NothingYet(cfg: Config, events: seq<Event>)
    ensures StateAfter(cfg, events[..0]) == CREATED
  {
  }

  lemma StopsAt(cfg: Config, events: seq<Event>, n: nat)
    requires n <= |events|
    requires forall i :: 0 <= i < n ==> Writes(cfg, StateAfter(cfg, events[..i]), events[i].snap)
    requires n < |events| ==> !Writes(cfg, StateAfter(cfg, events[..n]), events[n].snap)
    ensures WritesFirst(cfg, events, n)
    ensures n < |events| ==> Ending(cfg, events, n) == Broken(cfg, StateAfter(cfg, events[..n]), events[n].snap)
    ensures n == |events| ==> Ending(cfg, events, n) == StateAfter(cfg, events[..n])
  {
    hide Writes, StateAfter, Broken;
    assert events[..|events|] == events;
  }

  lemma AppendsIs(cfg: Config, before: State, snap: Snapshot, held: set<nat>, r: Result<()>, after: State)
    requires Appends(cfg, before, snap, held, r, after)
    ensures Writes(cfg, before, snap) ==> r == Ok(()) && after == Wrote(cfg, before, snap, held)
    ensures !Writes(cfg, before, snap) ==> r == Err(Io) && after == Broken(cfg, before, snap)
  {
  }

  // Reading such a file

  /** The parts of a broken state; when a table was too long, the index names an offset at
      which there is no table. */
  lemma BrokenParts(cfg: Config, st: State, snap: Snapshot)
    ensures
      var b, tables := Broken(cfg, st, snap), NewTables(cfg, st, snap);
      var n, base := Fitting(tables), |cfg.Start()|;
      && b.records == st.records + tables[..n] && b.index.frames == st.index.frames
      && (n < |tables| ==> base + |Bytes(b.records)| in b.index.tables)
      && (n == |tables| ==> b.index.tables == st.index.tables + Offsets(base + |Bytes(st.records)|, tables[..n]))
  {
    hide NewTables, NextFrame, FlushedTables, Bytes, Config.Start;
    var b, tables := Broken(cfg, st, snap), NewTables(cfg, st, snap);
    var n, pos := Fitting(tables), |cfg.Start()| + |Bytes(st.records)|;
    BytesAppend(st.records, tables[..n]);
    if n < |tables| {
      assert tables[..n + 1][..n] == tables[..n];
      assert Offsets(pos, tables[..n + 1])[n] == pos + |Bytes(tables[..n])|;
      assert b.index.tables[|st.index.tables| + n] == pos + |Bytes(tables[..n])|;
    }
  }

  /** What the reader can take of such a state: no table that was written, and no index,
      larger than it allocates for. */
  predicate BrokenFits(cfg: Config, st: State, snap: Snapshot) {
    && !Writes(cfg, st, snap)
    && AllFit(cfg.codec, TablePayloads(cfg.version, NextFrame(cfg, st, snap).tables)[..Fitting(NewTables(cfg, st, snap))])
    && |IndexRecord(cfg, Broken(cfg, st, snap)).payload| <= MAX_PAYLOAD
  }

  lemma BrokenFitsParts(cfg: Config, st: State, snap: Snapshot)
    requires BrokenFits(cfg, st, snap)
    ensures var n, ps := Fitting(NewTables(cfg, st, snap)), TablePayloads(cfg.version, NextFrame(cfg, st, snap).tables);
      && n <= |ps| && AllFit(cfg.codec, ps[..n])
      && NewTables(cfg, st, snap)[..n] == TableRecords(cfg.codec, ps[..n]) == TableRecords(cfg.codec, ps)[..n]
      && NewTables(cfg, st, snap) == TableRecords(cfg.codec, ps)
    ensures |IndexRecord(cfg, Broken(cfg, st, snap)).payload| <= MAX_PAYLOAD
  {
    hide Broken, IndexRecord, NextFrame, TableRecord, Fits;
  }

  lemma BrokenLoads(cfg: Config, events: seq<Event>, e: Event) returns (readers: Readers)
    requires Proper(cfg) && PossibleRun(cfg, events)
    requires var st := StateAfter(cfg, events);
      && AllLive(st.tables, e.memory) && SnapshotPoints(e.snap, e.memory)
      && BrokenFits(cfg, st, e.snap)
    ensures var b := Broken(cfg, StateAfter(cfg, events), e.snap);
      && Shelves(cfg.codec, EmptyReaders(cfg.version), b.records) == Ok(readers) && AllReadable(b.records)
    ensures Covers(readers, LogsAfter(cfg, events)) && readers.version == cfg.version
  {
    hide *;
    var st := StateAfter(cfg, events);
    var ps := TablePayloads(cfg.version, NextFrame(cfg, st, e.snap).tables);
    var tables := NewTables(cfg, st, e.snap);
    var n := Fitting(tables);
    BrokenParts(cfg, st, e.snap);
    BrokenFitsParts(cfg, st, e.snap);
    ProperCodec(cfg);
    RunLoads(cfg, events);
    RunSound(cfg, events);
    WroteSound(cfg, st, LogsAfter(cfg, events), e);
    var r := Shelves(cfg.codec, EmptyReaders(cfg.version), st.records).value;
    SomeTablesLoad(cfg.codec, r, NextFrame(cfg, st, e.snap).tables, LogsAfter(cfg, events), n);
    ShelvesAppend(cfg.codec, EmptyReaders(cfg.version), st.records, tables[..n]);
    SomeTables(cfg.version, NextFrame(cfg, st, e.snap).tables, n);
    TablesReadable(cfg.codec, ps[..n]);
    BothReadable(st.records, tables[..n]);
    readers := Shelves(cfg.codec, EmptyReaders(cfg.version), st.records + tables[..n]).value;
  }

  lemma SomeTables(version: nat, t: Tables, n: nat)
    requires n <= |TablePayloads(version, t)|
    ensures AllTables(TablePayloads(version, t)[..n])
  {
    TablesAreTables(version, t, 7);
  }

  lemma BothReadable(a: seq<Record>, b: seq<Record>)
    requires AllReadable(a) && AllReadable(b)
    ensures AllReadable(a + b)
  {
    hide Readable;
  }

  lemma PlausibleHere(index: Index, base: nat, records: seq<Record>)
    requires index.frames == Frames(base, records) && index.tables == TableOffsets(base, records)
    requires index.frames != [] ==> index.frames[0].key
    ensures Plausible(index, base, base + |Bytes(records)|)
  {
    hide Frames, TableOffsets, Bytes;
    FramesWithin(base, records);
    TablesWithin(base, records);
  }

  /** An index that names where it is itself is not taken for one. */
  lemma NotPlausible(index: Index, base: nat, at: nat)
    requires at in index.tables
    ensures !Plausible(index, base, at)
  {
  }

  lemma TrailerRefused(c: Codec, file: seq<u8>, start: nat, at: nat, r: Record, index: Index)
    requires |r.payload| <= MAX_PAYLOAD && r.kind == IndexKind && start <= at
    requires |file| == at + r.Size() + TRAILER_LEN && At(file, at, RecordBytes(r))
    requires At(file, at + r.Size(), Le(|r.payload|, 4) + INDEX_MAGIC)
    requires Parse(c, IndexShape, r.payload) == Ok(IndexOf(index)) && !Plausible(index, start, at)
    ensures ReadIndex(c, file, start) == Ok(None)
  {
    hide RecordBytes, ReadRecord, Plausible, Le, FromLe, Parse;
    ReadWithin(file, at, r);
    var trailer := file[|file| - TRAILER_LEN..];
    assert trailer == Le(|r.payload|, 4) + INDEX_MAGIC;
    assert trailer[..4] == Le(|r.payload|, 4) && trailer[4..] == INDEX_MAGIC;
    Pow256Values();
    LeRoundTrip(|r.payload|, 4);
  }

  lemma FirstOfRun(cfg: Config, events: seq<Event>)
    ensures var frames := StateAfter(cfg, events).index.frames;
      frames != [] ==> frames[0].key
  {
    hide *;
    RunCounts(cfg, events);
    if events != [] {
      FirstIsKey(cfg, events);
    }
  }

  /** Whatever the writing stopped at: the finished file opens, and every frame written
      before comes back. */
  lemma BrokenOpens(cfg: Config, events: seq<Event>, e: Event) returns (o: Opened)
    requires Proper(cfg) && PossibleRun(cfg, events)
    requires var st := StateAfter(cfg, events);
      && AllLive(st.tables, e.memory) && SnapshotPoints(e.snap, e.memory)
      && BrokenFits(cfg, st, e.snap)
    ensures Open(cfg.codec, FinishedFile(cfg, Broken(cfg, StateAfter(cfg, events), e.snap))) == Ok(o)
    ensures OpensRun(cfg, events, o)
    ensures o.hadIndex <==> Writable(NewTables(cfg, StateAfter(cfg, events), e.snap))
  {
    hide *;
    var st := StateAfter(cfg, events);
    var b, tables := Broken(cfg, st, e.snap), NewTables(cfg, st, e.snap);
    var file, base := FinishedFile(cfg, b), |cfg.Start()|;
    var indexAt := base + |Bytes(b.records)|;
    BrokenParts(cfg, st, e.snap);
    BrokenFitsParts(cfg, st, e.snap);
    FinishedPlaces(cfg, b);
    StartReads(cfg, file);
    var readers := BrokenLoads(cfg, events, e);
    IndexIsRight(cfg, events);
    NewTablesAreTables(cfg, st, e.snap);
    var n := Fitting(tables);
    TablesIndexed(base, st.records, tables[..n]);
    IndexParses(cfg, b);
    if n == |tables| {
      FirstOfRun(cfg, events);
      PlausibleHere(b.index, base, b.records);
      TrailerReads(cfg.codec, file, base, indexAt, IndexRecord(cfg, b), b.index);
      LoadNamed(cfg.codec, file, base, b.records, indexAt, EmptyReaders(cfg.version));
      o := OpenedByIndex(cfg.codec, file, cfg.header, cfg.version, base, b.index, indexAt, readers);
    } else {
      NotPlausible(b.index, base, indexAt);
      TrailerRefused(cfg.codec, file, base, indexAt, IndexRecord(cfg, b), b.index);
      ScanWalks(cfg.codec, file, base, b.records, EmptyReaders(cfg.version));
      IndexRecordIs(cfg, b);
      var so := Scanned(st.index.frames, readers);
      ScanEnds(cfg.codec, file, indexAt, IndexRecord(cfg, b), so);
      NothingTrimmed(cfg, events);
      ScanAllIs(cfg.codec, file, cfg.header, cfg.version, base, so);
      o := Opened(file, cfg.header, cfg.version, st.index.frames, readers, false);
      OpenedByScan(cfg.codec, file, cfg.header, cfg.version, base, o);
    }
    BytesFront(st.records, b.records);
    AtFront(file, base, Bytes(st.records), Bytes(b.records));
    CoveredOpensRun(cfg, events, o);
  }

  /** The whole way round when the writing stopped on an error: the file has the frames
      written before it, and each comes back. */
  lemma BrokenRoundTrip(cfg: Config, events: seq<Event>, n: nat) returns (o: Opened)
    requires Proper(cfg) && n < |events| && WritesFirst(cfg, events, n) && PossibleRun(cfg, events[..n])
    requires var st, e := StateAfter(cfg, events[..n]), events[n];
      && AllLive(st.tables, e.memory) && SnapshotPoints(e.snap, e.memory)
      && BrokenFits(cfg, st, e.snap)
    ensures Open(cfg.codec, FinishedFile(cfg, Ending(cfg, events, n))) == Ok(o) && |o.frames| == n
    ensures forall i :: 0 <= i < n ==>
      var d := FrameAt(cfg.codec, o, i);
      d.Ok? && ComesBackAs(d.value, events[i].snap, cfg.version, cfg.header.hardware)
  {
    EndingIs(cfg, events, n);
    hide *;
    o := BrokenOpens(cfg, events[..n], events[n]);
    OpensParts(cfg, events[..n], o);
    RunCounts(cfg, events[..n]);
    forall i | 0 <= i < n
      ensures var d := FrameAt(cfg.codec, o, i);
        d.Ok? && ComesBackAs(d.value, events[i].snap, cfg.version, cfg.header.hardware)
    {
      FrameComesBack(cfg, events[..n], o, i);
    }
  }

  lemma EndingIs(cfg: Config, events: seq<Event>, n: nat)
    requires n < |events|
    ensures Ending(cfg, events, n) == Broken(cfg, StateAfter(cfg, events[..n]), events[n].snap)
  {
    hide Broken, StateAfter;
  }
}
