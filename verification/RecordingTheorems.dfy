/** The recorder's promises to the reader: every frame of a finished file, and every
    complete frame of a file that was cut short. */
module RecordingTheorems {
  import opened Basics
  import opened Model
  import opened Frame
  import opened FrameProofs
  import opened Format
  import opened Recorder
  import opened Recording
  import opened RecordingProofs
  import opened RecordingTables
  import opened RecordingRuns

  // Places in the file

  lemma AtFront(file: seq<u8>, pos: nat, a: seq<u8>, b: seq<u8>)
    requires At(file, pos, b) && a <= b
    ensures At(file, pos, a)
  {
    assert file[pos..pos + |a|] == file[pos..pos + |b|][..|a|];
    assert b[..|a|] == a;
  }

  lemma AtBack(file: seq<u8>, pos: nat, a: seq<u8>, b: seq<u8>)
    requires At(file, pos, a + b)
    ensures At(file, pos, a) && At(file, pos + |a|, b)
  {
    var all := a + b;
    AtFront(file, pos, a, all);
    assert file[pos + |a|..pos + |all|] == file[pos..pos + |all|][|a|..];
    assert all[|a|..] == b;
  }

  lemma BytesFront(a: seq<Record>, b: seq<Record>)
    requires a <= b
    ensures Bytes(a) <= Bytes(b)
  {
    hide Bytes;
    BytesAppend(a, b[|a|..]);
    assert a + b[|a|..] == b;
  }

  /** Where snapshot `i`'s frame record ends. */
  function EndOf(cfg: Config, events: seq<Event>, i: nat): nat
    requires i < |events|
  {
    |cfg.Start()| + |Bytes(StateAfter(cfg, events[..i + 1]).records)|
  }

  /** An opened file holds what the run wrote, and has what its frames refer to. */
  ghost predicate OpensRun(cfg: Config, events: seq<Event>, o: Opened) {
    var st := StateAfter(cfg, events);
    && o.header == cfg.header && o.version == o.readers.version == cfg.version
    && o.frames == st.index.frames
    && Covers(o.readers, LogsAfter(cfg, events))
    && At(o.file, |cfg.Start()|, Bytes(st.records))
  }

  /** Frame `i`'s record is where its index entry says. */
  lemma FramePlace(cfg: Config, events: seq<Event>, file: seq<u8>, i: nat)
    requires i < |events| && At(file, |cfg.Start()|, Bytes(StateAfter(cfg, events).records))
    ensures var st, e := StateAfter(cfg, events[..i]), events[i];
      var frames := StateAfter(cfg, events).index.frames;
      && i < |frames|
      && frames[i].key == IsKey(cfg, st)
      && At(file, frames[i].offset, RecordBytes(NewFrame(cfg, st, e.snap)))
  {
    hide *;
    var st, e := StateAfter(cfg, events[..i]), events[i];
    var after := StateAfter(cfg, events[..i + 1]);
    AfterOne(cfg, events, i);
    WroteParts(cfg, st, e);
    WroteEntry(cfg, st, e);
    RunCounts(cfg, events[..i]);
    RunGrows(cfg, events, i + 1);
    BytesFront(after.records, StateAfter(cfg, events).records);
    AtFront(file, |cfg.Start()|, Bytes(after.records), Bytes(StateAfter(cfg, events).records));
    var before := st.records + NewTables(cfg, st, e.snap);
    BytesSnoc(before, NewFrame(cfg, st, e.snap));
    AtBack(file, |cfg.Start()|, Bytes(before), RecordBytes(NewFrame(cfg, st, e.snap)));
  }

  lemma AfterOne(cfg: Config, events: seq<Event>, i: nat)
    requires i < |events|
    ensures var st, e := StateAfter(cfg, events[..i]), events[i];
      && StateAfter(cfg, events[..i + 1]) == Wrote(cfg, st, e.snap, e.held)
      && LogsAfter(cfg, events[..i + 1]) == AllKnown(NextFrame(cfg, st, e.snap).tables, LogsAfter(cfg, events[..i]))
  {
    hide Wrote, AllKnown, NextFrame;
    assert events[..i + 1][..i] == events[..i] && events[..i + 1][i] == events[i];
  }

  lemma WroteEntry(cfg: Config, st: State, e: Event)
    ensures var frames := Wrote(cfg, st, e.snap, e.held).index.frames;
      && |frames| == |st.index.frames| + 1
      && frames[|st.index.frames|].offset == |cfg.Start()| + |Bytes(st.records + NewTables(cfg, st, e.snap))|
      && frames[|st.index.frames|].key == IsKey(cfg, st)
      && frames[|st.index.frames|].tick == e.snap.tick && frames[|st.index.frames|].atUnixMs == UnixMs(e.snap.takenAt)
  {
    hide NextFrame, NewTables, NewFrame, SweptTables, FlushedTables, Offsets, Bytes, UnixMs, Config.Start, IsKey;
  }

  // Decoding

  /** A frame record decodes to its snapshot, over whatever the frame before it came
      back as. */
  lemma PayloadRoundTrip(cfg: Config, st: State, e: Event, known: Logs, o: Opened, back: Option<Snapshot>)
    requires Proper(cfg) && Possible(cfg, st, e)
    requires o.header == cfg.header && o.version == o.readers.version == cfg.version && Covers(o.readers, known)
    requires FrameRefers(NextFrame(cfg, st, e.snap), e.snap, known)
    requires SameBase(if IsKey(cfg, st) then None else st.prev, back, cfg.version, cfg.header.hardware)
    requires !IsKey(cfg, st) ==> back.Some?
    ensures var d := DecodePayload(cfg.codec, o, IsKey(cfg, st), NewFrame(cfg, st, e.snap).payload, back);
      d.Ok? && ComesBackAs(d.value, e.snap, cfg.version, cfg.header.hardware)
  {
    hide Covers, FrameRefers, SameBase, Encoded, Decoded, ComesBackAs, CpuTimesFit, Countable, AllLive, SnapshotPoints, IsKey, Compress,
      Decompress, UnixMs, FirstPayloads;
    var prev := if IsKey(cfg, st) then None else st.prev;
    var f := NextFrame(cfg, st, e.snap);
    FrameEntryIs(cfg, 0, e.snap, IsKey(cfg, st), f);
    CompressRoundTrip(cfg.codec, cfg.codec.ser(FramePayload(cfg.version, f)));
    FrameRoundTrip(e.snap, prev, back, st.tables, known, o.readers, cfg.header.hardware);
    assert FrameParts(FramePayload(cfg.version, f)) == (f.body, ExtraFor(cfg.version, f), GpuFor(cfg.version, f));
  }

  /** Every frame of a run reads back as its snapshot. */
  lemma {:induction false} FrameComesBack(cfg: Config, events: seq<Event>, o: Opened, i: nat)
    requires Proper(cfg) && PossibleRun(cfg, events) && OpensRun(cfg, events, o) && i < |events|
    ensures |o.frames| == |events|
    ensures var d := FrameAt(cfg.codec, o, i);
      d.Ok? && ComesBackAs(d.value, events[i].snap, cfg.version, cfg.header.hardware)
    decreases i
  {
    hide *;
    var st, e := StateAfter(cfg, events[..i]), events[i];
    var known := LogsAfter(cfg, events[..i + 1]);
    OpensParts(cfg, events, o);
    AfterOne(cfg, events, i);
    FramePlace(cfg, events, o.file, i);
    RunCounts(cfg, events);
    RunCounts(cfg, events[..i]);
    PossibleBefore(cfg, events, i);
    PossibleNow(cfg, st, e);
    RunSound(cfg, events[..i]);
    WroteSound(cfg, st, LogsAfter(cfg, events[..i]), e);
    RunGrows(cfg, events, i + 1);
    CoversLess(o.readers, known, LogsAfter(cfg, events));
    var frame := NewFrame(cfg, st, e.snap);
    FrameIs(cfg, st, e.snap);
    ReadWithin(o.file, o.frames[i].offset, frame);
    if IsKey(cfg, st) {
      NoBase(cfg.version, cfg.header.hardware);
      PayloadRoundTrip(cfg, st, e, known, o, None);
      ReadFrame(cfg.codec, o, i, None, frame);
    } else {
      NotFirst(cfg, st);
      FrameComesBack(cfg, events, o, i - 1);
      PossibleBefore(cfg, events, i - 1);
      PossibleNow(cfg, StateAfter(cfg, events[..i - 1]), events[i - 1]);
      var back := FrameAt(cfg.codec, o, i - 1).value;
      OneBase(events[i - 1].snap, back, cfg.version, cfg.header.hardware);
      PayloadRoundTrip(cfg, st, e, known, o, Some(back));
      ReadFrame(cfg.codec, o, i, Some(back), frame);
    }
  }

  lemma OpensParts(cfg: Config, events: seq<Event>, o: Opened)
    requires OpensRun(cfg, events, o)
    ensures o.header == cfg.header && o.version == o.readers.version == cfg.version
    ensures o.frames == StateAfter(cfg, events).index.frames && Covers(o.readers, LogsAfter(cfg, events))
    ensures At(o.file, |cfg.Start()|, Bytes(StateAfter(cfg, events).records))
  {
  }

  lemma FrameIs(cfg: Config, st: State, snap: Snapshot)
    ensures NewFrame(cfg, st, snap).kind == if IsKey(cfg, st) then KeyFrame else DeltaFrame
  {
    hide NextFrame, Compress, UnixMs;
  }

  lemma NotFirst(cfg: Config, st: State)
    requires !IsKey(cfg, st)
    ensures st.prev.Some?
  {
  }

  lemma NoBase(version: nat, hardware: Hardware)
    ensures SameBase(None, None, version, hardware)
  {
  }

  lemma OneBase(snap: Snapshot, back: Snapshot, version: nat, hardware: Hardware)
    requires Countable(snap) && ComesBackAs(back, snap, version, hardware)
    ensures SameBase(Some(snap), Some(back), version, hardware)
  {
  }

  lemma ReadWithin(file: seq<u8>, pos: nat, r: Record)
    requires At(file, pos, RecordBytes(r)) && |r.payload| <= MAX_PAYLOAD
    ensures ReadRecord(file, pos, |file|) == Ok(Some(r))
  {
    ReadAt(file, pos, |file|, r);
  }

  lemma ReadFrame(c: Codec, o: Opened, i: nat, back: Option<Snapshot>, frame: Record)
    requires i < |o.frames| && ReadRecord(o.file, o.frames[i].offset, |o.file|) == Ok(Some(frame))
    requires frame.kind == if o.frames[i].key then KeyFrame else DeltaFrame
    requires back.Some? ==> i > 0 && !o.frames[i].key && FrameAt(c, o, i - 1) == Ok(back.value)
    requires back.None? ==> o.frames[i].key
    ensures FrameAt(c, o, i) == DecodePayload(c, o, o.frames[i].key, frame.payload, back)
  {
    hide ReadRecord, DecodePayload;
  }

  // Opening

  lemma PreambleReads(file: seq<u8>, version: nat)
    requires At(file, 0, MAGIC + Le(version, 2)) && version < 0x1_0000
    ensures |file| >= PREAMBLE_LEN && file[..5] == MAGIC && FromLe(file[5..7]) == version
  {
    var head := MAGIC + Le(version, 2);
    Pow256Values();
    LeRoundTrip(version, 2);
    hide Le, FromLe;
    assert file[..7] == head;
    assert file[..5] == head[..5] && file[5..7] == head[5..7];
  }

  lemma HeaderParses(cfg: Config)
    requires Proper(cfg)
    ensures Parse(cfg.codec, HeaderShape, cfg.HeaderRecord().payload) == Ok(HeaderOf(cfg.header))
    ensures |cfg.HeaderRecord().payload| <= MAX_PAYLOAD && OLDEST_VERSION <= cfg.version <= FORMAT_VERSION
  {
    assert ShapeOf(HeaderOf(cfg.header)) == HeaderShape;
  }

  lemma StartReads(cfg: Config, file: seq<u8>)
    requires Proper(cfg) && At(file, 0, cfg.Start())
    ensures ReadStart(cfg.codec, file) == Ok((cfg.header, cfg.version, |cfg.Start()|))
  {
    hide RecordBytes, Le, FromLe, Parse, ReadRecord, Proper, At;
    var head, r := MAGIC + Le(cfg.version, 2), cfg.HeaderRecord();
    HeaderParses(cfg);
    AtBack(file, 0, head, RecordBytes(r));
    PreambleReads(file, cfg.version);
    ReadWithin(file, PREAMBLE_LEN, r);
  }

  /** Offsets an index lists ascend, and stay between the header and the index. */
  lemma {:induction false} FramesWithin(base: nat, records: seq<Record>)
    ensures forall i :: 0 <= i < |Frames(base, records)| ==>
      base <= Frames(base, records)[i].offset && Frames(base, records)[i].offset + RECORD_HEADER_LEN <= base + |Bytes(records)|
    ensures forall i, j :: 0 <= i < j < |Frames(base, records)| ==> Frames(base, records)[i].offset < Frames(base, records)[j].offset
  {
    hide RecordBytes, ParseFramePrefix;
    if records != [] {
      var most, last := records[..|records| - 1], records[|records| - 1];
      FramesWithin(base, most);
      var at := base + |Bytes(most)|;
      assert |Bytes(records)| == |Bytes(most)| + last.Size();
      assert EntryOf(at, last).offset == at;
    }
  }

  lemma {:induction false} TablesWithin(base: nat, records: seq<Record>)
    ensures forall i :: 0 <= i < |TableOffsets(base, records)| ==>
      base <= TableOffsets(base, records)[i] && TableOffsets(base, records)[i] + RECORD_HEADER_LEN <= base + |Bytes(records)|
  {
    hide RecordBytes;
    if records != [] {
      var most, last := records[..|records| - 1], records[|records| - 1];
      TablesWithin(base, most);
      assert |Bytes(records)| == |Bytes(most)| + last.Size();
    }
  }

  lemma FirstIsKey(cfg: Config, events: seq<Event>)
    requires events != []
    ensures |StateAfter(cfg, events).index.frames| > 0 && StateAfter(cfg, events).index.frames[0].key
  {
    hide *;
    RunCounts(cfg, events);
    RunCounts(cfg, events[..0]);
    AfterOne(cfg, events, 0);
    WroteEntry(cfg, StateAfter(cfg, events[..0]), events[0]);
    RunGrows(cfg, events, 1);
    NoPrevIsKey(cfg, StateAfter(cfg, events[..0]));
  }

  lemma NoPrevIsKey(cfg: Config, st: State)
    requires st.prev.None?
    ensures IsKey(cfg, st)
  {
  }

  lemma IndexIsPlausible(cfg: Config, events: seq<Event>)
    ensures var st := StateAfter(cfg, events);
      Plausible(st.index, |cfg.Start()|, |cfg.Start()| + |Bytes(st.records)|)
  {
    hide Frames, TableOffsets, Bytes, StateAfter, Config.Start;
    var st := StateAfter(cfg, events);
    IndexIsRight(cfg, events);
    FramesWithin(|cfg.Start()|, st.records);
    TablesWithin(|cfg.Start()|, st.records);
    if events != [] {
      FirstIsKey(cfg, events);
    } else {
      RunCounts(cfg, events);
    }
  }

  /** Where everything in a finished file is. */
  lemma FinishedPlaces(cfg: Config, st: State)
    ensures var file, r := FinishedFile(cfg, st), IndexRecord(cfg, st);
      var indexAt := |cfg.Start()| + |Bytes(st.records)|;
      && |file| == indexAt + r.Size() + TRAILER_LEN
      && At(file, 0, cfg.Start())
      && At(file, |cfg.Start()|, Bytes(st.records))
      && At(file, indexAt, RecordBytes(r))
      && At(file, indexAt + r.Size(), Le(|r.payload|, 4) + INDEX_MAGIC)
  {
    hide Bytes, RecordBytes, Config.Start, Le;
    var r := IndexRecord(cfg, st);
    var trailer := Le(|r.payload|, 4) + INDEX_MAGIC;
    var file := cfg.Start() + (Bytes(st.records) + (RecordBytes(r) + trailer));
    assert FinishedFile(cfg, st) == file;
    assert At(file, 0, file);
    AtBack(file, 0, cfg.Start(), Bytes(st.records) + (RecordBytes(r) + trailer));
    AtBack(file, |cfg.Start()|, Bytes(st.records), RecordBytes(r) + trailer);
    AtBack(file, |cfg.Start()| + |Bytes(st.records)|, RecordBytes(r), trailer);
  }

  lemma IndexReads(cfg: Config, events: seq<Event>)
    requires Proper(cfg) && |IndexRecord(cfg, StateAfter(cfg, events)).payload| <= MAX_PAYLOAD
    ensures var st := StateAfter(cfg, events);
      ReadIndex(cfg.codec, FinishedFile(cfg, st), |cfg.Start()|)
        == Ok(Some((st.index, |cfg.Start()| + |Bytes(st.records)|)))
  {
    hide *;
    var st := StateAfter(cfg, events);
    FinishedPlaces(cfg, st);
    IndexIsPlausible(cfg, events);
    IndexParses(cfg, st);
    TrailerReads(cfg.codec, FinishedFile(cfg, st), |cfg.Start()|, |cfg.Start()| + |Bytes(st.records)|, IndexRecord(cfg, st), st.index);
  }

  lemma IndexParses(cfg: Config, st: State)
    requires Proper(cfg)
    ensures IndexRecord(cfg, st).kind == IndexKind
    ensures Parse(cfg.codec, IndexShape, IndexRecord(cfg, st).payload) == Ok(IndexOf(st.index))
  {
    assert ShapeOf(IndexOf(st.index)) == IndexShape;
  }

  lemma TrailerReads(c: Codec, file: seq<u8>, start: nat, indexAt: nat, r: Record, index: Index)
    requires |r.payload| <= MAX_PAYLOAD && r.kind == IndexKind && start <= indexAt
    requires |file| == indexAt + r.Size() + TRAILER_LEN && At(file, indexAt, RecordBytes(r))
    requires At(file, indexAt + r.Size(), Le(|r.payload|, 4) + INDEX_MAGIC)
    requires Parse(c, IndexShape, r.payload) == Ok(IndexOf(index)) && Plausible(index, start, indexAt)
    ensures ReadIndex(c, file, start) == Ok(Some((index, indexAt)))
  {
    hide RecordBytes, ReadRecord, Plausible, Le, FromLe, Parse;
    ReadWithin(file, indexAt, r);
    var trailer := file[|file| - TRAILER_LEN..];
    assert trailer == Le(|r.payload|, 4) + INDEX_MAGIC;
    assert trailer[..4] == Le(|r.payload|, 4) && trailer[4..] == INDEX_MAGIC;
    Pow256Values();
    LeRoundTrip(|r.payload|, 4);
  }

  lemma LoadedOpensRun(cfg: Config, events: seq<Event>, o: Opened)
    requires o.header == cfg.header && o.version == o.readers.version == cfg.version
    requires o.frames == StateAfter(cfg, events).index.frames && HoldsAll(o.readers, LogsAfter(cfg, events))
    requires At(o.file, |cfg.Start()|, Bytes(StateAfter(cfg, events).records))
    ensures OpensRun(cfg, events, o)
  {
    hide StateAfter, LogsAfter, HoldsAll, Covers, Bytes, Config.Start;
    HoldsCovers(o.readers, LogsAfter(cfg, events));
  }

  /** A finished file opens by its index, with every frame. */
  lemma FinishedOpens(cfg: Config, events: seq<Event>) returns (o: Opened)
    requires Proper(cfg) && PossibleRun(cfg, events)
    requires |IndexRecord(cfg, StateAfter(cfg, events)).payload| <= MAX_PAYLOAD
    ensures Open(cfg.codec, FinishedFile(cfg, StateAfter(cfg, events))) == Ok(o)
    ensures o.hadIndex && OpensRun(cfg, events, o)
  {
    hide *;
    var st := StateAfter(cfg, events);
    var file := FinishedFile(cfg, st);
    var start, indexAt := |cfg.Start()|, |cfg.Start()| + |Bytes(st.records)|;
    FinishedPlaces(cfg, st);
    StartReads(cfg, file);
    IndexReads(cfg, events);
    RunLoads(cfg, events);
    IndexIsRight(cfg, events);
    LoadNamed(cfg.codec, file, start, st.records, indexAt, EmptyReaders(cfg.version));
    var readers := Shelves(cfg.codec, EmptyReaders(cfg.version), st.records).value;
    o := OpenedByIndex(cfg.codec, file, cfg.header, cfg.version, start, st.index, indexAt, readers);
    LoadedOpensRun(cfg, events, o);
  }

  lemma OpenedByIndex(c: Codec, file: seq<u8>, header: RecordHeader, version: nat, start: nat, index: Index, indexAt: nat, readers: Readers)
    returns (o: Opened)
    requires ReadStart(c, file) == Ok((header, version, start))
    requires indexAt <= |file| && ReadIndex(c, file, start) == Ok(Some((index, indexAt)))
    requires LoadTables(c, file, index.tables, indexAt, EmptyReaders(version), |index.tables|) == Some(readers)
    ensures o == Opened(file, header, version, index.frames, readers, true) && Open(c, file) == Ok(o)
  {
    hide ReadStart, ReadIndex, LoadTables;
    o := Opened(file, header, version, index.frames, readers, true);
  }

  /** The whole way round: any run, any keyframe interval, any version. */
  lemma RecordingRoundTrip(cfg: Config, events: seq<Event>) returns (o: Opened)
    requires Proper(cfg) && PossibleRun(cfg, events)
    requires |IndexRecord(cfg, StateAfter(cfg, events)).payload| <= MAX_PAYLOAD
    ensures Open(cfg.codec, FinishedFile(cfg, StateAfter(cfg, events))) == Ok(o) && o.hadIndex
    ensures |o.frames| == |events|
    ensures forall i :: 0 <= i < |events| ==>
      var d := FrameAt(cfg.codec, o, i);
      d.Ok? && ComesBackAs(d.value, events[i].snap, cfg.version, cfg.header.hardware)
  {
    hide *;
    o := FinishedOpens(cfg, events);
    OpensParts(cfg, events, o);
    RunCounts(cfg, events);
    forall i | 0 <= i < |events|
      ensures var d := FrameAt(cfg.codec, o, i);
        d.Ok? && ComesBackAs(d.value, events[i].snap, cfg.version, cfg.header.hardware)
    {
      FrameComesBack(cfg, events, o, i);
    }
  }

  /** Scanning a finished file finds the frames its index lists and the tables it
      names. */
  lemma ScanIsIndex(cfg: Config, events: seq<Event>)
    requires Proper(cfg) && PossibleRun(cfg, events)
    requires |IndexRecord(cfg, StateAfter(cfg, events)).payload| <= MAX_PAYLOAD
    ensures
      var file := FinishedFile(cfg, StateAfter(cfg, events));
      var byIndex, byScan := Open(cfg.codec, file), ScanAll(cfg.codec, file, cfg.header, cfg.version, |cfg.Start()|);
      && byIndex.Ok? && byScan.Ok?
      && byScan.value == byIndex.value.(hadIndex := false)
  {
    hide *;
    var st := StateAfter(cfg, events);
    var file := FinishedFile(cfg, st);
    var start, indexAt := |cfg.Start()|, |cfg.Start()| + |Bytes(st.records)|;
    FinishedPlaces(cfg, st);
    StartReads(cfg, file);
    IndexReads(cfg, events);
    RunLoads(cfg, events);
    IndexIsRight(cfg, events);
    LoadNamed(cfg.codec, file, start, st.records, indexAt, EmptyReaders(cfg.version));
    var readers := Shelves(cfg.codec, EmptyReaders(cfg.version), st.records).value;
    var _ := OpenedByIndex(cfg.codec, file, cfg.header, cfg.version, start, st.index, indexAt, readers);
    ScanWalks(cfg.codec, file, start, st.records, EmptyReaders(cfg.version));
    IndexRecordIs(cfg, st);
    ScanEnds(cfg.codec, file, indexAt, IndexRecord(cfg, st), Scanned(st.index.frames, readers));
    NothingTrimmed(cfg, events);
    ScanAllIs(cfg.codec, file, cfg.header, cfg.version, start, Scanned(st.index.frames, readers));
  }

  lemma IndexRecordIs(cfg: Config, st: State)
    ensures !IndexRecord(cfg, st).kind.IsFrame() && !IndexRecord(cfg, st).kind.IsTable()
  {
  }

  lemma ScanAllIs(c: Codec, file: seq<u8>, header: RecordHeader, version: nat, start: nat, s: Scanned)
    requires ScanFrom(c, file, start, Scanned([], EmptyReaders(version))) == Ok(s) && Trimmed(s.frames) == s.frames
    ensures ScanAll(c, file, header, version, start) == Ok(Opened(file, header, version, s.frames, s.readers, false))
  {
    hide ScanFrom, Trimmed;
  }

  lemma NothingTrimmed(cfg: Config, events: seq<Event>)
    ensures Trimmed(StateAfter(cfg, events).index.frames) == StateAfter(cfg, events).index.frames
  {
    hide StateAfter;
    RunCounts(cfg, events);
    if events != [] {
      FirstIsKey(cfg, events);
    }
  }

  // A file cut short

  /** How many whole records `len` bytes hold. */
  lemma {:induction false} CutPoint(records: seq<Record>, len: nat) returns (n: nat)
    ensures n <= |records| && |Bytes(records[..n])| <= len
    ensures n < |records| ==> len < |Bytes(records[..n + 1])|
  {
    hide RecordBytes;
    if |Bytes(records)| <= len {
      n := |records|;
      assert records[..n] == records;
    } else {
      var most := records[..|records| - 1];
      n := CutPoint(most, len);
      assert most[..n] == records[..n];
      if n < |most| {
        assert most[..n + 1] == records[..n + 1];
      } else {
        assert records[..n + 1] == records;
      }
    }
  }

  /** Which snapshot's records the first `n` records end among, and after how many of
      its tables. */
  lemma {:induction false} SplitAt(cfg: Config, events: seq<Event>, n: nat) returns (j: nat, m: nat)
    requires n <= |StateAfter(cfg, events).records|
    ensures j <= |events|
    ensures var st := StateAfter(cfg, events[..j]);
      var tables := if j < |events| then NewTables(cfg, st, events[j].snap) else [];
      && m <= |tables|
      && StateAfter(cfg, events).records[..n] == st.records + tables[..m]
    ensures j < |events| ==> n < |StateAfter(cfg, events[..j + 1]).records|
  {
    hide *;
    if events == [] || n == |StateAfter(cfg, events).records| {
      NoRecords(cfg);
      j, m := |events|, 0;
      assert events[..j] == events;
      assert StateAfter(cfg, events).records[..n] == StateAfter(cfg, events).records + [];
    } else {
      var k := |events| - 1;
      var before, e := events[..k], events[k];
      assert events[..k + 1] == events;
      AfterOne(cfg, events, k);
      WroteParts(cfg, StateAfter(cfg, before), e);
      var had, tables := StateAfter(cfg, before).records, NewTables(cfg, StateAfter(cfg, before), e.snap);
      if n < |had| {
        j, m := SplitAt(cfg, before, n);
        assert before[..j] == events[..j] && before[..j + 1] == events[..j + 1];
        assert StateAfter(cfg, events).records[..n] == had[..n];
      } else {
        j, m := k, n - |had|;
        assert StateAfter(cfg, events).records[..n] == had + tables[..m];
      }
    }
  }

  lemma NoRecords(cfg: Config)
    ensures StateAfter(cfg, []).records == []
  {
  }

  /** Some whole records of a run, and what a reader has from them: the frames of the
      first `j` snapshots, and everything those refer to. */
  lemma SomeRecordsLoad(cfg: Config, events: seq<Event>, n: nat) returns (j: nat, readers: Readers)
    requires Proper(cfg) && PossibleRun(cfg, events) && n <= |StateAfter(cfg, events).records|
    ensures j <= |events|
    ensures
      var some := StateAfter(cfg, events).records[..n];
      && Shelves(cfg.codec, EmptyReaders(cfg.version), some) == Ok(readers)
      && AllReadable(some)
      && Frames(|cfg.Start()|, some) == StateAfter(cfg, events[..j]).index.frames
      && StateAfter(cfg, events[..j]).records <= some
    ensures Covers(readers, LogsAfter(cfg, events[..j])) && readers.version == cfg.version
    ensures j < |events| ==> n < |StateAfter(cfg, events[..j + 1]).records|
  {
    hide *;
    var m;
    j, m := SplitAt(cfg, events, n);
    var before := events[..j];
    var st := StateAfter(cfg, before);
    var some := StateAfter(cfg, events).records[..n];
    PossibleBefore(cfg, events, j);
    ProperCodec(cfg);
    RunLoads(cfg, before);
    RunLoads(cfg, events);
    SomeReadable(StateAfter(cfg, events).records, n);
    RunSound(cfg, before);
    IndexIsRight(cfg, before);
    var r := Shelves(cfg.codec, EmptyReaders(cfg.version), st.records).value;
    if j < |events| {
      var e := events[j];
      var f := NextFrame(cfg, st, e.snap);
      var tables := NewTables(cfg, st, e.snap);
      PossibleNow(cfg, st, e);
      WroteParts(cfg, st, e);
      WroteSound(cfg, st, LogsAfter(cfg, before), e);
      SomeFit(cfg.codec, TablePayloads(cfg.version, f.tables), m);
      SomeTablesLoad(cfg.codec, r, f.tables, LogsAfter(cfg, before), m);
      ShelvesAppend(cfg.codec, EmptyReaders(cfg.version), st.records, tables[..m]);
      NewTablesAreTables(cfg, st, e.snap);
      TablesIndexed(|cfg.Start()|, st.records, tables[..m]);
      readers := Shelves(cfg.codec, EmptyReaders(cfg.version), some).value;
    } else {
      assert some == st.records;
      HoldsCovers(r, LogsAfter(cfg, before));
      readers := r;
    }
  }

  lemma SomeReadable(records: seq<Record>, n: nat)
    requires AllReadable(records) && n <= |records|
    ensures AllReadable(records[..n])
  {
  }

  /** The records of a run, its index included, as far as a file cut after `c` bytes
      has them. */
  function Everything(cfg: Config, events: seq<Event>): seq<Record> {
    StateAfter(cfg, events).records + [IndexRecord(cfg, StateAfter(cfg, events))]
  }

  /** A scan of a cut file stops where the last whole record ends. */
  lemma CutScans(cfg: Config, events: seq<Event>, c: nat) returns (j: nat, readers: Readers, n: nat)
    requires Proper(cfg) && PossibleRun(cfg, events)
    requires |IndexRecord(cfg, StateAfter(cfg, events)).payload| <= MAX_PAYLOAD
    requires |cfg.Start()| <= c <= |FinishedFile(cfg, StateAfter(cfg, events))|
    ensures
      var st := StateAfter(cfg, events);
      var file := FinishedFile(cfg, st)[..c];
      && n <= |st.records| && |cfg.Start()| + |Bytes(st.records[..n])| <= c
      && (n < |st.records| ==> c < |cfg.Start()| + |Bytes(st.records[..n + 1])|)
      && At(file, 0, cfg.Start()) && At(file, |cfg.Start()|, Bytes(st.records[..n]))
      && j <= |events| && StateAfter(cfg, events[..j]).records <= st.records[..n]
      && (j < |events| ==> n < |StateAfter(cfg, events[..j + 1]).records|)
      && ScanFrom(cfg.codec, file, |cfg.Start()|, Scanned([], EmptyReaders(cfg.version)))
         == Ok(Scanned(StateAfter(cfg, events[..j]).index.frames, readers))
    ensures Covers(readers, LogsAfter(cfg, events[..j])) && readers.version == cfg.version
  {
    hide *;
    var st := StateAfter(cfg, events);
    var whole, base := FinishedFile(cfg, st), |cfg.Start()|;
    var file := whole[..c];
    var all := Everything(cfg, events);
    EverythingIs(cfg, events);
    var k := CutPoint(all, c - base);
    n := if k <= |st.records| then k else |st.records|;
    assert all[..n] == st.records[..n];
    assert n < |st.records| ==> all[..n + 1] == st.records[..n + 1];
    FinishedPlaces(cfg, st);
    EverythingAt(cfg, st, whole);
    BytesFront(st.records[..n], all[..k]);
    BytesFront(all[..k], all);
    AtCut(whole, 0, cfg.Start(), c);
    AtFront(whole, base, Bytes(st.records[..n]), Bytes(all));
    AtCut(whole, base, Bytes(st.records[..n]), c);
    j, readers := SomeRecordsLoad(cfg, events, n);
    ScanWalks(cfg.codec, file, base, st.records[..n], EmptyReaders(cfg.version));
    var pos := base + |Bytes(st.records[..n])|;
    var so := Scanned(StateAfter(cfg, events[..j]).index.frames, readers);
    if k == |all| {
      IndexRecordIs(cfg, st);
      assert all[..k] == all;
      assert st.records[..n] == st.records;
      AtCut(whole, pos, RecordBytes(IndexRecord(cfg, st)), c);
      ScanEnds(cfg.codec, file, pos, IndexRecord(cfg, st), so);
    } else {
      EverythingReadable(cfg, events, k);
      PartOfRecord(whole, base, all, k, c);
      ScanStops(cfg.codec, file, pos, all[k], so);
    }
  }

  lemma EverythingIs(cfg: Config, events: seq<Event>)
    ensures Everything(cfg, events) == StateAfter(cfg, events).records + [IndexRecord(cfg, StateAfter(cfg, events))]
  {
  }

  lemma EverythingAt(cfg: Config, st: State, file: seq<u8>)
    requires At(file, |cfg.Start()|, Bytes(st.records))
    requires At(file, |cfg.Start()| + |Bytes(st.records)|, RecordBytes(IndexRecord(cfg, st)))
    ensures At(file, |cfg.Start()|, Bytes(st.records + [IndexRecord(cfg, st)]))
    ensures |Bytes(st.records + [IndexRecord(cfg, st)])| == |Bytes(st.records)| + |RecordBytes(IndexRecord(cfg, st))|
  {
    hide Bytes, RecordBytes, IndexRecord, Config.Start;
    BytesSnoc(st.records, IndexRecord(cfg, st));
    var base, a, b := |cfg.Start()|, Bytes(st.records), RecordBytes(IndexRecord(cfg, st));
    assert file[base..base + |a + b|] == file[base..base + |a|] + file[base + |a|..base + |a| + |b|];
  }

  lemma EverythingReadable(cfg: Config, events: seq<Event>, k: nat)
    requires Proper(cfg) && PossibleRun(cfg, events) && k < |Everything(cfg, events)|
    requires |IndexRecord(cfg, StateAfter(cfg, events)).payload| <= MAX_PAYLOAD
    ensures |Everything(cfg, events)[k].payload| <= MAX_PAYLOAD
  {
    hide StateAfter, IndexRecord, PossibleRun, Proper, Shelves, HoldsAll;
    RunLoads(cfg, events);
    var st := StateAfter(cfg, events);
    assert k < |st.records| ==> Everything(cfg, events)[k] == st.records[k] && Readable(st.records[k]);
  }

  lemma AtCut(file: seq<u8>, pos: nat, b: seq<u8>, c: nat)
    requires At(file, pos, b) && pos + |b| <= c <= |file|
    ensures At(file[..c], pos, b)
  {
    assert file[..c][pos..pos + |b|] == file[pos..pos + |b|];
  }

  /** Past the whole records, a cut file has the front of the next. */
  lemma PartOfRecord(file: seq<u8>, base: nat, records: seq<Record>, k: nat, c: nat)
    requires k < |records| && At(file, base, Bytes(records)) && c <= |file|
    requires base + |Bytes(records[..k])| <= c < base + |Bytes(records[..k + 1])|
    ensures var pos := base + |Bytes(records[..k])|;
      && c < pos + records[k].Size()
      && file[..c][pos..] == RecordBytes(records[k])[..c - pos]
  {
    hide RecordBytes, Bytes;
    var pos := base + |Bytes(records[..k])|;
    assert records[..k + 1] == records[..k] + [records[k]];
    BytesSnoc(records[..k], records[k]);
    BytesFront(records[..k + 1], records);
    AtFront(file, base, Bytes(records[..k + 1]), Bytes(records));
    AtBack(file, base, Bytes(records[..k]), RecordBytes(records[k]));
    assert file[..c][pos..] == file[pos..pos + records[k].Size()][..c - pos];
  }

  /** A file cut anywhere after its header, with no trailer where it was cut, opens
      with just the frames whose records are whole. */
  lemma CutOpens(cfg: Config, events: seq<Event>, c: nat) returns (o: Opened, j: nat)
    requires Proper(cfg) && PossibleRun(cfg, events)
    requires |IndexRecord(cfg, StateAfter(cfg, events)).payload| <= MAX_PAYLOAD
    requires |cfg.Start()| <= c <= |FinishedFile(cfg, StateAfter(cfg, events))|
    requires ReadIndex(cfg.codec, FinishedFile(cfg, StateAfter(cfg, events))[..c], |cfg.Start()|) == Ok(None)
    ensures Open(cfg.codec, FinishedFile(cfg, StateAfter(cfg, events))[..c]) == Ok(o) && !o.hadIndex
    ensures j == |o.frames| <= |events| && OpensRun(cfg, events[..j], o)
    ensures forall i :: 0 <= i < |events| ==> (i < j <==> EndOf(cfg, events, i) <= c)
  {
    hide *;
    var st := StateAfter(cfg, events);
    var file, base := FinishedFile(cfg, st)[..c], |cfg.Start()|;
    var readers, n;
    j, readers, n := CutScans(cfg, events, c);
    var upTo := StateAfter(cfg, events[..j]);
    StartReads(cfg, file);
    NothingTrimmed(cfg, events[..j]);
    ScanAllIs(cfg.codec, file, cfg.header, cfg.version, base, Scanned(upTo.index.frames, readers));
    o := Opened(file, cfg.header, cfg.version, upTo.index.frames, readers, false);
    OpenedByScan(cfg.codec, file, cfg.header, cfg.version, base, o);
    RunCounts(cfg, events[..j]);
    BytesFront(upTo.records, st.records[..n]);
    AtFront(file, base, Bytes(upTo.records), Bytes(st.records[..n]));
    CoveredOpensRun(cfg, events[..j], o);
    forall i | 0 <= i < |events|
      ensures i < j <==> EndOf(cfg, events, i) <= c
    {
      WholeFrames(cfg, events, j, n, c, i);
    }
  }

  lemma OpenedByScan(c: Codec, file: seq<u8>, header: RecordHeader, version: nat, start: nat, o: Opened)
    requires ReadStart(c, file) == Ok((header, version, start)) && ReadIndex(c, file, start) == Ok(None)
    requires ScanAll(c, file, header, version, start) == Ok(o)
    ensures Open(c, file) == Ok(o)
  {
    hide ReadStart, ReadIndex, ScanAll;
  }

  lemma CoveredOpensRun(cfg: Config, events: seq<Event>, o: Opened)
    requires o.header == cfg.header && o.version == o.readers.version == cfg.version
    requires o.frames == StateAfter(cfg, events).index.frames && Covers(o.readers, LogsAfter(cfg, events))
    requires At(o.file, |cfg.Start()|, Bytes(StateAfter(cfg, events).records))
    ensures OpensRun(cfg, events, o)
  {
    hide StateAfter, LogsAfter, Covers, Bytes, Config.Start;
  }

  /** Frame `i` is whole just when the cut leaves it among the first `j`. */
  lemma WholeFrames(cfg: Config, events: seq<Event>, j: nat, n: nat, c: nat, i: nat)
    requires i < |events| && j <= |events| && n <= |StateAfter(cfg, events).records|
    requires StateAfter(cfg, events[..j]).records <= StateAfter(cfg, events).records[..n]
    requires |cfg.Start()| + |Bytes(StateAfter(cfg, events).records[..n])| <= c
    requires n < |StateAfter(cfg, events).records| ==> c < |cfg.Start()| + |Bytes(StateAfter(cfg, events).records[..n + 1])|
    requires j < |events| ==> n < |StateAfter(cfg, events[..j + 1]).records|
    ensures i < j <==> EndOf(cfg, events, i) <= c
  {
    hide StateAfter, Bytes, Config.Start, LogsAfter, Grown;
    var all, mine := StateAfter(cfg, events).records, StateAfter(cfg, events[..i + 1]).records;
    if i < j {
      assert events[..j][..i + 1] == events[..i + 1];
      RunGrows(cfg, events[..j], i + 1);
      FrontOfFront(mine, StateAfter(cfg, events[..j]).records, all[..n]);
      BytesFront(mine, all[..n]);
    } else {
      assert events[..i + 1][..j + 1] == events[..j + 1];
      RunGrows(cfg, events[..i + 1], j + 1);
      RunGrows(cfg, events, i + 1);
      ShorterFront(all, mine, n + 1);
      BytesFront(all[..n + 1], mine);
    }
  }

  lemma FrontOfFront<T>(a: seq<T>, b: seq<T>, c: seq<T>)
    requires a <= b <= c
    ensures a <= c
  {
  }

  lemma ShorterFront<T>(all: seq<T>, some: seq<T>, n: nat)
    requires some <= all && n <= |some|
    ensures all[..n] <= some
  {
  }

  /** Reading a cut file: each frame that is whole comes back as its snapshot. */
  lemma CutRoundTrip(cfg: Config, events: seq<Event>, c: nat) returns (o: Opened)
    requires Proper(cfg) && PossibleRun(cfg, events)
    requires |IndexRecord(cfg, StateAfter(cfg, events)).payload| <= MAX_PAYLOAD
    requires |cfg.Start()| <= c <= |FinishedFile(cfg, StateAfter(cfg, events))|
    requires ReadIndex(cfg.codec, FinishedFile(cfg, StateAfter(cfg, events))[..c], |cfg.Start()|) == Ok(None)
    ensures Open(cfg.codec, FinishedFile(cfg, StateAfter(cfg, events))[..c]) == Ok(o)
    ensures |o.frames| <= |events|
    ensures forall i :: 0 <= i < |events| ==> (i < |o.frames| <==> EndOf(cfg, events, i) <= c)
    ensures forall i :: 0 <= i < |o.frames| ==>
      var d := FrameAt(cfg.codec, o, i);
      d.Ok? && ComesBackAs(d.value, events[i].snap, cfg.version, cfg.header.hardware)
  {
    hide *;
    var j;
    o, j := CutOpens(cfg, events, c);
    PossibleBefore(cfg, events, j);
    forall i | 0 <= i < |o.frames|
      ensures var d := FrameAt(cfg.codec, o, i);
        d.Ok? && ComesBackAs(d.value, events[i].snap, cfg.version, cfg.header.hardware)
    {
      FrameComesBack(cfg, events[..j], o, i);
    }
  }

  /** A cut whose last bytes are not the trailer's mark is one with no index. */
  lemma CutAnywhere(cfg: Config, events: seq<Event>, c: nat) returns (o: Opened)
    requires Proper(cfg) && PossibleRun(cfg, events)
    requires |IndexRecord(cfg, StateAfter(cfg, events)).payload| <= MAX_PAYLOAD
    requires |cfg.Start()| <= c <= |FinishedFile(cfg, StateAfter(cfg, events))|
    requires !EndsInMagic(FinishedFile(cfg, StateAfter(cfg, events))[..c])
    ensures Open(cfg.codec, FinishedFile(cfg, StateAfter(cfg, events))[..c]) == Ok(o)
    ensures |o.frames| <= |events|
    ensures forall i :: 0 <= i < |events| ==> (i < |o.frames| <==> EndOf(cfg, events, i) <= c)
    ensures forall i :: 0 <= i < |o.frames| ==>
      var d := FrameAt(cfg.codec, o, i);
      d.Ok? && ComesBackAs(d.value, events[i].snap, cfg.version, cfg.header.hardware)
  {
    hide *;
    assert ReadIndex(cfg.codec, FinishedFile(cfg, StateAfter(cfg, events))[..c], |cfg.Start()|) == Ok(None);
    o := CutRoundTrip(cfg, events, c);
  }
}
