/** Writing a recording: snapshots in, records out. */
module Recorder {
  import opened Basics
  import opened Model
  import opened Frame
  import opened FrameCode
  import opened Format

  /** `SweepIfDue` acts at every multiple of this number of frames. */
  const SWEEP_EVERY: nat := 64

  datatype Config = Config(codec: Codec, header: RecordHeader, keyframeEvery: nat, version: nat) {
    function KeyframeEvery(): nat {
      if keyframeEvery == 0 then 1 else keyframeEvery
    }

    function HeaderRecord(): Record {
      Record(Header, codec.ser(HeaderOf(header)))
    }

    /** The preamble and the header record, which every file starts with. */
    function Start(): seq<u8> {
      MAGIC + Le(version, 2) + RecordBytes(HeaderRecord())
    }
  }

  /** A recorder between two frames: the records written after the header, and what
      it keeps to write the next. */
  datatype State = State(
    records: seq<Record>,
    tables: Tables,
    index: Index,
    prev: Option<Snapshot>,
    sinceKey: nat,
    frames: nat)

  const CREATED: State := State([], NO_TABLES, Index([], []), None, 0, 0)

  /** The pending values of one table as a record's entries. */
  function Entries<T>(pending: seq<(nat, Arc<T>)>): (e: seq<(nat, T)>)
    ensures |e| == |pending|
  {
    seq(|pending|, i requires 0 <= i < |pending| => (pending[i].0, pending[i].1.value))
  }

  function StaticsV4Entries(pending: seq<(nat, Arc<ProcessStatic>)>): seq<(nat, ProcessStaticV4)> {
    seq(|pending|, i requires 0 <= i < |pending| => (pending[i].0, StaticToV4(pending[i].1.value)))
  }

  function AdaptersV3Entries(pending: seq<(nat, Arc<AdapterInfo>)>): seq<(nat, AdapterInfoV3)> {
    seq(|pending|, i requires 0 <= i < |pending| => (pending[i].0, AdapterToV3(pending[i].1.value)))
  }

  function StaticsPayload(version: nat, pending: seq<(nat, Arc<ProcessStatic>)>): Payload {
    if version >= 5 then StaticsOf(Entries(pending)) else StaticsV4Of(StaticsV4Entries(pending))
  }

  function AdaptersPayload(version: nat, pending: seq<(nat, Arc<AdapterInfo>)>): Payload {
    if version >= 4 then AdaptersOf(Entries(pending)) else AdaptersV3Of(AdaptersV3Entries(pending))
  }

  /** One table record, or none when nothing is pending: its kind and its payload
      before compression. */
  function Waiting(kind: Kind, count: nat, payload: Payload): (p: seq<(Kind, Payload)>)
    ensures |p| <= 1
  {
    if count == 0 then [] else [(kind, payload)]
  }

  /** The record of one of the seven tables, if anything waits in it. */
  function TablePayload(version: nat, t: Tables, i: nat): (p: seq<(Kind, Payload)>)
    ensures |p| <= 1
  {
    match i
    case 0 => Waiting(Statics, |t.statics.pending|, StaticsPayload(version, t.statics.pending))
    case 1 => Waiting(WindowsKind, |t.windows.pending|, WindowsOf(Entries(t.windows.pending)))
    case 2 => Waiting(ProcessServices, |t.processServices.pending|, ProcessServicesOf(Entries(t.processServices.pending)))
    case 3 => Waiting(Disks, |t.disks.pending|, DisksOf(Entries(t.disks.pending)))
    case 4 => Waiting(Adapters, |t.adapters.pending|, AdaptersPayload(version, t.adapters.pending))
    case 5 => Waiting(Gpus, |t.gpus.pending|, GpusOf(Entries(t.gpus.pending)))
    case 6 => Waiting(Services, |t.services.pending|, ServicesOf(Entries(t.services.pending)))
    case _ => []
  }

  function FirstPayloads(version: nat, t: Tables, n: nat): seq<(Kind, Payload)> {
    if n == 0 then [] else FirstPayloads(version, t, n - 1) + TablePayload(version, t, n - 1)
  }

  /** What a flush writes, in the order it writes it. */
  function TablePayloads(version: nat, t: Tables): seq<(Kind, Payload)> {
    FirstPayloads(version, t, 7)
  }

  function TableRecord(c: Codec, p: (Kind, Payload)): (r: Record)
    ensures r.kind == p.0
  {
    Record(p.0, Compress(c, c.ser(p.1)))
  }

  /** One record a table. */
  function TableRecords(c: Codec, ps: seq<(Kind, Payload)>): (records: seq<Record>)
    ensures |records| == |ps|
  {
    seq(|ps|, i requires 0 <= i < |ps| => TableRecord(c, ps[i]))
  }

  /** Where records go when the first is at `pos`. */
  function Offsets(pos: nat, records: seq<Record>): (o: seq<nat>)
    ensures |o| == |records|
  {
    seq(|records|, i requires 0 <= i < |records| => pos + |Bytes(records[..i])|)
  }

  lemma OffsetsSnoc(pos: nat, records: seq<Record>, r: Record)
    ensures Offsets(pos, records + [r]) == Offsets(pos, records) + [pos + |Bytes(records)|]
  {
    forall i | 0 <= i <= |records|
      ensures (records + [r])[..i] == records[..i]
    {
    }
  }

  function FramePayload(version: nat, f: EncodedFrame): Payload {
    if version >= 3 then FrameV3(f.body, f.extra, f.gpu)
    else if version >= 2 then FrameV2(f.body, f.extra)
    else FrameV1(f.body)
  }

  function FrameRecord(cfg: Config, snap: Snapshot, key: bool, f: EncodedFrame): Record {
    Record(if key then KeyFrame else DeltaFrame,
           FramePrefix(snap.tick, UnixMs(snap.takenAt)) + Compress(cfg.codec, cfg.codec.ser(FramePayload(cfg.version, f))))
  }

  /** Whether the next frame is a keyframe, and what a delta is taken from. */
  predicate IsKey(cfg: Config, st: State) {
    st.prev.None? || st.sinceKey >= cfg.KeyframeEvery()
  }

  function NextFrame(cfg: Config, st: State, snap: Snapshot): EncodedFrame {
    Encoded(snap, if IsKey(cfg, st) then None else st.prev, st.tables)
  }

  /** The table records that go in front of a snapshot's frame. Coming first is what lets a
      scan know every id by the time it meets the frame. */
  function NewTables(cfg: Config, st: State, snap: Snapshot): seq<Record> {
    TableRecords(cfg.codec, TablePayloads(cfg.version, NextFrame(cfg, st, snap).tables))
  }

  function NewFrame(cfg: Config, st: State, snap: Snapshot): Record {
    FrameRecord(cfg, snap, IsKey(cfg, st), NextFrame(cfg, st, snap))
  }

  /** The state after one more snapshot; `held` is where somebody other than the
      tables holds a pointer when they are swept. */
  function Wrote(cfg: Config, st: State, snap: Snapshot, held: set<nat>): State {
    var key := IsKey(cfg, st);
    var f := NextFrame(cfg, st, snap);
    var tables := NewTables(cfg, st, snap);
    var pos := |cfg.Start()| + |Bytes(st.records)|;
    var framePos := |cfg.Start()| + |Bytes(st.records + tables)|;
    var flushed := FlushedTables(f.tables);
    State(
      st.records + tables + [NewFrame(cfg, st, snap)],
      if (st.frames + 1) % SWEEP_EVERY == 0 then SweptTables(flushed, held) else flushed,
      Index(st.index.frames + [FrameEntry(framePos, key, snap.tick, UnixMs(snap.takenAt))],
            st.index.tables + Offsets(pos, tables)),
      Some(snap),
      if key then 1 else st.sinceKey + 1,
      st.frames + 1)
  }

  /** The file so far. */
  function File(cfg: Config, st: State): seq<u8> {
    cfg.Start() + Bytes(st.records)
  }

  function IndexRecord(cfg: Config, st: State): Record {
    Record(IndexKind, cfg.codec.ser(IndexOf(st.index)))
  }

  /** The whole file, with its index and trailer. */
  function FinishedFile(cfg: Config, st: State): seq<u8> {
    var r := IndexRecord(cfg, st);
    File(cfg, st) + RecordBytes(r) + Le(|r.payload|, 4) + INDEX_MAGIC
  }

  /** Small enough for a record's length field. */
  predicate Writable(records: seq<Record>) {
    forall i :: 0 <= i < |records| ==> |records[i].payload| < TWO_32
  }

  /** How many records get written before one too long. */
  function Fitting(records: seq<Record>): (n: nat)
    ensures n <= |records| && Writable(records[..n])
    ensures n < |records| ==> |records[n].payload| >= TWO_32
    ensures n == |records| <==> Writable(records)
  {
    if records == [] then 0
    else
      var n := Fitting(records[..|records| - 1]);
      if n < |records| - 1 || |records[n].payload| >= TWO_32 then n else n + 1
  }

  lemma {:induction false} FittingIs(records: seq<Record>, n: nat)
    requires n < |records| && Writable(records[..n]) && |records[n].payload| >= TWO_32
    ensures Fitting(records) == n
  {
    if n < |records| - 1 {
      var front := records[..|records| - 1];
      assert front[..n] == records[..n];
      FittingIs(front, n);
    } else {
      assert records[..n] == records[..|records| - 1];
    }
  }

  /** The state a snapshot leaves that could not be written: the tables that fit are in the
      file, the one that did not is named by the index all the same, and everything numbered
      on the way stays numbered and out of the queues. */
  function Broken(cfg: Config, st: State, snap: Snapshot): State {
    var tables := NewTables(cfg, st, snap);
    var n := Fitting(tables);
    State(
      st.records + tables[..n],
      FlushedTables(NextFrame(cfg, st, snap).tables),
      st.index.(tables := st.index.tables
                          + Offsets(|cfg.Start()| + |Bytes(st.records)|, tables[..if n < |tables| then n + 1 else n])),
      st.prev, st.sinceKey, st.frames)
  }

  /** One table record more: where it goes, and what stops it. */
  lemma NextTable(c: Codec, ps: seq<(Kind, Payload)>, pos: nat, i: nat)
    requires i < |ps|
    ensures var before, next, after := TableRecords(c, ps[..i]), [TableRecord(c, ps[i])], TableRecords(c, ps[..i + 1]);
      && after == before + next
      && Bytes(after) == Bytes(before) + Bytes(next)
      && Offsets(pos, after) == Offsets(pos, before) + [pos + |Bytes(before)|]
      && (Writable(before) && Writable(next) ==> Writable(after))
      && (Writable(before) && !Writable(next) ==> Fitting(TableRecords(c, ps)) == i)
      && before == TableRecords(c, ps)[..i] && after == TableRecords(c, ps)[..i + 1]
  {
    hide RecordBytes, Compress;
    var before, next, after := TableRecords(c, ps[..i]), [TableRecord(c, ps[i])], TableRecords(c, ps[..i + 1]);
    assert after == before + next;
    BytesAppend(before, next);
    OffsetsSnoc(pos, before, next[0]);
    var all := TableRecords(c, ps);
    assert all[i] == next[0];
    assert before == all[..i] && after == all[..i + 1];
    if Writable(before) && !Writable(next) {
      FittingIs(all, i);
    }
  }

  lemma {:induction false} BytesAppend(a: seq<Record>, b: seq<Record>)
    ensures Bytes(a + b) == Bytes(a) + Bytes(b)
  {
    hide RecordBytes;
    if b == [] {
      assert a + b == a;
    } else {
      var n := |b| - 1;
      BytesAppend(a, b[..n]);
      assert (a + b)[..|a + b| - 1] == a + b[..n];
    }
  }

  lemma BytesSnoc(records: seq<Record>, r: Record)
    ensures Bytes(records + [r]) == Bytes(records) + RecordBytes(r)
  {
    assert (records + [r])[..|records|] == records;
  }

  /** What appending one snapshot to `before` comes to. */
  ghost predicate Appends(cfg: Config, before: State, snap: Snapshot, held: set<nat>, r: Result<()>, after: State) {
    if Writable(NewTables(cfg, before, snap)) && Writable([NewFrame(cfg, before, snap)])
    then r == Ok(()) && after == Wrote(cfg, before, snap, held)
    else r == Err(Io) && after == Broken(cfg, before, snap)
  }

  lemma AppendFails(cfg: Config, before: State, snap: Snapshot, held: set<nat>, after: State)
    requires !Writable(NewTables(cfg, before, snap)) || !Writable([NewFrame(cfg, before, snap)])
    requires after == Broken(cfg, before, snap)
    ensures Appends(cfg, before, snap, held, Err(Io), after)
  {
    hide Broken, NewTables, NewFrame, Writable;
  }

  lemma AppendWorks(cfg: Config, before: State, snap: Snapshot, held: set<nat>, unswept: State, after: State)
    requires Writable(NewTables(cfg, before, snap)) && Writable([NewFrame(cfg, before, snap)])
    requires
      var f, added, frame := NextFrame(cfg, before, snap), NewTables(cfg, before, snap), NewFrame(cfg, before, snap);
      && unswept.records == before.records + added + [frame]
      && unswept.tables == FlushedTables(f.tables)
      && unswept.index == Index(
           before.index.frames + [FrameEntry(|cfg.Start()| + |Bytes(before.records + added)|, frame.kind == KeyFrame, snap.tick,
                                             UnixMs(snap.takenAt))],
           before.index.tables + Offsets(|cfg.Start()| + |Bytes(before.records)|, added))
      && unswept.prev == Some(snap)
      && unswept.sinceKey == (if frame.kind == KeyFrame then 1 else before.sinceKey + 1)
      && unswept.frames == before.frames + 1
    requires after == if unswept.frames % SWEEP_EVERY == 0 then unswept.(tables := SweptTables(unswept.tables, held)) else unswept
    ensures Appends(cfg, before, snap, held, Ok(()), after)
  {
    hide Encoded, TablePayloads, Compress, UnixMs, Offsets, SweptTables, Bytes, TableRecords, Writable, FlushedTables;
  }

  /** A file being written; `Abstract` is what `Wrote` and `Broken` are functions of. */
  class Recorder {
    const cfg: Config
    const tables: TableSet
    var out: seq<u8>
    /** `|out|`, which the index takes its offsets from. */
    var pos: nat
    var index: Index
    /** The snapshot written last; none makes the next a keyframe. */
    var prev: Option<Snapshot>
    /** One right after a keyframe; at the interval, the next is a keyframe. */
    var sinceKey: nat
    var frames: nat
    var finished: bool
    ghost var records: seq<Record>

    ghost predicate Valid()
      reads `pos, `out, `finished, `records
    {
      && pos == |out|
      && (!finished ==> out == cfg.Start() + Bytes(records))
    }

    ghost function Abstract(): State
      reads this, tables.Repr()
    {
      State(records, tables.State(), index, prev, sinceKey, frames)
    }

    lemma Placed()
      requires Valid() && !finished
      ensures pos == |cfg.Start()| + |Bytes(records)|
    {
    }

    /** Write the preamble and the header. */
    constructor (cfg: Config)
      ensures Valid() && fresh(tables.Repr()) && !finished
      ensures this.cfg == cfg && Abstract() == CREATED && out == cfg.Start()
    {
      this.cfg := cfg;
      tables := new TableSet();
      out := cfg.Start();
      pos := |cfg.Start()|;
      index := Index([], []);
      prev, sinceKey, frames, finished := None, 0, 0, false;
      records := [];
    }

    /** Append one record. */
    method Append(kind: Kind, payload: seq<u8>) returns (r: Result<()>)
      requires Valid() && !finished
      modifies this`out, this`pos, this`records
      ensures Valid()
      ensures if |payload| < TWO_32
        then r == Ok(()) && records == old(records) + [Record(kind, payload)] && pos == old(pos) + RECORD_HEADER_LEN + |payload|
        else r == Err(Io) && records == old(records)
    {
      var written := WriteRecord(out, kind, payload);
      if written.Err? {
        return Err(written.error);
      }
      out := written.value;
      pos := pos + RECORD_HEADER_LEN + |payload|;
      var record := Record(kind, payload);
      hide RecordBytes;
      BytesSnoc(records, record);
      assert out == cfg.Start() + (Bytes(records) + RecordBytes(record));
      records := records + [record];
      return Ok(());
    }

    /** One table record, and its offset in the index. */
    method WriteTable(kind: Kind, payload: Payload) returns (r: Result<()>)
      requires Valid() && !finished
      modifies this`out, this`pos, this`index, this`records
      ensures Valid() && index.frames == old(index.frames)
      ensures
        var added := [TableRecord(cfg.codec, (kind, payload))];
        if Writable(added) then
          && r == Ok(()) && records == old(records) + added
          && index.tables == old(index.tables) + [old(pos)]
          && pos == old(pos) + |Bytes(added)|
        else
          && r == Err(Io) && records == old(records)
          && index.tables == old(index.tables) + [old(pos)]
    {
      hide Compress, Valid, RecordBytes;
      var packed := Compress(cfg.codec, cfg.codec.ser(payload));
      ghost var added := [TableRecord(cfg.codec, (kind, payload))];
      assert added[0] == Record(kind, packed);
      BytesSnoc([], added[0]);
      index := index.(tables := index.tables + [pos]);
      r := Append(kind, packed);
    }

    /** Appends one record for each payload and its offset to the index, up to the first payload
        too long for a record. */
    method WriteTables(payloads: seq<(Kind, Payload)>) returns (r: Result<()>)
      requires Valid() && !finished
      modifies this`out, this`pos, this`index, this`records
      ensures Valid() && index.frames == old(index.frames)
      ensures
        var added := TableRecords(cfg.codec, payloads);
        if Writable(added) then
          && r == Ok(()) && records == old(records) + added
          && index.tables == old(index.tables) + Offsets(old(pos), added)
        else
          var n := Fitting(added);
          && r == Err(Io) && records == old(records) + added[..n]
          && index.tables == old(index.tables) + Offsets(old(pos), added[..n + 1])
    {
      ghost var c, at := cfg.codec, pos;
      assert Bytes([]) == [] && Offsets(pos, []) == [];
      assert TableRecords(c, payloads[..0]) == [];
      hide TableRecords, TableRecord, Valid, Bytes, Offsets, Writable;
      for i := 0 to |payloads|
        invariant Valid() && !finished && index.frames == old(index.frames)
        invariant var added := TableRecords(c, payloads[..i]);
          && records == old(records) + added && pos == at + |Bytes(added)|
          && index.tables == old(index.tables) + Offsets(at, added) && Writable(added)
      {
        NextTable(c, payloads, at, i);
        r := WriteTable(payloads[i].0, payloads[i].1);
        if r.Err? {
          return;
        }
      }
      assert payloads[..|payloads|] == payloads;
      return Ok(());
    }

    /** The next frame's tables and its own record, ready to be written. */
    method Prepare(snap: Snapshot) returns (payloads: seq<(Kind, Payload)>, frame: Record)
      modifies tables.Repr()
      ensures var f := NextFrame(cfg, old(Abstract()), snap);
        && payloads == TablePayloads(cfg.version, f.tables)
        && frame == FrameRecord(cfg, snap, IsKey(cfg, old(Abstract())), f)
        && tables.State() == FlushedTables(f.tables)
    {
      hide Encoded, TablePayloads, Compress, FramePrefix, UnixMs, TableSet.State, FlushedTables;
      var key := prev.None? || sinceKey >= cfg.KeyframeEvery();
      var body, extra, gpu := Encode(snap, if key then None else prev, tables);
      payloads := TablePayloads(cfg.version, tables.State());
      tables.TakePending();
      var raw := cfg.codec.ser(
        if cfg.version >= 3 then FrameV3(body, extra, gpu)
        else if cfg.version >= 2 then FrameV2(body, extra)
        else FrameV1(body));
      frame := Record(if key then KeyFrame else DeltaFrame,
                      FramePrefix(snap.tick, UnixMs(snap.takenAt)) + Compress(cfg.codec, raw));
    }

    /** Write a frame and the tables before it. */
    method WriteFrame(snap: Snapshot, payloads: seq<(Kind, Payload)>, frame: Record) returns (r: Result<()>)
      requires Valid() && !finished
      modifies this`out, this`pos, this`index, this`records, this`prev, this`sinceKey, this`frames
      ensures Valid()
      ensures
        var added := TableRecords(cfg.codec, payloads);
        if Writable(added) && Writable([frame]) then
          && r == Ok(())
          && records == old(records) + added + [frame]
          && index == Index(
               old(index.frames) + [FrameEntry(|cfg.Start()| + |Bytes(old(records) + added)|, frame.kind == KeyFrame, snap.tick,
                                               UnixMs(snap.takenAt))],
               old(index.tables) + Offsets(|cfg.Start()| + |Bytes(old(records))|, added))
          && prev == Some(snap)
          && sinceKey == (if frame.kind == KeyFrame then 1 else old(sinceKey) + 1)
          && frames == old(frames) + 1
        else
          var n := Fitting(added);
          && r == Err(Io) && records == old(records) + added[..n]
          && index == Index(
               old(index.frames),
               old(index.tables)
               + Offsets(|cfg.Start()| + |Bytes(old(records))|, added[..if n < |added| then n + 1 else n]))
          && prev == old(prev) && sinceKey == old(sinceKey) && frames == old(frames)
    {
      hide UnixMs, Offsets, Bytes, TableRecords, Valid, Config.Start;
      ghost var added := TableRecords(cfg.codec, payloads);
      Placed();
      r := WriteTables(payloads);
      assert index == Index(index.frames, index.tables);
      if r.Err? {
        return;
      }
      Placed();
      var offset := pos;
      assert [frame][0] == frame;
      r := Append(frame.kind, frame.payload);
      if r.Err? {
        assert Writable(added) && added[..|added|] == added;
        return;
      }
      index := index.(frames := index.frames + [FrameEntry(offset, frame.kind == KeyFrame, snap.tick, UnixMs(snap.takenAt))]);
      prev := Some(snap);
      sinceKey := if frame.kind == KeyFrame then 1 else sinceKey + 1;
      frames := frames + 1;
    }

    method SweepIfDue(held: set<nat>)
      modifies tables.Repr()
      ensures tables.State() == if frames % SWEEP_EVERY == 0 then SweptTables(old(tables.State()), held) else old(tables.State())
    {
      hide SweptTables, TableSet.State;
      if frames % SWEEP_EVERY == 0 {
        tables.Sweep(held);
      }
    }

    method AppendSnapshot(snap: Snapshot, held: set<nat>) returns (r: Result<()>)
      requires Valid() && !finished
      modifies this`out, this`pos, this`index, this`records, this`prev, this`sinceKey, this`frames, tables.Repr()
      ensures Valid()
      ensures Appends(cfg, old(Abstract()), snap, held, r, Abstract())
    {
      ghost var st := Abstract();
      hide NextFrame, TablePayloads, FrameRecord, UnixMs, Offsets, SweptTables, Bytes, TableRecords, Writable,
        Valid, TableSet.State, FlushedTables, IsKey, Config.Start, Appends;
      var payloads, frame := Prepare(snap);
      r := WriteFrame(snap, payloads, frame);
      ghost var unswept := Abstract();
      if r.Err? {
        AppendFails(cfg, st, snap, held, unswept);
      } else {
        SweepIfDue(held);
        AppendWorks(cfg, st, snap, held, unswept, Abstract());
      }
    }

    /** Append one frame. */
    method WriteShared(snap: Snapshot, held: set<nat>) returns (r: Result<()>)
      requires Valid()
      modifies this, tables.Repr()
      ensures Valid() && finished == old(finished)
      ensures if old(finished)
        then r == Err(Finished) && Abstract() == old(Abstract()) && out == old(out)
        else Appends(cfg, old(Abstract()), snap, held, r, Abstract())
    {
      hide Appends, TableSet.State, Valid;
      if finished {
        return Err(Finished);
      }
      r := AppendSnapshot(snap, held);
    }

    /** Makes the file a `FinishedFile`, the first time it is called. */
    method Finish() returns (r: Result<()>)
      requires Valid()
      modifies this
      ensures finished
      ensures old(finished) ==> r == Ok(()) && out == old(out)
      ensures !old(finished) ==>
        if |IndexRecord(cfg, old(Abstract())).payload| < TWO_32
        then r == Ok(()) && Valid() && out == FinishedFile(cfg, old(Abstract()))
        else r == Err(Io) && out == old(out)
    {
      if finished {
        return Ok(());
      }
      finished := true;
      var payload := cfg.codec.ser(IndexOf(index));
      if |payload| >= TWO_32 {
        return Err(Io);
      }
      var written := WriteRecord(out, IndexKind, payload);
      out := written.value + Le(|payload|, 4) + INDEX_MAGIC;
      pos := pos + RECORD_HEADER_LEN + |payload| + TRAILER_LEN;
      return Ok(());
    }
  }
}
