/** Loading the table records of a file, in order, gives the reader every value the
    writer numbered, under the id it was given. */
module RecordingTables {
  import opened Basics
  import opened Model
  import opened Table
  import opened Frame
  import opened FrameProofs
  import opened Format
  import opened Recorder
  import opened Recording
  import opened RecordingProofs

  /** The reader's tables hold just what `w` lists, as the version keeps it. */
  ghost predicate HoldsAll(r: Readers, w: Logs) {
    && Holds(r.statics.items, KeptStatics(r.version, w.statics))
    && Holds(r.windows.items, w.windows)
    && Holds(r.processServices.items, w.processServices)
    && Holds(r.disks.items, w.disks)
    && Holds(r.adapters.items, KeptAdapterInfos(r.version, w.adapters))
    && Holds(r.gpus.items, w.gpus)
    && Holds(r.services.items, w.services)
    && r.statics.empty == None && r.windows.empty == None && r.disks.empty == None
    && r.adapters.empty == None && r.gpus.empty == None
    && r.processServices.empty == Some([]) && r.services.empty == Some([])
  }

  lemma HoldsCovers(r: Readers, w: Logs)
    requires HoldsAll(r, w)
    ensures Covers(r, w)
  {
  }

  lemma EmptyHolds(version: nat)
    ensures HoldsAll(EmptyReaders(version), NO_LOGS)
  {
  }

  /** The values after the first `i` of the seven tables have been flushed. */
  function Mixed(t: Tables, w: Logs, i: nat): Logs {
    Logs(
      if i > 0 then Known(t.statics, w.statics) else w.statics,
      if i > 1 then Known(t.windows, w.windows) else w.windows,
      if i > 2 then Known(t.processServices, w.processServices) else w.processServices,
      if i > 3 then Known(t.disks, w.disks) else w.disks,
      if i > 4 then Known(t.adapters, w.adapters) else w.adapters,
      if i > 5 then Known(t.gpus, w.gpus) else w.gpus,
      if i > 6 then Known(t.services, w.services) else w.services)
  }

  lemma InsertPending<T>(items: map<nat, T>, w: Numbering<T>, written: seq<T>)
    requires Holds(items, written) && Sound(w, written)
    ensures Holds(Inserted(items, Entries(w.pending)), Known(w, written))
    ensures w.pending == [] ==> Known(w, written) == written
  {
    InsertHolds(items, written, Entries(w.pending), ValuesOf(w.pending));
  }

  lemma InsertStatics(version: nat, items: map<nat, ProcessStatic>, w: Numbering<ProcessStatic>, written: seq<ProcessStatic>)
    requires Holds(items, KeptStatics(version, written)) && Sound(w, written)
    ensures var p := StaticsPayload(version, w.pending);
      Holds(Inserted(items, if version >= 5 then p.statics else StaticsFromV4(p.staticsV4)), KeptStatics(version, Known(w, written)))
    ensures w.pending == [] ==> Known(w, written) == written
  {
    var p := StaticsPayload(version, w.pending);
    var entries := if version >= 5 then p.statics else StaticsFromV4(p.staticsV4);
    InsertHolds(items, KeptStatics(version, written), entries, KeptStatics(version, ValuesOf(w.pending)));
    assert KeptStatics(version, written) + KeptStatics(version, ValuesOf(w.pending)) == KeptStatics(version, Known(w, written));
  }

  lemma InsertAdapters(version: nat, items: map<nat, AdapterInfo>, w: Numbering<AdapterInfo>, written: seq<AdapterInfo>)
    requires Holds(items, KeptAdapterInfos(version, written)) && Sound(w, written)
    ensures var p := AdaptersPayload(version, w.pending);
      Holds(Inserted(items, if version >= 4 then p.adapters else AdaptersFromV3(p.adaptersV3)), KeptAdapterInfos(version, Known(w, written)))
    ensures w.pending == [] ==> Known(w, written) == written
  {
    var p := AdaptersPayload(version, w.pending);
    var entries := if version >= 4 then p.adapters else AdaptersFromV3(p.adaptersV3);
    InsertHolds(items, KeptAdapterInfos(version, written), entries, KeptAdapterInfos(version, ValuesOf(w.pending)));
    assert KeptAdapterInfos(version, written) + KeptAdapterInfos(version, ValuesOf(w.pending))
      == KeptAdapterInfos(version, Known(w, written));
  }

  /** The reader's tables after the record of table `i`, if there is one. */
  function AfterTable(r: Readers, t: Tables, i: nat): Readers {
    var p := TablePayload(r.version, t, i);
    if p == [] then r else Stored(r, p[0].1)
  }

  /** A table record, if there is one, is of the type its kind says. */
  predicate HasShape(version: nat, p: seq<(Kind, Payload)>) {
    p != [] ==> p[0].0.IsTable() && TableShape(version, p[0].0) == Some(ShapeOf(p[0].1))
  }

  lemma FirstTableLoads(r: Readers, t: Tables, w: Logs, i: nat)
    requires 0 <= i < 3 && AllSound(t, w) && HoldsAll(r, Mixed(t, w, i))
    ensures HoldsAll(AfterTable(r, t, i), Mixed(t, w, i + 1)) && AfterTable(r, t, i).version == r.version
    ensures HasShape(r.version, TablePayload(r.version, t, i))
  {
    hide Sound, Holds, Known, Inserted, Entries, KeptStatics, KeptAdapterInfos, StaticsFromV4, AdaptersFromV3,
      StaticsV4Entries, AdaptersV3Entries;
    match i
    case 0 => InsertStatics(r.version, r.statics.items, t.statics, w.statics);
    case 1 => InsertPending(r.windows.items, t.windows, w.windows);
    case 2 => InsertPending(r.processServices.items, t.processServices, w.processServices);
  }

  lemma MiddleTableLoads(r: Readers, t: Tables, w: Logs, i: nat)
    requires 3 <= i < 5 && AllSound(t, w) && HoldsAll(r, Mixed(t, w, i))
    ensures HoldsAll(AfterTable(r, t, i), Mixed(t, w, i + 1)) && AfterTable(r, t, i).version == r.version
    ensures HasShape(r.version, TablePayload(r.version, t, i))
  {
    hide Sound, Holds, Known, Inserted, Entries, KeptStatics, KeptAdapterInfos, StaticsFromV4, AdaptersFromV3,
      StaticsV4Entries, AdaptersV3Entries;
    match i
    case 3 => InsertPending(r.disks.items, t.disks, w.disks);
    case 4 => InsertAdapters(r.version, r.adapters.items, t.adapters, w.adapters);
  }

  lemma LastTableLoads(r: Readers, t: Tables, w: Logs, i: nat)
    requires 5 <= i < 7 && AllSound(t, w) && HoldsAll(r, Mixed(t, w, i))
    ensures HoldsAll(AfterTable(r, t, i), Mixed(t, w, i + 1)) && AfterTable(r, t, i).version == r.version
    ensures HasShape(r.version, TablePayload(r.version, t, i))
  {
    hide Sound, Holds, Known, Inserted, Entries, KeptStatics, KeptAdapterInfos, StaticsFromV4, AdaptersFromV3,
      StaticsV4Entries, AdaptersV3Entries;
    match i
    case 5 => InsertPending(r.gpus.items, t.gpus, w.gpus);
    case 6 => InsertPending(r.services.items, t.services, w.services);
  }

  /** Table `i`'s record leaves the reader with every value of that table. */
  lemma TableLoads(r: Readers, t: Tables, w: Logs, i: nat)
    requires i < 7 && AllSound(t, w) && HoldsAll(r, Mixed(t, w, i))
    ensures HoldsAll(AfterTable(r, t, i), Mixed(t, w, i + 1)) && AfterTable(r, t, i).version == r.version
    ensures HasShape(r.version, TablePayload(r.version, t, i))
  {
    hide *;
    if i < 3 {
      FirstTableLoads(r, t, w, i);
    } else if i < 5 {
      MiddleTableLoads(r, t, w, i);
    } else {
      LastTableLoads(r, t, w, i);
    }
  }

  /** A record a reader of this version takes: what it holds before compression and
      after both no larger than a reader allocates for. */
  predicate Fits(c: Codec, p: (Kind, Payload)) {
    |c.ser(p.1)| <= MAX_PAYLOAD && |Compress(c, c.ser(p.1))| <= MAX_PAYLOAD
  }

  lemma RecordLoads(c: Codec, r: Readers, p: (Kind, Payload))
    requires Faithful(c) && Fits(c, p) && TableShape(r.version, p.0) == Some(ShapeOf(p.1))
    ensures LoadedRecord(c, r, p.0, TableRecord(c, p).payload) == Ok(Stored(r, p.1))
  {
    CompressRoundTrip(c, c.ser(p.1));
  }

  predicate AllFit(c: Codec, ps: seq<(Kind, Payload)>) {
    forall i :: 0 <= i < |ps| ==> Fits(c, ps[i])
  }

  lemma SomeFit(c: Codec, ps: seq<(Kind, Payload)>, m: nat)
    requires AllFit(c, ps) && m <= |ps|
    ensures AllFit(c, ps[..m])
  {
    hide Fits;
  }

  lemma ShelvesSnoc(c: Codec, r: Readers, records: seq<Record>, last: Record)
    requires Shelves(c, r, records).Ok? && last.kind.IsTable()
    ensures Shelves(c, r, records + [last]) == LoadedRecord(c, Shelves(c, r, records).value, last.kind, last.payload)
  {
    hide LoadedRecord;
    assert (records + [last])[..|records|] == records;
  }

  lemma TableRecordsSnoc(c: Codec, ps: seq<(Kind, Payload)>, p: (Kind, Payload))
    ensures TableRecords(c, ps + [p]) == TableRecords(c, ps) + [TableRecord(c, p)]
  {
    hide TableRecord;
  }

  predicate AllTables(ps: seq<(Kind, Payload)>) {
    forall k :: 0 <= k < |ps| ==> ps[k].0.IsTable()
  }

  lemma TablesReadable(c: Codec, ps: seq<(Kind, Payload)>)
    requires AllTables(ps) && AllFit(c, ps)
    ensures AllReadable(TableRecords(c, ps))
  {
    hide Compress;
    forall i | 0 <= i < |ps|
      ensures Readable(TableRecords(c, ps)[i])
    {
      assert Fits(c, ps[i]) && ps[i].0.IsTable();
    }
  }

  /** The first `n` tables' records load, after everything written before. */
  ghost predicate FirstLoad(c: Codec, r: Readers, t: Tables, w: Logs, n: nat) {
    var ps := FirstPayloads(r.version, t, n);
    var s := Shelves(c, r, TableRecords(c, ps));
    s.Ok? && HoldsAll(s.value, Mixed(t, w, n)) && s.value.version == r.version
  }

  lemma {:induction false} TablesAreTables(version: nat, t: Tables, n: nat)
    requires n <= 7
    ensures AllTables(FirstPayloads(version, t, n))
  {
    hide Entries, StaticsPayload, AdaptersPayload;
    if n > 0 {
      TablesAreTables(version, t, n - 1);
    }
  }

  lemma NoTablesLoad(c: Codec, r: Readers, t: Tables, w: Logs)
    requires HoldsAll(r, w)
    ensures FirstLoad(c, r, t, w, 0)
  {
    hide HoldsAll, Known;
    assert TableRecords(c, FirstPayloads(r.version, t, 0)) == [];
    assert Mixed(t, w, 0) == w;
  }

  /** One table record more after those of `ps`. */
  lemma OneMoreLoads(c: Codec, r: Readers, ps: seq<(Kind, Payload)>, p: (Kind, Payload))
    requires Faithful(c) && Fits(c, p)
    requires var s := Shelves(c, r, TableRecords(c, ps)); s.Ok? && TableShape(s.value.version, p.0) == Some(ShapeOf(p.1))
    requires p.0.IsTable()
    ensures Shelves(c, r, TableRecords(c, ps + [p])) == Ok(Stored(Shelves(c, r, TableRecords(c, ps)).value, p.1))
  {
    hide LoadedRecord, Shelves, Stored, Fits, Faithful, TableShape, ShapeOf, Kind.IsTable, TableRecord, TableRecords;
    RecordLoads(c, Shelves(c, r, TableRecords(c, ps)).value, p);
    ShelvesSnoc(c, r, TableRecords(c, ps), TableRecord(c, p));
    TableRecordsSnoc(c, ps, p);
  }

  lemma NextTableLoads(c: Codec, r: Readers, t: Tables, w: Logs, n: nat)
    requires Faithful(c) && n < 7 && AllSound(t, w)
    requires AllFit(c, TablePayload(r.version, t, n)) && FirstLoad(c, r, t, w, n)
    ensures FirstLoad(c, r, t, w, n + 1)
  {
    var before, mine := FirstPayloads(r.version, t, n), TablePayload(r.version, t, n);
    assert FirstPayloads(r.version, t, n + 1) == before + mine;
    assert if mine == [] then before + mine == before else mine == [mine[0]];
    hide HoldsAll, AllSound, Mixed, TablePayload, Shelves, Stored, Fits, Faithful, TableShape, ShapeOf, Kind.IsTable,
      TableRecords, FirstPayloads;
    TableLoads(Shelves(c, r, TableRecords(c, before)).value, t, w, n);
    if mine != [] {
      OneMoreLoads(c, r, before, mine[0]);
    }
  }

  lemma {:induction false} FirstTablesLoad(c: Codec, r: Readers, t: Tables, w: Logs, n: nat)
    requires Faithful(c) && n <= 7 && AllSound(t, w) && HoldsAll(r, w)
    requires AllFit(c, FirstPayloads(r.version, t, n))
    ensures FirstLoad(c, r, t, w, n)
  {
    hide FirstLoad, HoldsAll, AllSound, Faithful, Fits, TablePayload;
    if n == 0 {
      NoTablesLoad(c, r, t, w);
    } else {
      var before, ps := FirstPayloads(r.version, t, n - 1), FirstPayloads(r.version, t, n);
      var mine := TablePayload(r.version, t, n - 1);
      assert ps == before + mine;
      assert forall k :: 0 <= k < |before| ==> before[k] == ps[k];
      assert forall k :: 0 <= k < |mine| ==> mine[k] == ps[|before| + k];
      FirstTablesLoad(c, r, t, w, n - 1);
      NextTableLoads(c, r, t, w, n - 1);
    }
  }

  /** Any number of a frame's table records leave at least what was written before
      them; all of them leave everything known. */
  lemma SomeTablesLoad(c: Codec, r: Readers, t: Tables, w: Logs, m: nat)
    requires Faithful(c) && AllSound(t, w) && HoldsAll(r, w)
    requires m <= |TablePayloads(r.version, t)| && AllFit(c, TablePayloads(r.version, t)[..m])
    ensures var s := Shelves(c, r, TableRecords(c, TablePayloads(r.version, t))[..m]);
      s.Ok? && Covers(s.value, w) && s.value.version == r.version
      && (m == |TablePayloads(r.version, t)| ==> HoldsAll(s.value, AllKnown(t, w)))
  {
    hide HoldsAll, AllSound, Covers, LoadedRecord, Compress, TablePayload, Shelves, Mixed, AllKnown;
    var n := Stage(r.version, t, m, 7);
    var ps, some := TablePayloads(r.version, t), FirstPayloads(r.version, t, n);
    assert ps[..m] == some;
    assert TableRecords(c, ps)[..m] == TableRecords(c, some);
    assert AllFit(c, some);
    FirstTablesLoad(c, r, t, w, n);
    var s := Shelves(c, r, TableRecords(c, some)).value;
    MixedCovers(s, t, w, n);
    if m == |ps| {
      assert ps[..m] == ps && TableRecords(c, ps)[..m] == TableRecords(c, ps);
      FirstTablesLoad(c, r, t, w, 7);
      MixedAll(t, w);
    }
  }

  lemma MixedAll(t: Tables, w: Logs)
    ensures Mixed(t, w, 7) == AllKnown(t, w)
  {
  }

  lemma MixedCovers(r: Readers, t: Tables, w: Logs, n: nat)
    requires HoldsAll(r, Mixed(t, w, n))
    ensures Covers(r, w)
  {
    hide Holds, KeptStatics, KeptAdapterInfos, Stocks;
    HoldsCovers(r, Mixed(t, w, n));
    CoversLess(r, w, Mixed(t, w, n));
  }

  /** How many tables the first `m` records are of. */
  lemma {:induction false} Stage(version: nat, t: Tables, m: nat, n: nat) returns (k: nat)
    requires m <= |FirstPayloads(version, t, n)|
    ensures k <= n && FirstPayloads(version, t, k) == FirstPayloads(version, t, n)[..m]
  {
    hide TablePayload;
    if m == |FirstPayloads(version, t, n)| {
      k := n;
      assert FirstPayloads(version, t, n)[..m] == FirstPayloads(version, t, n);
    } else {
      k := Stage(version, t, m, n - 1);
      assert FirstPayloads(version, t, n)[..m] == FirstPayloads(version, t, n - 1)[..m];
    }
  }
}
