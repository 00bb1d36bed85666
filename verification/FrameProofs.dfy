/** A frame decodes to the snapshot it was encoded from: with its thread rows in
    process order, and with what its format version does not carry at its default. */
module FrameProofs {
  import opened Basics
  import opened Model
  import opened Delta
  import opened Table
  import opened Frame

  // What a snapshot comes back as

  /** A pointer with its address forgotten: what it holds is all two snapshots of
      different programs can agree on. */
  function PlainArc<T>(a: Arc<T>): Arc<T> {
    Arc(0, a.value)
  }

  function PlainWindow(w: Option<Arc<WindowInfo>>): Option<Arc<WindowInfo>> {
    if w.None? then None else Some(PlainArc(w.value))
  }

  function PlainProcess(p: ProcessSample): ProcessSample {
    p.(statics := PlainArc(p.statics), window := PlainWindow(p.window), services := PlainArc(p.services))
  }

  function PlainDevices<I>(devices: seq<Device<I>>): seq<Device<I>> {
    seq(|devices|, i requires 0 <= i < |devices| => devices[i].(info := PlainArc(devices[i].info)))
  }

  function Plain(s: Snapshot): Snapshot {
    s.(processes := seq(|s.processes|, i requires 0 <= i < |s.processes| => PlainProcess(s.processes[i])),
       disks := PlainDevices(s.disks),
       adapters := PlainDevices(s.adapters),
       gpus := PlainDevices(s.gpus),
       services := PlainArc(s.services))
  }

  /** A process's facts as a file of format `version` keeps them. */
  function KeptStatic(version: nat, p: ProcessStatic): ProcessStatic {
    if version >= 5 then p else StaticFromV4(StaticToV4(p))
  }

  function KeptAdapter(version: nat, a: AdapterInfo): AdapterInfo {
    if version >= 4 then a else AdapterFromV3(AdapterToV3(a))
  }

  /** The thread rows of the first `n` processes, one after another. */
  function RowsBefore(s: Snapshot, n: nat): seq<ThreadSample>
    requires n <= |s.processes|
  {
    if n == 0 then [] else RowsBefore(s, n - 1) + ThreadRows(s, s.processes[n - 1])
  }

  /** As many thread rows in all as a thread range can count. */
  predicate Countable(s: Snapshot) {
    |RowsBefore(s, |s.processes|)| < TWO_32
  }

  /** CPU times that 64 bits of nanoseconds hold: below 584 years. */
  predicate CpuTimesFit(s: Snapshot) {
    forall i :: 0 <= i < |s.processes| ==> s.processes[i].cpuTimeNs < TWO_64
  }

  function AsU32(n: nat): u32 {
    if n < TWO_32 then n else 0
  }

  function KeptProcess(s: Snapshot, version: nat, i: nat): ProcessSample
    requires i < |s.processes|
  {
    var p := s.processes[i];
    PlainProcess(p).(
      statics := Arc(0, KeptStatic(version, p.statics.value)),
      privateWorkingSet := if version >= 2 then p.privateWorkingSet else 0,
      gpuShare := if version >= 3 then p.gpuShare else 0,
      gpuDedicated := if version >= 3 then p.gpuDedicated else 0,
      gpuShared := if version >= 3 then p.gpuShared else 0,
      threadFirst := AsU32(|RowsBefore(s, i)|),
      threadRows := AsU32(|ThreadRows(s, p)|))
  }

  function KeptAdapters(version: nat, devices: seq<Device<AdapterInfo>>): seq<Device<AdapterInfo>> {
    seq(|devices|, i requires 0 <= i < |devices| =>
      devices[i].(info := Arc(0, KeptAdapter(version, devices[i].info.value))))
  }

  /** `s` as a file of format `version` keeps it. */
  function Kept(s: Snapshot, version: nat, hardware: Hardware): Snapshot {
    Plain(s).(
      processes := seq(|s.processes|, i requires 0 <= i < |s.processes| => KeptProcess(s, version, i)),
      threads := RowsBefore(s, |s.processes|),
      adapters := KeptAdapters(version, s.adapters),
      hardware := hardware)
  }

  /** `d` is what `s` should come back as. */
  ghost predicate ComesBackAs(d: Snapshot, s: Snapshot, version: nat, hardware: Hardware) {
    Plain(d) == Kept(s, version, hardware)
  }

  // The tables together

  /** Per table, values in order of their ids. */
  datatype Logs = Logs(
    statics: seq<ProcessStatic>,
    windows: seq<WindowInfo>,
    processServices: seq<seq<ServiceInfo>>,
    disks: seq<DiskInfo>,
    adapters: seq<AdapterInfo>,
    gpus: seq<GpuInfo>,
    services: seq<seq<ServiceEntry>>)

  const NO_LOGS: Logs := Logs([], [], [], [], [], [], [])

  function AllKnown(t: Tables, w: Logs): Logs {
    Logs(Known(t.statics, w.statics), Known(t.windows, w.windows), Known(t.processServices, w.processServices),
         Known(t.disks, w.disks), Known(t.adapters, w.adapters), Known(t.gpus, w.gpus), Known(t.services, w.services))
  }

  predicate Grown(a: Logs, b: Logs) {
    && a.statics <= b.statics && a.windows <= b.windows && a.processServices <= b.processServices
    && a.disks <= b.disks && a.adapters <= b.adapters && a.gpus <= b.gpus && a.services <= b.services
  }

  ghost predicate AllSound(t: Tables, w: Logs) {
    && Sound(t.statics, w.statics) && Sound(t.windows, w.windows) && Sound(t.processServices, w.processServices)
    && Sound(t.disks, w.disks) && Sound(t.adapters, w.adapters) && Sound(t.gpus, w.gpus)
    && Sound(t.services, w.services)
  }

  /** What each live address holds, by the type of what is there. */
  datatype Memory = Memory(
    statics: map<nat, ProcessStatic>,
    windows: map<nat, WindowInfo>,
    processServices: map<nat, seq<ServiceInfo>>,
    disks: map<nat, DiskInfo>,
    adapters: map<nat, AdapterInfo>,
    gpus: map<nat, GpuInfo>,
    services: map<nat, seq<ServiceEntry>>)

  ghost predicate AllLive(t: Tables, m: Memory) {
    && Live(t.statics, m.statics) && Live(t.windows, m.windows) && Live(t.processServices, m.processServices)
    && Live(t.disks, m.disks) && Live(t.adapters, m.adapters) && Live(t.gpus, m.gpus) && Live(t.services, m.services)
  }

  ghost predicate ProcessPoints(p: ProcessSample, m: Memory) {
    && Points(p.statics, m.statics)
    && (p.window.Some? ==> Points(p.window.value, m.windows))
    && Points(p.services, m.processServices)
  }

  ghost predicate DevicesPoint<I>(devices: seq<Device<I>>, m: map<nat, I>) {
    forall i :: 0 <= i < |devices| ==> Points(devices[i].info, m)
  }

  /** Every pointer in `s` points to live memory. */
  ghost predicate SnapshotPoints(s: Snapshot, m: Memory) {
    && (forall i :: 0 <= i < |s.processes| ==> ProcessPoints(s.processes[i], m))
    && DevicesPoint(s.disks, m.disks) && DevicesPoint(s.adapters, m.adapters) && DevicesPoint(s.gpus, m.gpus)
    && Points(s.services, m.services)
  }

  // What encoding leaves in the rows and the tables

  predicate DenotesSlice<U(==)>(known: seq<seq<U>>, id: nat, v: seq<U>) {
    if |v| == 0 then id == EMPTY else Denotes(known, id, v)
  }

  predicate DenotesWindow(known: seq<WindowInfo>, id: Option<nat>, w: Option<Arc<WindowInfo>>) {
    if w.None? then id.None? else id.Some? && Denotes(known, id.value, w.value.value)
  }

  /** The row's ids stand for the process's shared values. */
  predicate Refers(row: Row, p: ProcessSample, known: Logs) {
    && Denotes(known.statics, row.statics, p.statics.value)
    && DenotesWindow(known.windows, row.window, p.window)
    && DenotesSlice(known.processServices, row.services, p.services.value)
  }

  /** Row `k` and what goes beside it are the encoding of process `k`. */
  predicate Encodes(e: Draft, k: nat, snap: Snapshot, prev: Option<Snapshot>)
    requires e.Even() && k < |e.rows| <= |snap.processes|
  {
    var p := snap.processes[k];
    var was := Was(prev, p);
    && e.rows[k] == EncodeRow(snap, p, prev, e.rows[k].statics, e.rows[k].window, e.rows[k].services)
    && e.private[k] == DiffU64(p.privateWorkingSet, was.privateWorkingSet)
    && e.share[k] == XorBits(p.gpuShare, was.gpuShare)
    && e.dedicated[k] == DiffU64(p.gpuDedicated, was.gpuDedicated)
    && e.shared[k] == DiffU64(p.gpuShared, was.gpuShared)
  }

  lemma NumberSliceSound<U>(w: Numbering<seq<U>>, written: seq<seq<U>>, a: Arc<seq<U>>, mem: map<nat, seq<U>>)
    requires Sound(w, written) && Live(w, mem) && Points(a, mem)
    ensures var (w', id) := NumberedOrEmpty(w, a);
      && Sound(w', written) && Live(w', mem)
      && Known(w, written) <= Known(w', written)
      && DenotesSlice(Known(w', written), id, a.value)
  {
    if |a.value| > 0 {
      NumberSound(w, written, a, mem);
    }
  }

  lemma NumberWindowSound(w: Numbering<WindowInfo>, written: seq<WindowInfo>, a: Option<Arc<WindowInfo>>, mem: map<nat, WindowInfo>)
    requires Sound(w, written) && Live(w, mem) && (a.Some? ==> Points(a.value, mem))
    ensures var (w', id) := NumberWindow(w, a);
      && Sound(w', written) && Live(w', mem)
      && Known(w, written) <= Known(w', written)
      && DenotesWindow(Known(w', written), id, a)
  {
    if a.Some? {
      NumberSound(w, written, a.value, mem);
    }
  }

  lemma EncodeNextSound(e: Draft, snap: Snapshot, p: ProcessSample, prev: Option<Snapshot>, w: Logs, m: Memory)
    requires e.Even() && AllSound(e.tables, w) && AllLive(e.tables, m) && ProcessPoints(p, m)
    ensures var e' := EncodeNext(e, snap, p, prev);
      && AllSound(e'.tables, w) && AllLive(e'.tables, m)
      && Grown(AllKnown(e.tables, w), AllKnown(e'.tables, w))
      && e'.rows != [] && Refers(e'.rows[|e'.rows| - 1], p, AllKnown(e'.tables, w))
  {
    hide Sound, Live, Known, Points, Denotes, Numbered, NumberWindow, NumberedOrEmpty, DenotesWindow, DenotesSlice;
    NumberSound(e.tables.statics, w.statics, p.statics, m.statics);
    NumberWindowSound(e.tables.windows, w.windows, p.window, m.windows);
    NumberSliceSound(e.tables.processServices, w.processServices, p.services, m.processServices);
  }

  lemma RefersStill(row: Row, p: ProcessSample, a: Logs, b: Logs)
    requires Refers(row, p, a) && Grown(a, b)
    ensures Refers(row, p, b)
  {
  }

  /** The rows' ids stand for the processes' shared values, row by row. */
  predicate AllRefer(rows: seq<Row>, ps: seq<ProcessSample>, known: Logs) {
    |rows| <= |ps| && forall k :: 0 <= k < |rows| ==> Refers(rows[k], ps[k], known)
  }

  lemma AllReferStill(rows: seq<Row>, ps: seq<ProcessSample>, a: Logs, b: Logs)
    requires AllRefer(rows, ps, a) && Grown(a, b)
    ensures AllRefer(rows, ps, b)
  {
    forall k | 0 <= k < |rows|
      ensures Refers(rows[k], ps[k], b)
    {
      RefersStill(rows[k], ps[k], a, b);
    }
  }

  lemma GrownTransitive(a: Logs, b: Logs, c: Logs)
    requires Grown(a, b) && Grown(b, c)
    ensures Grown(a, c)
  {
  }

  lemma {:induction false} EncodeRowsSound(snap: Snapshot, prev: Option<Snapshot>, t: Tables, w: Logs, m: Memory, n: nat)
    requires n <= |snap.processes|
    requires AllSound(t, w) && AllLive(t, m) && SnapshotPoints(snap, m)
    ensures var e := EncodeRows(snap, prev, t, n);
      && AllSound(e.tables, w) && AllLive(e.tables, m)
      && Grown(AllKnown(t, w), AllKnown(e.tables, w))
      && AllRefer(e.rows, snap.processes, AllKnown(e.tables, w))
  {
    hide AllSound, AllLive, ProcessPoints, Refers, AllKnown, EncodeNext;
    if n > 0 {
      var p := snap.processes[n - 1];
      var e := EncodeRows(snap, prev, t, n - 1);
      var e' := EncodeNext(e, snap, p, prev);
      EncodeRowsSound(snap, prev, t, w, m, n - 1);
      EncodeNextSound(e, snap, p, prev, w, m);
      var known, known' := AllKnown(e.tables, w), AllKnown(e'.tables, w);
      GrownTransitive(AllKnown(t, w), known, known');
      hide Grown, EncodeRows;
      AllReferStill(e.rows, snap.processes, known, known');
      forall k | 0 <= k < n
        ensures Refers(e'.rows[k], snap.processes[k], known')
      {
        assert k < n - 1 ==> e'.rows[k] == e.rows[k];
      }
    }
  }

  lemma EncodeNextEncodes(e: Draft, snap: Snapshot, k: nat, prev: Option<Snapshot>)
    requires e.Even() && |e.rows| == k < |snap.processes|
    ensures Encodes(EncodeNext(e, snap, snap.processes[k], prev), k, snap, prev)
  {
    hide Numbered, NumberWindow, NumberedOrEmpty, DiffProcess, EncodeThreads, ThreadRows, OnWire, Was;
  }

  lemma {:induction false} EncodeRowsEncodes(snap: Snapshot, prev: Option<Snapshot>, t: Tables, n: nat)
    requires n <= |snap.processes|
    ensures forall k :: 0 <= k < n ==> Encodes(EncodeRows(snap, prev, t, n), k, snap, prev)
  {
    hide EncodeNext, EncodeRow, Was;
    if n > 0 {
      EncodeRowsEncodes(snap, prev, t, n - 1);
      var e := EncodeRows(snap, prev, t, n - 1);
      EncodeNextEncodes(e, snap, n - 1, prev);
      var e' := EncodeNext(e, snap, snap.processes[n - 1], prev);
      forall k | 0 <= k < n - 1
        ensures Encodes(e', k, snap, prev)
      {
        assert Encodes(e, k, snap, prev);
      }
    }
  }

  lemma {:induction false} NumberDevicesSound<I>(w: Numbering<I>, written: seq<I>, devices: seq<Device<I>>, mem: map<nat, I>, n: nat)
    requires n <= |devices|
    requires Sound(w, written) && Live(w, mem) && DevicesPoint(devices, mem)
    ensures var (w', ids) := NumberDevices(w, devices, n);
      && Sound(w', written) && Live(w', mem)
      && Known(w, written) <= Known(w', written)
      && (forall k :: 0 <= k < n ==> Denotes(Known(w', written), ids[k], devices[k].info.value))
  {
    hide Sound, Live, Points, Known, Numbered;
    if n > 0 {
      NumberDevicesSound(w, written, devices, mem, n - 1);
      var (w', _) := NumberDevices(w, devices, n - 1);
      NumberSound(w', written, devices[n - 1].info, mem);
    }
  }

  /** The ids of a device list stand for the devices' facts. */
  ghost predicate DevicesRefer<I>(ids: seq<nat>, devices: seq<Device<I>>, known: seq<I>) {
    && |ids| == |devices|
    && forall k :: 0 <= k < |ids| ==> Denotes(known, ids[k], devices[k].info.value)
  }

  /** All a frame's ids stand for the values they were given for. */
  ghost predicate FrameRefers(f: EncodedFrame, snap: Snapshot, known: Logs) {
    && |f.body.processes| == |snap.processes|
    && AllRefer(f.body.processes, snap.processes, known)
    && DevicesRefer(f.body.diskInfos, snap.disks, known.disks)
    && DevicesRefer(f.body.adapterInfos, snap.adapters, known.adapters)
    && DevicesRefer(f.body.gpuInfos, snap.gpus, known.gpus)
    && DenotesSlice(known.services, f.body.services, snap.services.value)
  }

  /** Encoding keeps the tables sound, forgets no value, and refers to each shared
      value by an id that stands for it. */
  lemma EncodedSound(snap: Snapshot, prev: Option<Snapshot>, t: Tables, w: Logs, m: Memory)
    requires AllSound(t, w) && AllLive(t, m) && SnapshotPoints(snap, m)
    ensures var f := Encoded(snap, prev, t);
      && AllSound(f.tables, w) && AllLive(f.tables, m)
      && Grown(AllKnown(t, w), AllKnown(f.tables, w))
      && FrameRefers(f, snap, AllKnown(f.tables, w))
  {
    hide Sound, Live, Known, Points, Refers, Denotes, EncodeRows, NumberDevices, NumberedOrEmpty, DenotesSlice;
    var n := |snap.processes|;
    EncodeRowsSound(snap, prev, t, w, m, n);
    var e := EncodeRows(snap, prev, t, n);
    NumberDevicesSound(e.tables.disks, w.disks, snap.disks, m.disks, |snap.disks|);
    NumberDevicesSound(e.tables.adapters, w.adapters, snap.adapters, m.adapters, |snap.adapters|);
    NumberDevicesSound(e.tables.gpus, w.gpus, snap.gpus, m.gpus, |snap.gpus|);
    NumberSliceSound(e.tables.services, w.services, snap.services, m.services);
    var f := Encoded(snap, prev, t);
    AllReferStill(e.rows, snap.processes, AllKnown(e.tables, w), AllKnown(f.tables, w));
  }

  // What decoding finds

  /** The shelf has at least the values of `known`, each under its id. */
  ghost predicate Stocks<T>(items: map<nat, T>, known: seq<T>) {
    forall id :: 1 <= id <= |known| ==> id in items && items[id] == known[id - 1]
  }

  function KeptStatics(version: nat, log: seq<ProcessStatic>): seq<ProcessStatic> {
    seq(|log|, i requires 0 <= i < |log| => KeptStatic(version, log[i]))
  }

  function KeptAdapterInfos(version: nat, log: seq<AdapterInfo>): seq<AdapterInfo> {
    seq(|log|, i requires 0 <= i < |log| => KeptAdapter(version, log[i]))
  }

  /** The reader's tables have everything in `known`, as the version keeps it. */
  ghost predicate Covers(r: Readers, known: Logs) {
    && Stocks(r.statics.items, KeptStatics(r.version, known.statics))
    && Stocks(r.windows.items, known.windows)
    && Stocks(r.processServices.items, known.processServices)
    && Stocks(r.disks.items, known.disks)
    && Stocks(r.adapters.items, KeptAdapterInfos(r.version, known.adapters))
    && Stocks(r.gpus.items, known.gpus)
    && Stocks(r.services.items, known.services)
    && r.statics.empty == None && r.windows.empty == None && r.disks.empty == None
    && r.adapters.empty == None && r.gpus.empty == None
    && r.processServices.empty == Some([]) && r.services.empty == Some([])
  }

  lemma CoversLess(r: Readers, a: Logs, b: Logs)
    requires Covers(r, b) && Grown(a, b)
    ensures Covers(r, a)
  {
    assert KeptStatics(r.version, a.statics) <= KeptStatics(r.version, b.statics);
    assert KeptAdapterInfos(r.version, a.adapters) <= KeptAdapterInfos(r.version, b.adapters);
  }

  /** The two snapshots list the same processes in the same order. */
  predicate SameKeys(a: seq<ProcessSample>, b: seq<ProcessSample>) {
    |a| == |b| && forall i :: 0 <= i < |a| ==> a[i].Key() == b[i].Key()
  }

  lemma {:induction false} ByKeyOnlyKeys(a: seq<ProcessSample>, b: seq<ProcessSample>)
    requires SameKeys(a, b)
    ensures ByKey(a) == ByKey(b)
  {
    if a != [] {
      ByKeyOnlyKeys(a[..|a| - 1], b[..|b| - 1]);
    }
  }

  lemma {:induction false} RowsSlice(s: Snapshot, i: nat, n: nat)
    requires i < n <= |s.processes|
    ensures |RowsBefore(s, i)| + |ThreadRows(s, s.processes[i])| <= |RowsBefore(s, n)|
    ensures RowsBefore(s, n)[|RowsBefore(s, i)|..|RowsBefore(s, i)| + |ThreadRows(s, s.processes[i])|]
      == ThreadRows(s, s.processes[i])
  {
    hide ThreadRows;
    var from := |RowsBefore(s, i)|;
    var to := from + |ThreadRows(s, s.processes[i])|;
    var shorter := RowsBefore(s, n - 1);
    assert RowsBefore(s, n) == shorter + ThreadRows(s, s.processes[n - 1]);
    if i + 1 < n {
      RowsSlice(s, i, n - 1);
      assert RowsBefore(s, n)[from..to] == shorter[from..to];
    }
  }

  /** The frame before, as the encoder has it and as the decoder has it. */
  ghost predicate SameBase(prev: Option<Snapshot>, back: Option<Snapshot>, version: nat, hardware: Hardware) {
    && (prev.Some? <==> back.Some?)
    && (prev.Some? ==> Countable(prev.value) && ComesBackAs(back.value, prev.value, version, hardware))
  }

  lemma KeptKey(s: Snapshot, version: nat, i: nat)
    requires i < |s.processes|
    ensures KeptProcess(s, version, i).Key() == s.processes[i].Key()
  {
  }

  lemma ProcessesComeBack(a: Snapshot, b: Snapshot, version: nat, hardware: Hardware)
    requires ComesBackAs(b, a, version, hardware)
    ensures |b.processes| == |a.processes| && b.threads == RowsBefore(a, |a.processes|)
    ensures forall i :: 0 <= i < |a.processes| ==> PlainProcess(b.processes[i]) == KeptProcess(a, version, i)
    ensures ByKey(a.processes) == ByKey(b.processes)
  {
    hide RowsBefore, KeptProcess;
    assert |b.processes| == |Plain(b).processes| == |Kept(a, version, hardware).processes|;
    forall i | 0 <= i < |a.processes|
      ensures PlainProcess(b.processes[i]) == KeptProcess(a, version, i)
      ensures b.processes[i].Key() == a.processes[i].Key()
    {
      assert Plain(b).processes[i] == Kept(a, version, hardware).processes[i];
      assert PlainProcess(b.processes[i]).Key() == b.processes[i].Key();
      KeptKey(a, version, i);
    }
    ByKeyOnlyKeys(a.processes, b.processes);
  }

  lemma RangeComesBack(a: Snapshot, b: Snapshot, p: ProcessSample, version: nat, i: nat)
    requires i < |a.processes| && Countable(a) && b.threads == RowsBefore(a, |a.processes|)
    requires PlainProcess(p) == KeptProcess(a, version, i)
    ensures ThreadRows(b, p) == ThreadRows(a, a.processes[i])
  {
    hide KeptStatic, PlainWindow;
    var first, rows := |RowsBefore(a, i)|, |ThreadRows(a, a.processes[i])|;
    RowsSlice(a, i, |a.processes|);
    assert PlainProcess(p).threadFirst == p.threadFirst && PlainProcess(p).threadRows == p.threadRows;
    assert p.threadFirst == first && p.threadRows == rows;
  }

  /** Both find a process's base at the same place, with the same numbers and the same
      thread rows, wherever those rows now are. */
  lemma BaseComesBack(prev: Option<Snapshot>, back: Option<Snapshot>, version: nat, hardware: Hardware, key: ProcessKey)
    requires SameBase(prev, back, version, hardware)
    ensures BaseIndex(back, key) == BaseIndex(prev, key)
    ensures BaseIndex(prev, key).Some? ==>
      var i := BaseIndex(prev, key).value;
      && PlainProcess(back.value.processes[i]) == KeptProcess(prev.value, version, i)
      && ThreadRows(back.value, back.value.processes[i]) == ThreadRows(prev.value, prev.value.processes[i])
  {
    if prev.Some? {
      var a, b := prev.value, back.value;
      ProcessesComeBack(a, b, version, hardware);
      hide ByKey, ComesBackAs;
      var base := BaseIndex(prev, key);
      if base.Some? {
        RangeComesBack(a, b, b.processes[base.value], version, base.value);
      }
    }
  }

  /** A process's own numbers as a file of format `version` keeps them. */
  function KeptNumbers(version: nat, p: ProcessSample): ProcessSample {
    Unshared(p).(
      privateWorkingSet := if version >= 2 then p.privateWorkingSet else 0,
      gpuShare := if version >= 3 then p.gpuShare else 0,
      gpuDedicated := if version >= 3 then p.gpuDedicated else 0,
      gpuShared := if version >= 3 then p.gpuShared else 0)
  }

  /** What goes beside the body for one process, as far as the version has it. */
  function AddedFor(version: nat, p: ProcessSample, was: ProcessSample): Added {
    Added(
      if version >= 2 then Some(DiffU64(p.privateWorkingSet, was.privateWorkingSet)) else None,
      if version >= 3
      then Some((XorBits(p.gpuShare, was.gpuShare), DiffU64(p.gpuDedicated, was.gpuDedicated), DiffU64(p.gpuShared, was.gpuShared)))
      else None)
  }

  lemma AddedRoundTrip(version: nat, p: ProcessSample, was: ProcessSample, sample: ProcessSample, before: ProcessSample)
    requires KeptNumbers(version, was) == KeptNumbers(version, before)
    requires Unshared(sample) == KeptNumbers(version, p).(
      privateWorkingSet := sample.privateWorkingSet, gpuShare := sample.gpuShare,
      gpuDedicated := sample.gpuDedicated, gpuShared := sample.gpuShared)
    requires version < 2 ==> sample.privateWorkingSet == 0
    requires version < 3 ==> sample.gpuShare == 0 && sample.gpuDedicated == 0 && sample.gpuShared == 0
    ensures Unshared(AddedFor(version, p, was).Apply(sample, before)) == KeptNumbers(version, p)
  {
    if version >= 2 {
      assert KeptNumbers(version, was).privateWorkingSet == was.privateWorkingSet;
      assert KeptNumbers(version, before).privateWorkingSet == before.privateWorkingSet;
    }
    if version >= 3 {
      assert KeptNumbers(version, was).gpuShare == was.gpuShare;
      assert KeptNumbers(version, was).gpuDedicated == was.gpuDedicated;
      assert KeptNumbers(version, was).gpuShared == was.gpuShared;
    }
  }

  /** A full row: the sample as serialized, and what was skipped from beside it. */
  lemma FullRoundTrip(version: nat, p: ProcessSample)
    ensures Unshared(AddedFor(version, p, NO_SAMPLE).Apply(OnWire(p), NO_SAMPLE)) == KeptNumbers(version, p)
  {
    AddedRoundTrip(version, p, NO_SAMPLE, OnWire(p), NO_SAMPLE);
  }

  /** A delta row, over a base that came back as the encoder's base should. */
  lemma ChangesRoundTrip(version: nat, p: ProcessSample, before: ProcessSample, held: ProcessSample)
    requires p.cpuTimeNs < TWO_64
    requires Unshared(held) == KeptNumbers(version, before)
    ensures Unshared(AddedFor(version, p, before).Apply(ApplyProcess(held, DiffProcess(p, before)), held))
      == KeptNumbers(version, p)
  {
    hide DiffProcess, ApplyProcess;
    ProcessRoundTrip(p, before, held);
    assert KeptNumbers(version, before) == KeptNumbers(version, held);
    AddedRoundTrip(version, p, before, ApplyProcess(held, DiffProcess(p, before)), held);
  }

  lemma ThreadsRoundTrip(rows: seq<ThreadSample>, prevRows: seq<ThreadSample>)
    ensures DecodeThreads(EncodeThreads(rows, prevRows), prevRows) == Ok(rows)
  {
    if SameThreads(rows, prevRows) {
      RowsRoundTrip(rows, prevRows);
    }
  }

  /** One row's numbers and threads. */
  lemma SampleRoundTrip(
    snap: Snapshot, prev: Option<Snapshot>, back: Option<Snapshot>, p: ProcessSample, row: Row,
    known: Logs, r: Readers, hardware: Hardware)
    requires p.cpuTimeNs < TWO_64
    requires SameBase(prev, back, r.version, hardware)
    requires Covers(r, known) && Refers(row, p, known)
    requires row == EncodeRow(snap, p, prev, row.statics, row.window, row.services)
    ensures var d := DecodeSample(row, AddedFor(r.version, p, Was(prev, p)), back, r);
      && d.Ok? && d.value.1 == ThreadRows(snap, p)
      && Unshared(d.value.0) == KeptNumbers(r.version, p)
  {
    BaseComesBack(prev, back, r.version, hardware, p.Key());
    var base := BaseIndex(prev, p.Key());
    var facts := Arc(row.statics, KeptStatic(r.version, p.statics.value));
    assert r.statics.Get(row.statics) == Ok(facts) && facts.value.key == p.Key();
    hide Covers, Refers, ThreadRows, BaseIndex, SameBase, KeptProcess, EncodeThreads, DecodeThreads, AddedFor, Shelf.Get;
    if base.Some? {
      var before, held := prev.value.processes[base.value], back.value.processes[base.value];
      assert Unshared(held) == KeptNumbers(r.version, before) by {
        UnsharedOfPlain(prev.value, r.version, base.value, held);
      }
      ChangesRoundTrip(r.version, p, before, held);
      ThreadsRoundTrip(ThreadRows(snap, p), ThreadRows(prev.value, before));
      hide Unshared, KeptNumbers, ApplyProcess, DiffProcess, Added.Apply;
    } else {
      FullRoundTrip(r.version, p);
    }
  }

  lemma UnsharedOfPlain(s: Snapshot, version: nat, i: nat, held: ProcessSample)
    requires i < |s.processes| && PlainProcess(held) == KeptProcess(s, version, i)
    ensures Unshared(held) == KeptNumbers(version, s.processes[i])
  {
    hide RowsBefore, ThreadRows, KeptStatic;
    assert Unshared(held) == Unshared(PlainProcess(held));
  }

  /** One process, row by row. */
  lemma RowRoundTrip(
    snap: Snapshot, prev: Option<Snapshot>, back: Option<Snapshot>, k: nat, row: Row,
    known: Logs, r: Readers, hardware: Hardware)
    requires k < |snap.processes| && snap.processes[k].cpuTimeNs < TWO_64
    requires SameBase(prev, back, r.version, hardware)
    requires Covers(r, known) && Refers(row, snap.processes[k], known)
    requires row == EncodeRow(snap, snap.processes[k], prev, row.statics, row.window, row.services)
    ensures var d := DecodeRow(row, AddedFor(r.version, snap.processes[k], Was(prev, snap.processes[k])), back, r);
      && d.Ok? && d.value.1 == ThreadRows(snap, snap.processes[k])
      && PlainProcess(d.value.0).(threadFirst := 0, threadRows := 0)
         == KeptProcess(snap, r.version, k).(threadFirst := 0, threadRows := 0)
  {
    var p := snap.processes[k];
    SampleRoundTrip(snap, prev, back, p, row, known, r, hardware);
    var added := AddedFor(r.version, p, Was(prev, p));
    var (sample, rows) := DecodeSample(row, added, back, r).value;
    hide DecodeSample, AddedFor, Was, EncodeRow, SameBase, ThreadRows, RowsBefore;
    var statics := Arc(row.statics, KeptStatic(r.version, p.statics.value));
    assert r.statics.Get(row.statics) == Ok(statics);
    var d := DecodeRow(row, added, back, r);
    assert d.Ok? && d.value.1 == rows;
    assert d.value.0.statics == statics && PlainWindow(d.value.0.window) == PlainWindow(p.window);
    assert PlainArc(d.value.0.services) == PlainArc(p.services);
    assert Unshared(d.value.0) == Unshared(sample);
  }

  /** The bodies and what goes beside them, for a frame of format `version`. */
  function ExtraFor(version: nat, f: EncodedFrame): Option<Extra> {
    if version >= 2 then Some(f.extra) else None
  }

  function GpuFor(version: nat, f: EncodedFrame): Option<GpuExtra> {
    if version >= 3 then Some(f.gpu) else None
  }

  /** Row `k` decodes to process `k`, but for where its threads are. */
  ghost predicate RowDecodes(body: Body, extra: Option<Extra>, gpu: Option<GpuExtra>, back: Option<Snapshot>, r: Readers, snap: Snapshot, k: nat)
    requires CountsAgree(body, extra, gpu) && k < |body.processes| == |snap.processes|
  {
    var d := DecodeRow(body.processes[k], AddedAt(extra, gpu, k), back, r);
    && d.Ok? && d.value.1 == ThreadRows(snap, snap.processes[k])
    && PlainProcess(d.value.0).(threadFirst := 0, threadRows := 0)
       == KeptProcess(snap, r.version, k).(threadFirst := 0, threadRows := 0)
  }

  lemma EveryRowDecodes(
    snap: Snapshot, prev: Option<Snapshot>, back: Option<Snapshot>, t: Tables,
    known: Logs, r: Readers, hardware: Hardware, k: nat)
    requires k < |snap.processes| && CpuTimesFit(snap)
    requires SameBase(prev, back, r.version, hardware)
    requires Covers(r, known)
    requires FrameRefers(Encoded(snap, prev, t), snap, known)
    ensures var f := Encoded(snap, prev, t);
      && CountsAgree(f.body, ExtraFor(r.version, f), GpuFor(r.version, f))
      && RowDecodes(f.body, ExtraFor(r.version, f), GpuFor(r.version, f), back, r, snap, k)
  {
    hide Covers, SameBase, KeptProcess, Refers, DecodeRow, EncodeRows, EncodeRow, Was, PlainProcess, ThreadRows,
      NumberDevices, NumberedOrEmpty, DenotesSlice, DevicesRefer, DevicesOnWire;
    var f := Encoded(snap, prev, t);
    EncodeRowsEncodes(snap, prev, t, |snap.processes|);
    assert Encodes(EncodeRows(snap, prev, t, |snap.processes|), k, snap, prev);
    RowRoundTrip(snap, prev, back, k, f.body.processes[k], known, r, hardware);
    assert AddedAt(ExtraFor(r.version, f), GpuFor(r.version, f), k)
      == AddedFor(r.version, snap.processes[k], Was(prev, snap.processes[k]));
  }

  lemma {:induction false} DecodeRowsRoundTrip(
    body: Body, extra: Option<Extra>, gpu: Option<GpuExtra>, back: Option<Snapshot>, r: Readers, snap: Snapshot, n: nat)
    requires CountsAgree(body, extra, gpu) && n <= |body.processes| == |snap.processes| && Countable(snap)
    requires forall k :: 0 <= k < |snap.processes| ==> RowDecodes(body, extra, gpu, back, r, snap, k)
    ensures var d := DecodeRows(body, extra, gpu, back, r, n);
      && d.Ok? && |d.value.0| == n
      && (forall i :: 0 <= i < n ==> PlainProcess(d.value.0[i]) == KeptProcess(snap, r.version, i))
      && d.value.1 == RowsBefore(snap, n)
  {
    hide DecodeRow, PlainProcess, KeptProcess, ThreadRows;
    if n > 0 {
      var k := n - 1;
      DecodeRowsRoundTrip(body, extra, gpu, back, r, snap, k);
      assert RowDecodes(body, extra, gpu, back, r, snap, k);
      RowsSlice(snap, k, |snap.processes|);
      RangeRebuilt(snap, r.version, k, DecodeRow(body.processes[k], AddedAt(extra, gpu, k), back, r).value.0);
    }
  }

  lemma RangeRebuilt(s: Snapshot, version: nat, i: nat, sample: ProcessSample)
    requires i < |s.processes| && |RowsBefore(s, i)| < TWO_32 && |ThreadRows(s, s.processes[i])| < TWO_32
    requires PlainProcess(sample).(threadFirst := 0, threadRows := 0)
      == KeptProcess(s, version, i).(threadFirst := 0, threadRows := 0)
    ensures PlainProcess(sample.(threadFirst := |RowsBefore(s, i)|, threadRows := |ThreadRows(s, s.processes[i])|))
      == KeptProcess(s, version, i)
  {
    hide RowsBefore, ThreadRows, KeptStatic, PlainWindow;
    var first, rows := |RowsBefore(s, i)|, |ThreadRows(s, s.processes[i])|;
    assert PlainProcess(sample.(threadFirst := first, threadRows := rows))
      == PlainProcess(sample).(threadFirst := 0, threadRows := 0).(threadFirst := first, threadRows := rows);
  }

  lemma {:induction false} AttachRoundTrip<I>(devices: seq<Device<I>>, blank: I, ids: seq<nat>, kept: seq<I>, items: map<nat, I>, n: nat)
    requires n <= |devices| == |ids| == |kept|
    requires forall k :: 0 <= k < |ids| ==> ids[k] in items && items[ids[k]] == kept[k]
    ensures var d := AttachFirst(DevicesOnWire(devices, blank), ids, Shelf(items, None), n);
      && d.Ok? && |d.value| == n
      && forall k :: 0 <= k < n ==> d.value[k] == Device(Arc(ids[k], kept[k]), devices[k].readings)
  {
    if n > 0 {
      AttachRoundTrip(devices, blank, ids, kept, items, n - 1);
    }
  }

  function Infos<I>(devices: seq<Device<I>>): seq<I> {
    seq(|devices|, i requires 0 <= i < |devices| => devices[i].info.value)
  }

  lemma AttachedRoundTrip<I>(devices: seq<Device<I>>, blank: I, ids: seq<nat>, known: seq<I>, shelf: Shelf<I>)
    requires DevicesRefer(ids, devices, known) && Stocks(shelf.items, known) && shelf.empty == None
    ensures var d := Attached(DevicesOnWire(devices, blank), ids, shelf);
      d.Ok? && PlainDevices(d.value) == PlainDevices(devices)
  {
    AttachRoundTrip(devices, blank, ids, Infos(devices), shelf.items, |devices|);
  }

  lemma AttachedAdapters(devices: seq<Device<AdapterInfo>>, ids: seq<nat>, known: seq<AdapterInfo>, shelf: Shelf<AdapterInfo>, version: nat)
    requires DevicesRefer(ids, devices, known) && Stocks(shelf.items, KeptAdapterInfos(version, known)) && shelf.empty == None
    ensures var d := Attached(DevicesOnWire(devices, NO_ADAPTER), ids, shelf);
      d.Ok? && PlainDevices(d.value) == KeptAdapters(version, devices)
  {
    AttachRoundTrip(devices, NO_ADAPTER, ids, KeptAdapterInfos(version, Infos(devices)), shelf.items, |devices|);
  }

  /** The round trip of one frame: encoded against the frame before and decoded
      against whatever that came back as, with reader tables that hold at least what
      was known when it was written. */
  lemma FrameRoundTrip(
    snap: Snapshot, prev: Option<Snapshot>, back: Option<Snapshot>, t: Tables,
    known: Logs, r: Readers, hardware: Hardware)
    requires CpuTimesFit(snap) && Countable(snap)
    requires SameBase(prev, back, r.version, hardware)
    requires Covers(r, known) && FrameRefers(Encoded(snap, prev, t), snap, known)
    ensures var f := Encoded(snap, prev, t);
      var d := Decoded(f.body, ExtraFor(r.version, f), GpuFor(r.version, f), back, r, hardware);
      d.Ok? && ComesBackAs(d.value, snap, r.version, hardware)
  {
    var f := Encoded(snap, prev, t);
    var extra, gpu := ExtraFor(r.version, f), GpuFor(r.version, f);
    SliceComesBack(r.services, known.services, f.body.services, snap.services.value);
    hide SameBase, Refers, DecodeRows, EncodeRows, NumberDevices, NumberedOrEmpty, DevicesRefer, Attached, KeptProcess,
      PlainProcess, PlainDevices, KeptAdapters, DevicesOnWire, Stocks, RowDecodes, DenotesSlice, Shelf.Get;
    assert CountsAgree(f.body, extra, gpu);
    forall k | 0 <= k < |snap.processes|
      ensures RowDecodes(f.body, extra, gpu, back, r, snap, k)
    {
      EveryRowDecodes(snap, prev, back, t, known, r, hardware, k);
    }
    DecodeRowsRoundTrip(f.body, extra, gpu, back, r, snap, |snap.processes|);
    AttachedRoundTrip(snap.disks, NO_DISK, f.body.diskInfos, known.disks, r.disks);
    AttachedAdapters(snap.adapters, f.body.adapterInfos, known.adapters, r.adapters, r.version);
    AttachedRoundTrip(snap.gpus, NO_GPU, f.body.gpuInfos, known.gpus, r.gpus);
    hide Encoded, FrameRefers, Covers;
    Assemble(snap, f.body, extra, gpu, back, r, hardware);
  }

  /** The parts of a frame put together again. */
  lemma Assemble(
    snap: Snapshot, body: Body, extra: Option<Extra>, gpu: Option<GpuExtra>, back: Option<Snapshot>, r: Readers, hardware: Hardware)
    requires CountsAgree(body, extra, gpu) && |body.processes| == |snap.processes|
    requires body.tick == snap.tick && body.takenAt == snap.takenAt && body.levels == snap.levels
    requires var rows := DecodeRows(body, extra, gpu, back, r, |snap.processes|);
      && rows.Ok? && |rows.value.0| == |snap.processes| && rows.value.1 == RowsBefore(snap, |snap.processes|)
      && forall i :: 0 <= i < |snap.processes| ==> PlainProcess(rows.value.0[i]) == KeptProcess(snap, r.version, i)
    requires var d := Attached(body.disks, body.diskInfos, r.disks); d.Ok? && PlainDevices(d.value) == PlainDevices(snap.disks)
    requires var d := Attached(body.adapters, body.adapterInfos, r.adapters);
      d.Ok? && PlainDevices(d.value) == KeptAdapters(r.version, snap.adapters)
    requires var d := Attached(body.gpus, body.gpuInfos, r.gpus); d.Ok? && PlainDevices(d.value) == PlainDevices(snap.gpus)
    requires r.services.Get(body.services) == Ok(Arc(body.services, snap.services.value))
    ensures var d := Decoded(body, extra, gpu, back, r, hardware);
      d.Ok? && ComesBackAs(d.value, snap, r.version, hardware)
  {
    hide DecodeRows, RowsBefore, Attached, KeptProcess, PlainProcess, PlainDevices, KeptAdapters, Shelf.Get;
    var d := Decoded(body, extra, gpu, back, r, hardware);
    assert Plain(d.value).processes == Kept(snap, r.version, hardware).processes;
  }

  lemma SliceComesBack<U>(shelf: Shelf<seq<U>>, known: seq<seq<U>>, id: nat, v: seq<U>)
    requires DenotesSlice(known, id, v) && Stocks(shelf.items, known) && shelf.empty == Some([])
    ensures shelf.Get(id) == Ok(Arc(id, v))
  {
  }
}
