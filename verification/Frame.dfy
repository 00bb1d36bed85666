/** What is written for one snapshot: pointers become numbers, and rows that have a
    counterpart in the previous snapshot become differences. */
module Frame {
  import opened Basics
  import opened Model
  import opened Delta
  import opened Table

  // The tables, and older layouts of what they hold

  datatype Tables = Tables(
    statics: Numbering<ProcessStatic>,
    windows: Numbering<WindowInfo>,
    processServices: Numbering<seq<ServiceInfo>>,
    disks: Numbering<DiskInfo>,
    adapters: Numbering<AdapterInfo>,
    gpus: Numbering<GpuInfo>,
    services: Numbering<seq<ServiceEntry>>)

  const NO_TABLES: Tables :=
    Tables(NoneNumbered(), NoneNumbered(), NoneNumbered(), NoneNumbered(), NoneNumbered(), NoneNumbered(), NoneNumbered())

  function SweptTables(t: Tables, held: set<nat>): Tables {
    Tables(Swept(t.statics, held), Swept(t.windows, held), Swept(t.processServices, held), Swept(t.disks, held),
           Swept(t.adapters, held), Swept(t.gpus, held), Swept(t.services, held))
  }

  function FlushedTables(t: Tables): Tables {
    Tables(PendingTaken(t.statics), PendingTaken(t.windows), PendingTaken(t.processServices), PendingTaken(t.disks),
           PendingTaken(t.adapters), PendingTaken(t.gpus), PendingTaken(t.services))
  }

  /** Adapter facts up to version 3: no parent. */
  datatype AdapterInfoV3 = AdapterInfoV3(id: u64, rest: seq<string>)

  function AdapterFromV3(a: AdapterInfoV3): AdapterInfo {
    AdapterInfo(a.id, a.rest, None)
  }

  function AdapterToV3(a: AdapterInfo): AdapterInfoV3 {
    AdapterInfoV3(a.id, a.rest)
  }

  /** Process facts up to version 4: no parent PID. */
  datatype ProcessStaticV4 = ProcessStaticV4(
    key: ProcessKey,
    parent: Option<ProcessKey>,
    name: string,
    startedUnixMs: Option<i64>,
    rest: seq<string>)

  function StaticFromV4(p: ProcessStaticV4): ProcessStatic {
    ProcessStatic(p.key, p.parent, p.name, p.startedUnixMs, p.rest, None)
  }

  function StaticToV4(p: ProcessStatic): ProcessStaticV4 {
    ProcessStaticV4(p.key, p.parent, p.name, p.startedUnixMs, p.rest)
  }

  /** What a reader has loaded so far; `version` decides which of the old shapes it expects. */
  datatype Readers = Readers(
    statics: Shelf<ProcessStatic>,
    windows: Shelf<WindowInfo>,
    processServices: Shelf<seq<ServiceInfo>>,
    disks: Shelf<DiskInfo>,
    adapters: Shelf<AdapterInfo>,
    gpus: Shelf<GpuInfo>,
    services: Shelf<seq<ServiceEntry>>,
    version: nat)

  function EmptyReaders(version: nat): Readers {
    Readers(Shelf(map[], None), Shelf(map[], None), Shelf(map[], Some([])), Shelf(map[], None),
            Shelf(map[], None), Shelf(map[], None), Shelf(map[], Some([])), version)
  }

  // What a frame holds

  /** A process row, whole or as a difference, with the rows of its threads inside. */
  datatype Row =
    | Full(statics: nat, window: Option<nat>, services: nat, sample: ProcessSample, threads: seq<ThreadSample>)
    | Changes(statics: nat, window: Option<nat>, services: nat, delta: ProcessDelta, rows: Threads)

  /** A delta row's threads: each as a change, or the whole list. */
  datatype Threads = SameRows(deltas: seq<ThreadDelta>) | NewRows(list: seq<ThreadSample>)

  datatype Body = Body(
    tick: u64,
    takenAt: Option<int>,
    levels: Levels,
    disks: seq<Device<DiskInfo>>,
    diskInfos: seq<nat>,
    adapters: seq<Device<AdapterInfo>>,
    adapterInfos: seq<nat>,
    gpus: seq<Device<GpuInfo>>,
    gpuInfos: seq<nat>,
    services: nat,
    processes: seq<Row>)

  /** From format version 2 on: each process's private working set. */
  datatype Extra = Extra(privateWorkingSet: seq<i64>)

  /** Three columns added in version 3, one entry a process. */
  datatype GpuExtra = GpuExtra(share: seq<bv32>, dedicated: seq<i64>, shared: seq<i64>) {
    predicate Consistent() {
      |dedicated| == |share| && |shared| == |share|
    }
  }

  /** One process's entries in the added columns; `None` for a column the version lacks. */
  datatype Added = Added(private: Option<i64>, gpu: Option<(bv32, i64, i64)>) {
    function Apply(sample: ProcessSample, before: ProcessSample): ProcessSample {
      var s := if private.None? then sample
               else sample.(privateWorkingSet := ApplyU64(before.privateWorkingSet, private.value));
      if gpu.None? then s
      else s.(gpuShare := UnxorBits(before.gpuShare, gpu.value.0),
              gpuDedicated := ApplyU64(before.gpuDedicated, gpu.value.1),
              gpuShared := ApplyU64(before.gpuShared, gpu.value.2))
    }
  }

  const NO_SAMPLE: ProcessSample :=
    ProcessSample(Arc(0, NO_STATICS), 0, 0, 0, 0, 0, 0, 0, 0, 0, 0, 0, 0, None, None, 0, 0, 0, false, None, None,
                  Background, Normal, 0, 0, 0, 0, 0, IoCounters(0, 0, 0, 0, 0, 0), None, Arc(0, []), 0, 0)

  /** The slice of the snapshot's threads that `p` claims; empty when it is not a valid one. */
  function ThreadRows(snap: Snapshot, p: ProcessSample): seq<ThreadSample> {
    if p.threadFirst + p.threadRows <= |snap.threads|
    then snap.threads[p.threadFirst..p.threadFirst + p.threadRows]
    else []
  }

  /** Index of each process by identity; of two with the same, the later. */
  function ByKey(ps: seq<ProcessSample>): map<ProcessKey, nat> {
    if ps == [] then map[]
    else ByKey(ps[..|ps| - 1])[ps[|ps| - 1].Key() := |ps| - 1]
  }

  lemma {:induction false} ByKeyIndexes(ps: seq<ProcessSample>)
    ensures forall k :: k in ByKey(ps) ==> ByKey(ps)[k] < |ps| && ps[ByKey(ps)[k]].Key() == k
  {
    if ps != [] {
      ByKeyIndexes(ps[..|ps| - 1]);
    }
  }

  /** Where `key` was in the frame before. */
  function BaseIndex(prev: Option<Snapshot>, key: ProcessKey): (i: Option<nat>)
    ensures i.Some? ==> prev.Some? && i.value < |prev.value.processes| && prev.value.processes[i.value].Key() == key
  {
    if prev.None? then None
    else
      ByKeyIndexes(prev.value.processes);
      var index := ByKey(prev.value.processes);
      if key in index then Some(index[key]) else None
  }

  // Draft

  /** A sample as it is serialized: what is shared by pointer or carried beside the
      body is skipped, and reads back as its default. */
  function OnWire(p: ProcessSample): ProcessSample {
    p.(statics := Arc(0, NO_STATICS), window := None, services := Arc(0, []),
       privateWorkingSet := 0, gpuShare := 0, gpuDedicated := 0, gpuShared := 0)
  }

  function DevicesOnWire<I>(devices: seq<Device<I>>, blank: I): seq<Device<I>> {
    seq(|devices|, i requires 0 <= i < |devices| => devices[i].(info := Arc(0, blank)))
  }

  /** A frame's rows so far, what goes beside them, and the tables they numbered. */
  datatype Draft = Draft(
    rows: seq<Row>,
    private: seq<i64>,
    share: seq<bv32>,
    dedicated: seq<i64>,
    shared: seq<i64>,
    tables: Tables)
  {
    predicate Even() {
      |rows| == |private| == |share| == |dedicated| == |shared|
    }
  }

  function EncodeThreads(rows: seq<ThreadSample>, prevRows: seq<ThreadSample>): Threads {
    if SameThreads(rows, prevRows) then SameRows(DiffRows(rows, prevRows)) else NewRows(rows)
  }

  function EncodeRow(snap: Snapshot, p: ProcessSample, prev: Option<Snapshot>, statics: nat, window: Option<nat>, services: nat): Row {
    var base := BaseIndex(prev, p.Key());
    if base.Some? then
      var before := prev.value.processes[base.value];
      Changes(statics, window, services, DiffProcess(p, before),
              EncodeThreads(ThreadRows(snap, p), ThreadRows(prev.value, before)))
    else
      Full(statics, window, services, OnWire(p), ThreadRows(snap, p))
  }

  /** What a process's numbers are changes from: itself one frame earlier, or zeros. */
  function Was(prev: Option<Snapshot>, p: ProcessSample): ProcessSample {
    var base := BaseIndex(prev, p.Key());
    if base.Some? then prev.value.processes[base.value] else NO_SAMPLE
  }

  function NumberWindow(w: Numbering<WindowInfo>, window: Option<Arc<WindowInfo>>): (Numbering<WindowInfo>, Option<nat>) {
    if window.None? then (w, None)
    else
      var (w', id) := Numbered(w, window.value);
      (w', Some(id))
  }

  function EncodeNext(e: Draft, snap: Snapshot, p: ProcessSample, prev: Option<Snapshot>): (e': Draft)
    requires e.Even()
    ensures e'.Even() && |e'.rows| == |e.rows| + 1
    ensures forall k :: 0 <= k < |e.rows| ==>
      && e'.rows[k] == e.rows[k] && e'.private[k] == e.private[k] && e'.share[k] == e.share[k]
      && e'.dedicated[k] == e.dedicated[k] && e'.shared[k] == e.shared[k]
  {
    var (statics, staticsId) := Numbered(e.tables.statics, p.statics);
    var (windows, windowId) := NumberWindow(e.tables.windows, p.window);
    var (processServices, servicesId) := NumberedOrEmpty(e.tables.processServices, p.services);
    var was := Was(prev, p);
    Draft(
      e.rows + [EncodeRow(snap, p, prev, staticsId, windowId, servicesId)],
      e.private + [DiffU64(p.privateWorkingSet, was.privateWorkingSet)],
      e.share + [XorBits(p.gpuShare, was.gpuShare)],
      e.dedicated + [DiffU64(p.gpuDedicated, was.gpuDedicated)],
      e.shared + [DiffU64(p.gpuShared, was.gpuShared)],
      e.tables.(statics := statics, windows := windows, processServices := processServices))
  }

  /** The first `n` processes of `snap` encoded. */
  function EncodeRows(snap: Snapshot, prev: Option<Snapshot>, tables: Tables, n: nat): (e: Draft)
    requires n <= |snap.processes|
    ensures e.Even() && |e.rows| == n
  {
    if n == 0 then Draft([], [], [], [], [], tables)
    else EncodeNext(EncodeRows(snap, prev, tables, n - 1), snap, snap.processes[n - 1], prev)
  }

  function NumberDevices<I>(w: Numbering<I>, devices: seq<Device<I>>, n: nat): (r: (Numbering<I>, seq<nat>))
    requires n <= |devices|
    ensures |r.1| == n
  {
    if n == 0 then (w, [])
    else
      var (w', ids) := NumberDevices(w, devices, n - 1);
      var (w'', id) := Numbered(w', devices[n - 1].info);
      (w'', ids + [id])
  }

  datatype EncodedFrame = EncodedFrame(body: Body, extra: Extra, gpu: GpuExtra, tables: Tables)

  /** The frame for `snap` and the tables after it. A row is whole where there is nothing in
      `prev` to take a difference from. */
  function Encoded(snap: Snapshot, prev: Option<Snapshot>, tables: Tables): EncodedFrame {
    var e := EncodeRows(snap, prev, tables, |snap.processes|);
    var (disks, diskInfos) := NumberDevices(e.tables.disks, snap.disks, |snap.disks|);
    var (adapters, adapterInfos) := NumberDevices(e.tables.adapters, snap.adapters, |snap.adapters|);
    var (gpus, gpuInfos) := NumberDevices(e.tables.gpus, snap.gpus, |snap.gpus|);
    var (services, servicesId) := NumberedOrEmpty(e.tables.services, snap.services);
    EncodedFrame(
      Body(snap.tick, snap.takenAt, snap.levels,
           DevicesOnWire(snap.disks, NO_DISK), diskInfos,
           DevicesOnWire(snap.adapters, NO_ADAPTER), adapterInfos,
           DevicesOnWire(snap.gpus, NO_GPU), gpuInfos,
           servicesId, e.rows),
      Extra(e.private),
      GpuExtra(e.share, e.dedicated, e.shared),
      e.tables.(disks := disks, adapters := adapters, gpus := gpus, services := services))
  }

  // Decoding

  function DecodeThreads(threads: Threads, prevRows: seq<ThreadSample>): Result<seq<ThreadSample>> {
    match threads
    case SameRows(deltas) => if |prevRows| != |deltas| then Err(Corrupt) else Ok(ApplyRows(prevRows, deltas))
    case NewRows(list) => Ok(list)
  }

  /** A row's sample and thread rows, its shared values still blank. */
  function DecodeSample(row: Row, added: Added, prev: Option<Snapshot>, readers: Readers)
    : Result<(ProcessSample, seq<ThreadSample>)>
  {
    match row
    case Full(_, _, _, sample, threads) => Ok((added.Apply(sample, NO_SAMPLE), threads))
    case Changes(statics, _, _, delta, threads) =>
      var facts :- readers.statics.Get(statics);
      var base := BaseIndex(prev, facts.value.key);
      if base.None? then Err(Corrupt)
      else
        var before := prev.value.processes[base.value];
        var rows :- DecodeThreads(threads, ThreadRows(prev.value, before));
        Ok((added.Apply(ApplyProcess(before, delta), before), rows))
  }

  function GetWindow(shelf: Shelf<WindowInfo>, id: Option<nat>): Result<Option<Arc<WindowInfo>>> {
    if id.None? then Ok(None)
    else
      var window :- shelf.Get(id.value);
      Ok(Some(window))
  }

  function DecodeRow(row: Row, added: Added, prev: Option<Snapshot>, readers: Readers)
    : Result<(ProcessSample, seq<ThreadSample>)>
  {
    var (sample, rows) :- DecodeSample(row, added, prev, readers);
    var statics :- readers.statics.Get(row.statics);
    var window :- GetWindow(readers.windows, row.window);
    var services :- readers.processServices.Get(row.services);
    Ok((sample.(statics := statics, window := window, services := services), rows))
  }

  function AddedAt(extra: Option<Extra>, gpu: Option<GpuExtra>, i: nat): Added
    requires extra.Some? ==> i < |extra.value.privateWorkingSet|
    requires gpu.Some? ==> gpu.value.Consistent() && i < |gpu.value.share|
  {
    Added(
      if extra.Some? then Some(extra.value.privateWorkingSet[i]) else None,
      if gpu.Some? then Some((gpu.value.share[i], gpu.value.dedicated[i], gpu.value.shared[i])) else None)
  }

  predicate CountsAgree(body: Body, extra: Option<Extra>, gpu: Option<GpuExtra>) {
    && (extra.Some? ==> |extra.value.privateWorkingSet| == |body.processes|)
    && (gpu.Some? ==> gpu.value.Consistent() && |gpu.value.share| == |body.processes|)
  }

  /** The first `n` rows decoded, their thread ranges rebuilt one after another. */
  function DecodeRows(body: Body, extra: Option<Extra>, gpu: Option<GpuExtra>, prev: Option<Snapshot>, readers: Readers, n: nat)
    : Result<(seq<ProcessSample>, seq<ThreadSample>)>
    requires CountsAgree(body, extra, gpu) && n <= |body.processes|
  {
    if n == 0 then Ok(([], []))
    else
      var (processes, threads) :- DecodeRows(body, extra, gpu, prev, readers, n - 1);
      var (sample, rows) :- DecodeRow(body.processes[n - 1], AddedAt(extra, gpu, n - 1), prev, readers);
      if |threads| >= TWO_32 || |rows| >= TWO_32 then Err(Corrupt)
      else Ok((processes + [sample.(threadFirst := |threads|, threadRows := |rows|)], threads + rows))
  }

  /** The first `n` devices with their facts back. */
  function AttachFirst<I>(samples: seq<Device<I>>, ids: seq<nat>, shelf: Shelf<I>, n: nat): (r: Result<seq<Device<I>>>)
    requires n <= |samples| == |ids|
    ensures r.Ok? ==> |r.value| == n
  {
    if n == 0 then Ok([])
    else
      var done :- AttachFirst(samples, ids, shelf, n - 1);
      var info :- shelf.Get(ids[n - 1]);
      Ok(done + [samples[n - 1].(info := info)])
  }

  function Attached<I>(samples: seq<Device<I>>, ids: seq<nat>, shelf: Shelf<I>): Result<seq<Device<I>>> {
    if |samples| != |ids| then Err(Corrupt) else AttachFirst(samples, ids, shelf, |samples|)
  }

  /** The snapshot a frame stands for. Ids go through `readers`; a difference is applied to
      the row in `prev`, and is an error without one. */
  function Decoded(body: Body, extra: Option<Extra>, gpu: Option<GpuExtra>, prev: Option<Snapshot>, readers: Readers, hardware: Hardware)
    : Result<Snapshot>
  {
    if !CountsAgree(body, extra, gpu) then Err(Corrupt)
    else
      var (processes, threads) :- DecodeRows(body, extra, gpu, prev, readers, |body.processes|);
      var disks :- Attached(body.disks, body.diskInfos, readers.disks);
      var adapters :- Attached(body.adapters, body.adapterInfos, readers.adapters);
      var gpus :- Attached(body.gpus, body.gpuInfos, readers.gpus);
      var services :- readers.services.Get(body.services);
      Ok(Snapshot(body.tick, body.takenAt, body.levels, processes, threads, disks, adapters, gpus, services, hardware))
  }
}
