/** Encoding and decoding step by step, as the recorder and the reader run them:
    numbering in place, pushing rows, filling lists. Each does what [Frame] says. */
module FrameCode {
  import opened Basics
  import opened Model
  import opened Delta
  import opened Table
  import opened Frame

  /** One `Writer` for each kind of shared value. */
  class TableSet {
    const statics: Writer<ProcessStatic>
    const windows: Writer<WindowInfo>
    const processServices: Writer<seq<ServiceInfo>>
    const disks: Writer<DiskInfo>
    const adapters: Writer<AdapterInfo>
    const gpus: Writer<GpuInfo>
    const services: Writer<seq<ServiceEntry>>

    constructor ()
      ensures fresh(Repr()) && State() == NO_TABLES
    {
      hide Writer.State, NoneNumbered;
      statics := new Writer();
      windows := new Writer();
      processServices := new Writer();
      disks := new Writer();
      adapters := new Writer();
      gpus := new Writer();
      services := new Writer();
    }

    function Repr(): set<object> {
      {statics as object, windows as object, processServices as object, disks as object, adapters as object, gpus as object,
       services as object}
    }

    function State(): Tables
      reads Repr()
    {
      Tables(statics.State(), windows.State(), processServices.State(), disks.State(), adapters.State(),
             gpus.State(), services.State())
    }

    /** Take what waits to be written out of every table. */
    method TakePending()
      modifies Repr()
      ensures State() == FlushedTables(old(State()))
    {
      hide Writer.State, PendingTaken;
      var _ := statics.TakePending();
      var _ := windows.TakePending();
      var _ := processServices.TakePending();
      var _ := disks.TakePending();
      var _ := adapters.TakePending();
      var _ := gpus.TakePending();
      var _ := services.TakePending();
    }

    /** `SweptTables` on all seven; `held` is a parameter because ownership is outside the model. */
    method Sweep(held: set<nat>)
      modifies Repr()
      ensures State() == SweptTables(old(State()), held)
    {
      hide Writer.State, Swept;
      statics.Sweep(held);
      windows.Sweep(held);
      processServices.Sweep(held);
      disks.Sweep(held);
      adapters.Sweep(held);
      gpus.Sweep(held);
      services.Sweep(held);
    }
  }

  /** Number one process's shared values. */
  method NumberProcess(p: ProcessSample, tables: TableSet) returns (statics: nat, window: Option<nat>, services: nat)
    modifies tables.Repr()
    ensures (tables.statics.State(), statics) == Numbered(old(tables.statics.State()), p.statics)
    ensures (tables.windows.State(), window) == NumberWindow(old(tables.windows.State()), p.window)
    ensures (tables.processServices.State(), services) == NumberedOrEmpty(old(tables.processServices.State()), p.services)
    ensures tables.State() == old(tables.State()).(
      statics := tables.statics.State(), windows := tables.windows.State(), processServices := tables.processServices.State())
  {
    statics := tables.statics.Id(p.statics);
    window := None;
    if p.window.Some? {
      var id := tables.windows.Id(p.window.value);
      window := Some(id);
    }
    services := IdOrEmpty(tables.processServices, p.services);
  }

  method NumberAll<I>(w: Writer<I>, devices: seq<Device<I>>) returns (ids: seq<nat>)
    modifies w
    ensures (w.State(), ids) == NumberDevices(old(w.State()), devices, |devices|)
  {
    ids := [];
    for i := 0 to |devices|
      invariant (w.State(), ids) == NumberDevices(old(w.State()), devices, i)
    {
      var id := w.Id(devices[i].info);
      ids := ids + [id];
    }
  }

  /** The rows of `snap`, and beside each what its format keeps apart. */
  method EncodeProcesses(snap: Snapshot, prev: Option<Snapshot>, tables: TableSet)
    returns (rows: seq<Row>, extra: Extra, gpu: GpuExtra)
    modifies tables.Repr()
    ensures Draft(rows, extra.privateWorkingSet, gpu.share, gpu.dedicated, gpu.shared, tables.State())
      == EncodeRows(snap, prev, old(tables.State()), |snap.processes|)
  {
    hide EncodeRow, Was, DiffU64, XorBits, Numbered, NumberWindow, NumberedOrEmpty;
    var private, share, dedicated, shared := [], [], [], [];
    rows := [];
    for i := 0 to |snap.processes|
      invariant Draft(rows, private, share, dedicated, shared, tables.State())
        == EncodeRows(snap, prev, old(tables.State()), i)
    {
      var p := snap.processes[i];
      ghost var before := tables.State();
      var statics, window, services := NumberProcess(p, tables);
      var was := Was(prev, p);
      rows := rows + [EncodeRow(snap, p, prev, statics, window, services)];
      private := private + [DiffU64(p.privateWorkingSet, was.privateWorkingSet)];
      share := share + [XorBits(p.gpuShare, was.gpuShare)];
      dedicated := dedicated + [DiffU64(p.gpuDedicated, was.gpuDedicated)];
      shared := shared + [DiffU64(p.gpuShared, was.gpuShared)];
    }
    extra := Extra(private);
    gpu := GpuExtra(share, dedicated, shared);
  }

  /** Builds the frame `Encoded` specifies, and leaves in the tables what numbering its
      pointers adds. */
  method Encode(snap: Snapshot, prev: Option<Snapshot>, tables: TableSet) returns (body: Body, extra: Extra, gpu: GpuExtra)
    modifies tables.Repr()
    ensures EncodedFrame(body, extra, gpu, tables.State()) == Encoded(snap, prev, old(tables.State()))
  {
    hide EncodeRows, NumberDevices, NumberedOrEmpty, DevicesOnWire;
    var rows;
    rows, extra, gpu := EncodeProcesses(snap, prev, tables);
    var diskInfos := NumberAll(tables.disks, snap.disks);
    var adapterInfos := NumberAll(tables.adapters, snap.adapters);
    var gpuInfos := NumberAll(tables.gpus, snap.gpus);
    var services := IdOrEmpty(tables.services, snap.services);
    body := Body(snap.tick, snap.takenAt, snap.levels,
                 DevicesOnWire(snap.disks, NO_DISK), diskInfos,
                 DevicesOnWire(snap.adapters, NO_ADAPTER), adapterInfos,
                 DevicesOnWire(snap.gpus, NO_GPU), gpuInfos,
                 services, rows);
  }

  /** Replaces each sample's pointer by the one its id stands for, or fails at the first
      id that is unknown. */
  method Attach<I>(samples: seq<Device<I>>, ids: seq<nat>, shelf: Shelf<I>) returns (r: Result<seq<Device<I>>>)
    ensures r == Attached(samples, ids, shelf)
  {
    if |samples| != |ids| {
      return Err(Corrupt);
    }
    var done: seq<Device<I>> := [];
    for i := 0 to |samples|
      invariant AttachFirst(samples, ids, shelf, i) == Ok(done)
    {
      var info := shelf.Get(ids[i]);
      if info.Err? {
        AttachStops(samples, ids, shelf, i + 1, |samples|);
        return Err(info.error);
      }
      done := done + [samples[i].(info := info.value)];
    }
    return Ok(done);
  }

  lemma {:induction false} AttachStops<I>(samples: seq<Device<I>>, ids: seq<nat>, shelf: Shelf<I>, i: nat, n: nat)
    requires i <= n <= |samples| == |ids| && AttachFirst(samples, ids, shelf, i).Err?
    ensures AttachFirst(samples, ids, shelf, n) == AttachFirst(samples, ids, shelf, i)
  {
    if i < n {
      AttachStops(samples, ids, shelf, i, n - 1);
    }
  }

  /** Every process and its threads, row by row. */
  method DecodeProcesses(body: Body, extra: Option<Extra>, gpu: Option<GpuExtra>, prev: Option<Snapshot>, readers: Readers)
    returns (r: Result<(seq<ProcessSample>, seq<ThreadSample>)>)
    requires CountsAgree(body, extra, gpu)
    ensures r == DecodeRows(body, extra, gpu, prev, readers, |body.processes|)
  {
    hide DecodeRow;
    var processes: seq<ProcessSample>, threads: seq<ThreadSample> := [], [];
    for i := 0 to |body.processes|
      invariant DecodeRows(body, extra, gpu, prev, readers, i) == Ok((processes, threads))
    {
      var row := DecodeRow(body.processes[i], AddedAt(extra, gpu, i), prev, readers);
      if row.Err? {
        RowsStop(body, extra, gpu, prev, readers, i + 1, |body.processes|);
        return Err(row.error);
      }
      var (sample, rows) := row.value;
      if |threads| >= TWO_32 || |rows| >= TWO_32 {
        RowsStop(body, extra, gpu, prev, readers, i + 1, |body.processes|);
        return Err(Corrupt);
      }
      processes := processes + [sample.(threadFirst := |threads|, threadRows := |rows|)];
      threads := threads + rows;
    }
    return Ok((processes, threads));
  }

  /** Rebuild a snapshot. */
  method Decode(body: Body, extra: Option<Extra>, gpu: Option<GpuExtra>, prev: Option<Snapshot>, readers: Readers, hardware: Hardware)
    returns (r: Result<Snapshot>)
    ensures r == Decoded(body, extra, gpu, prev, readers, hardware)
  {
    hide DecodeRows, Attached;
    if !CountsAgree(body, extra, gpu) {
      return Err(Corrupt);
    }
    var rows := DecodeProcesses(body, extra, gpu, prev, readers);
    if rows.Err? {
      return Err(rows.error);
    }
    var disks := Attach(body.disks, body.diskInfos, readers.disks);
    if disks.Err? {
      return Err(disks.error);
    }
    var adapters := Attach(body.adapters, body.adapterInfos, readers.adapters);
    if adapters.Err? {
      return Err(adapters.error);
    }
    var gpus := Attach(body.gpus, body.gpuInfos, readers.gpus);
    if gpus.Err? {
      return Err(gpus.error);
    }
    var services := readers.services.Get(body.services);
    if services.Err? {
      return Err(services.error);
    }
    return Ok(Snapshot(body.tick, body.takenAt, body.levels, rows.value.0, rows.value.1, disks.value, adapters.value,
                       gpus.value, services.value, hardware));
  }

  lemma {:induction false} RowsStop(body: Body, extra: Option<Extra>, gpu: Option<GpuExtra>, prev: Option<Snapshot>, readers: Readers, i: nat, n: nat)
    requires CountsAgree(body, extra, gpu) && i <= n <= |body.processes|
    requires DecodeRows(body, extra, gpu, prev, readers, i).Err?
    ensures DecodeRows(body, extra, gpu, prev, readers, n) == DecodeRows(body, extra, gpu, prev, readers, i)
  {
    hide DecodeRow;
    if i < n {
      RowsStop(body, extra, gpu, prev, readers, i, n - 1);
    }
  }
}
