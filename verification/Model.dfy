/** What the probe measures, as far as the recorder and the usage history look at
    it. Floats that are only stored are their 32 bits. */
module Model {
  import opened Basics

  /** A value behind a shared pointer: where it was allocated, and what it is. Two
      pointers are the same pointer when their addresses are. */
  datatype Arc<T> = Arc(addr: nat, value: T)

  datatype ProcessKey = ProcessKey(pid: u32, birth: u64)

  /** The shared part of a process row. All descriptive fields that no function reads are
      one field, `rest`. */
  datatype ProcessStatic = ProcessStatic(
    key: ProcessKey,
    parent: Option<ProcessKey>,
    name: string,
    startedUnixMs: Option<i64>,
    rest: seq<string>,
    parentPid: Option<u32>)

  datatype WindowInfo = WindowInfo(handle: u64, title: string, hung: bool)
  datatype ServiceInfo = ServiceInfo(name: string, rest: seq<string>)
  datatype ServiceEntry = ServiceEntry(name: string, rest: seq<string>)
  datatype DiskInfo = DiskInfo(number: u32, rest: seq<string>)
  datatype AdapterInfo = AdapterInfo(id: u64, rest: seq<string>, parent: Option<u64>)
  datatype GpuInfo = GpuInfo(id: u64, software: bool, rest: seq<string>)

  datatype ProcessKind = App | Background | Windows
  datatype Priority = Idle | BelowNormal | Normal | AboveNormal | High | Realtime
  datatype ThreadState = Ready | Running | Waiting | Other
  datatype ServiceTag = Unknown | NoService | Service(index: nat)

  datatype IoCounters = IoCounters(
    readOps: u64, writeOps: u64, otherOps: u64, readBytes: u64, writeBytes: u64, otherBytes: u64)

  /** One process over one sampling pass. */
  datatype ProcessSample = ProcessSample(
    statics: Arc<ProcessStatic>,
    cpu: bv32,
    cpuTimeNs: nat,
    cycles: u64,
    workingSet: u64,
    privateWorkingSet: u64,
    privateBytes: u64,
    diskRead: u64,
    diskWrite: u64,
    netRx: u64,
    netTx: u64,
    threads: u32,
    handles: u32,
    power: Option<bv32>,
    gpu: Option<bv32>,
    gpuShare: bv32,
    gpuDedicated: u64,
    gpuShared: u64,
    suspended: bool,
    efficiencyMode: Option<bool>,
    window: Option<Arc<WindowInfo>>,
    kind: ProcessKind,
    priority: Priority,
    pageFaults: u32,
    peakWorkingSet: u64,
    virtualSize: u64,
    pagedPool: u64,
    nonpagedPool: u64,
    io: IoCounters,
    gpuEngine: Option<string>,
    services: Arc<seq<ServiceInfo>>,
    threadFirst: u32,
    threadRows: u32)
  {
    function Key(): ProcessKey {
      statics.value.key
    }
  }

  datatype ThreadSample = ThreadSample(
    tid: u32,
    birth: u64,
    cpu: bv32,
    state: ThreadState,
    waitReason: u8,
    service: ServiceTag,
    startedUnixMs: Option<i64>)

  /** A disk, network adapter or GPU over one pass: its facts behind a pointer, and
      its readings. */
  datatype Device<I> = Device(info: Arc<I>, readings: seq<int>)

  /** The parts of a snapshot that are written and read back as they are: the
      interval, the probe's cost, CPU, memory, battery, volumes, sessions and
      capabilities. */
  datatype Levels = Levels(readings: seq<int>)

  datatype Hardware = Hardware(facts: seq<string>)

  /** What one pass measured. `takenAt` counts nanoseconds from the Unix epoch and may
      be negative. */
  datatype Snapshot = Snapshot(
    tick: u64,
    takenAt: Option<int>,
    levels: Levels,
    processes: seq<ProcessSample>,
    threads: seq<ThreadSample>,
    disks: seq<Device<DiskInfo>>,
    adapters: seq<Device<AdapterInfo>>,
    gpus: seq<Device<GpuInfo>>,
    services: Arc<seq<ServiceEntry>>,
    hardware: Hardware)

  const NO_STATICS: ProcessStatic :=
    ProcessStatic(ProcessKey(0, 0), None, "", None, [], None)
  const NO_DISK: DiskInfo := DiskInfo(0, [])
  const NO_ADAPTER: AdapterInfo := AdapterInfo(0, [], None)
  const NO_GPU: GpuInfo := GpuInfo(0, false, [])
}
