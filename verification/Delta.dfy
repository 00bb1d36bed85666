/** Per-process and per-thread changes against the previous frame: counters as
    wrapping differences, floats as their bits exclusive-ORed. */
module Delta {
  import opened Basics
  import opened Model

  // Counters

  function CastSigned64(x: u64): i64 {
    if x < TWO_63 then x else x - TWO_64
  }

  function CastUnsigned64(x: i64): u64 {
    if x >= 0 then x else x + TWO_64
  }

  /** `cur` minus `prev`, wrapping, as a signed number. The contract is what a reader
      relies on: adding it back gives `cur`, and nothing else does. */
  function DiffU64(cur: u64, prev: u64): (d: i64)
    ensures ApplyU64(prev, d) == cur
    ensures forall e: i64 :: ApplyU64(prev, e) == cur ==> e == d
  {
    CastSigned64((cur - prev) % TWO_64)
  }

  function ApplyU64(prev: u64, d: i64): u64 {
    (prev + CastUnsigned64(d)) % TWO_64
  }

  function CastSigned32(x: u32): i32 {
    if x < TWO_31 then x else x - TWO_32
  }

  function CastUnsigned32(x: i32): u32 {
    if x >= 0 then x else x + TWO_32
  }

  function DiffU32(cur: u32, prev: u32): (d: i32)
    ensures ApplyU32(prev, d) == cur
    ensures forall e: i32 :: ApplyU32(prev, e) == cur ==> e == d
  {
    CastSigned32((cur - prev) % TWO_32)
  }

  function ApplyU32(prev: u32, d: i32): u32 {
    (prev + CastUnsigned32(d)) % TWO_32
  }

  /** A duration's nanoseconds as 64 bits, saturating. */
  function Nanos(ns: nat): u64 {
    if ns < TWO_64 then ns else TWO_64 - 1
  }

  /** A duration survives exactly when it fits: past 584 years it comes back as the
      largest one that does. */
  function DiffDuration(cur: nat, prev: nat): (d: i64)
    ensures ApplyDuration(prev, d) == cur <==> cur < TWO_64
    ensures ApplyDuration(prev, d) == Nanos(cur)
  {
    DiffU64(Nanos(cur), Nanos(prev))
  }

  function ApplyDuration(prev: nat, d: i64): nat {
    ApplyU64(Nanos(prev), d)
  }

  // Floats

  function XorBits(cur: bv32, prev: bv32): (x: bv32)
    ensures UnxorBits(prev, x) == cur
    ensures x == 0 <==> cur == prev
  {
    cur ^ prev
  }

  function UnxorBits(prev: bv32, x: bv32): bv32 {
    prev ^ x
  }

  // Processes

  datatype ProcessDelta = ProcessDelta(
    cpu: bv32,
    cpuTime: i64,
    cycles: i64,
    workingSet: i64,
    privateBytes: i64,
    diskRead: i64,
    diskWrite: i64,
    netRx: i64,
    netTx: i64,
    threads: i32,
    handles: i32,
    power: Option<bv32>,
    gpu: Option<bv32>,
    suspended: bool,
    efficiencyMode: Option<bool>,
    kind: ProcessKind,
    priority: Priority,
    pageFaults: i32,
    peakWorkingSet: i64,
    virtualSize: i64,
    pagedPool: i64,
    nonpagedPool: i64,
    ioReads: i64,
    ioWrites: i64,
    ioOther: i64,
    ioReadBytes: i64,
    ioWriteBytes: i64,
    ioOtherBytes: i64,
    gpuEngine: Option<string>)

  function DiffProcess(cur: ProcessSample, prev: ProcessSample): ProcessDelta {
    ProcessDelta(
      XorBits(cur.cpu, prev.cpu),
      DiffDuration(cur.cpuTimeNs, prev.cpuTimeNs),
      DiffU64(cur.cycles, prev.cycles),
      DiffU64(cur.workingSet, prev.workingSet),
      DiffU64(cur.privateBytes, prev.privateBytes),
      DiffU64(cur.diskRead, prev.diskRead),
      DiffU64(cur.diskWrite, prev.diskWrite),
      DiffU64(cur.netRx, prev.netRx),
      DiffU64(cur.netTx, prev.netTx),
      DiffU32(cur.threads, prev.threads),
      DiffU32(cur.handles, prev.handles),
      cur.power,
      cur.gpu,
      cur.suspended,
      cur.efficiencyMode,
      cur.kind,
      cur.priority,
      DiffU32(cur.pageFaults, prev.pageFaults),
      DiffU64(cur.peakWorkingSet, prev.peakWorkingSet),
      DiffU64(cur.virtualSize, prev.virtualSize),
      DiffU64(cur.pagedPool, prev.pagedPool),
      DiffU64(cur.nonpagedPool, prev.nonpagedPool),
      DiffU64(cur.io.readOps, prev.io.readOps),
      DiffU64(cur.io.writeOps, prev.io.writeOps),
      DiffU64(cur.io.otherOps, prev.io.otherOps),
      DiffU64(cur.io.readBytes, prev.io.readBytes),
      DiffU64(cur.io.writeBytes, prev.io.writeBytes),
      DiffU64(cur.io.otherBytes, prev.io.otherBytes),
      cur.gpuEngine)
  }

  /** All a delta row determines by itself. Pointers and the thread range are left empty and
      the columns outside the body keep `prev`'s values until decoding sets them. */
  function ApplyProcess(prev: ProcessSample, d: ProcessDelta): ProcessSample {
    ProcessSample(
      Arc(0, NO_STATICS),
      UnxorBits(prev.cpu, d.cpu),
      ApplyDuration(prev.cpuTimeNs, d.cpuTime),
      ApplyU64(prev.cycles, d.cycles),
      ApplyU64(prev.workingSet, d.workingSet),
      prev.privateWorkingSet,
      ApplyU64(prev.privateBytes, d.privateBytes),
      ApplyU64(prev.diskRead, d.diskRead),
      ApplyU64(prev.diskWrite, d.diskWrite),
      ApplyU64(prev.netRx, d.netRx),
      ApplyU64(prev.netTx, d.netTx),
      ApplyU32(prev.threads, d.threads),
      ApplyU32(prev.handles, d.handles),
      d.power,
      d.gpu,
      prev.gpuShare,
      prev.gpuDedicated,
      prev.gpuShared,
      d.suspended,
      d.efficiencyMode,
      None,
      d.kind,
      d.priority,
      ApplyU32(prev.pageFaults, d.pageFaults),
      ApplyU64(prev.peakWorkingSet, d.peakWorkingSet),
      ApplyU64(prev.virtualSize, d.virtualSize),
      ApplyU64(prev.pagedPool, d.pagedPool),
      ApplyU64(prev.nonpagedPool, d.nonpagedPool),
      IoCounters(
        ApplyU64(prev.io.readOps, d.ioReads),
        ApplyU64(prev.io.writeOps, d.ioWrites),
        ApplyU64(prev.io.otherOps, d.ioOther),
        ApplyU64(prev.io.readBytes, d.ioReadBytes),
        ApplyU64(prev.io.writeBytes, d.ioWriteBytes),
        ApplyU64(prev.io.otherBytes, d.ioOtherBytes)),
      d.gpuEngine,
      Arc(0, []),
      0,
      0)
  }

  /** `p` with its shared fields and thread range blank. */
  function Unshared(p: ProcessSample): ProcessSample {
    p.(statics := Arc(0, NO_STATICS), window := None, services := Arc(0, []), threadFirst := 0, threadRows := 0)
  }

  /** Every counter, level and flag of `cur` comes back from a base that agrees with
      the encoder's only in the fields a delta is taken over: the reader's base is a
      decoded sample, whose pointers and thread range are its own. */
  lemma ProcessRoundTrip(cur: ProcessSample, prev: ProcessSample, base: ProcessSample)
    requires cur.cpuTimeNs < TWO_64
    requires SameCounters(prev, base)
    ensures ApplyProcess(base, DiffProcess(cur, prev))
      == Unshared(cur).(privateWorkingSet := base.privateWorkingSet, gpuShare := base.gpuShare,
                        gpuDedicated := base.gpuDedicated, gpuShared := base.gpuShared)
  {
    var d := DiffProcess(cur, prev);
    assert ApplyDuration(base.cpuTimeNs, d.cpuTime) == cur.cpuTimeNs;
    assert UnxorBits(base.cpu, d.cpu) == cur.cpu;
  }

  /** The fields a [ProcessDelta] is a difference of. */
  predicate SameCounters(a: ProcessSample, b: ProcessSample) {
    && a.cpu == b.cpu && a.cpuTimeNs == b.cpuTimeNs && a.cycles == b.cycles
    && a.workingSet == b.workingSet && a.privateBytes == b.privateBytes
    && a.diskRead == b.diskRead && a.diskWrite == b.diskWrite
    && a.netRx == b.netRx && a.netTx == b.netTx
    && a.threads == b.threads && a.handles == b.handles && a.pageFaults == b.pageFaults
    && a.peakWorkingSet == b.peakWorkingSet && a.virtualSize == b.virtualSize
    && a.pagedPool == b.pagedPool && a.nonpagedPool == b.nonpagedPool && a.io == b.io
  }

  // Threads

  datatype ThreadDelta = ThreadDelta(
    cpu: bv32,
    state: Option<ThreadState>,
    waitReason: Option<u8>,
    service: Option<ServiceTag>)

  predicate SameThreads(cur: seq<ThreadSample>, prev: seq<ThreadSample>) {
    |cur| == |prev| &&
    forall i :: 0 <= i < |cur| ==>
      && cur[i].tid == prev[i].tid
      && cur[i].birth == prev[i].birth
      && cur[i].startedUnixMs == prev[i].startedUnixMs
  }

  function Changed<T(==)>(cur: T, prev: T): Option<T> {
    if cur != prev then Some(cur) else None
  }

  function UnwrapOr<T>(o: Option<T>, was: T): T {
    match o
    case Some(v) => v
    case None => was
  }

  function DiffThread(cur: ThreadSample, prev: ThreadSample): ThreadDelta {
    ThreadDelta(
      XorBits(cur.cpu, prev.cpu),
      Changed(cur.state, prev.state),
      Changed(cur.waitReason, prev.waitReason),
      Changed(cur.service, prev.service))
  }

  function ApplyThread(prev: ThreadSample, d: ThreadDelta): ThreadSample {
    ThreadSample(
      prev.tid,
      prev.birth,
      UnxorBits(prev.cpu, d.cpu),
      UnwrapOr(d.state, prev.state),
      UnwrapOr(d.waitReason, prev.waitReason),
      UnwrapOr(d.service, prev.service),
      prev.startedUnixMs)
  }

  function DiffRows(cur: seq<ThreadSample>, prev: seq<ThreadSample>): seq<ThreadDelta>
    requires |cur| == |prev|
  {
    seq(|cur|, i requires 0 <= i < |cur| => DiffThread(cur[i], prev[i]))
  }

  function ApplyRows(prev: seq<ThreadSample>, deltas: seq<ThreadDelta>): seq<ThreadSample>
    requires |prev| == |deltas|
  {
    seq(|prev|, i requires 0 <= i < |prev| => ApplyThread(prev[i], deltas[i]))
  }

  /** A row-by-row delta is exact for just the lists [SameThreads] accepts. */
  lemma RowsRoundTrip(cur: seq<ThreadSample>, prev: seq<ThreadSample>)
    requires |cur| == |prev|
    ensures ApplyRows(prev, DiffRows(cur, prev)) == cur <==> SameThreads(cur, prev)
  {
    var back := ApplyRows(prev, DiffRows(cur, prev));
    forall i | 0 <= i < |cur|
      ensures back[i] == cur[i] <==>
        cur[i].tid == prev[i].tid && cur[i].birth == prev[i].birth && cur[i].startedUnixMs == prev[i].startedUnixMs
    {
      assert UnxorBits(prev[i].cpu, XorBits(cur[i].cpu, prev[i].cpu)) == cur[i].cpu;
    }
    if SameThreads(cur, prev) {
      assert back == cur;
    } else if back == cur {
      assert forall i :: 0 <= i < |cur| ==> back[i] == cur[i];
    }
  }
}
