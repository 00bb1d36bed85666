/** Bytes and how they are cut up: a preamble, records with a header each, a trailer. The
    serializer and the compressor are parameters, a pair of inverse functions each. */
module Format {
  import opened Basics
  import opened Model
  import opened Delta
  import opened Frame

  const MAGIC: seq<u8> := [79, 84, 82, 69, 67]
  const INDEX_MAGIC: seq<u8> := [79, 84, 73, 68, 88]
  const FORMAT_VERSION: nat := 5
  const OLDEST_VERSION: nat := 1
  const PREAMBLE_LEN: nat := 7
  const RECORD_HEADER_LEN: nat := 5
  const FRAME_PREFIX_LEN: nat := 16
  const TRAILER_LEN: nat := 9
  const MAX_PAYLOAD: nat := 0x1000_0000
  const NO_TIME: int := -0x8000_0000_0000_0000

  // Little-endian numbers

  function Pow256(n: nat): (p: nat)
    ensures p > 0
  {
    if n == 0 then 1 else 256 * Pow256(n - 1)
  }

  /** The low `width` bytes of `n`, least first. */
  function Le(n: nat, width: nat): (b: seq<u8>)
    ensures |b| == width
  {
    if width == 0 then [] else [n % 256] + Le(n / 256, width - 1)
  }

  function FromLe(b: seq<u8>): nat {
    if b == [] then 0 else b[0] + 256 * FromLe(b[1..])
  }

  lemma {:induction false} LeRoundTrip(n: nat, width: nat)
    requires n < Pow256(width)
    ensures FromLe(Le(n, width)) == n
  {
    if width > 0 {
      assert n / 256 < Pow256(width - 1);
      LeRoundTrip(n / 256, width - 1);
      assert Le(n, width)[1..] == Le(n / 256, width - 1);
    }
  }

  lemma {:induction false} FromLeBound(b: seq<u8>)
    ensures FromLe(b) < Pow256(|b|)
  {
    if b != [] {
      FromLeBound(b[1..]);
    }
  }

  lemma Pow256Values()
    ensures Pow256(2) == 0x1_0000 && Pow256(4) == TWO_32 && Pow256(8) == TWO_64
  {
    assert Pow256(1) == 256;
    assert Pow256(2) == 256 * Pow256(1);
    assert Pow256(3) == 256 * Pow256(2);
    assert Pow256(4) == 256 * Pow256(3);
    assert Pow256(5) == 256 * Pow256(4);
    assert Pow256(6) == 256 * Pow256(5);
    assert Pow256(7) == 256 * Pow256(6);
    assert Pow256(8) == 256 * Pow256(7);
  }

  // Records

  datatype Kind =
    | Header | KeyFrame | DeltaFrame | IndexKind
    | Statics | WindowsKind | ProcessServices | Disks | Adapters | Gpus | Services
  {
    function ToByte(): u8 {
      match this
      case Header => 1
      case KeyFrame => 2
      case DeltaFrame => 3
      case IndexKind => 4
      case Statics => 16
      case WindowsKind => 17
      case ProcessServices => 18
      case Disks => 19
      case Adapters => 20
      case Gpus => 21
      case Services => 22
    }

    predicate IsFrame() {
      KeyFrame? || DeltaFrame?
    }

    predicate IsTable() {
      ToByte() >= Statics.ToByte()
    }
  }

  /** The kind a byte stands for. Only a kind's own byte reads back as it. */
  function KindFromByte(b: u8): (k: Option<Kind>)
    ensures k.Some? ==> k.value.ToByte() == b
    ensures forall kind: Kind :: kind.ToByte() == b ==> k == Some(kind)
  {
    match b
    case 1 => Some(Header)
    case 2 => Some(KeyFrame)
    case 3 => Some(DeltaFrame)
    case 4 => Some(IndexKind)
    case 16 => Some(Statics)
    case 17 => Some(WindowsKind)
    case 18 => Some(ProcessServices)
    case 19 => Some(Disks)
    case 20 => Some(Adapters)
    case 21 => Some(Gpus)
    case 22 => Some(Services)
    case _ => None
  }

  datatype Record = Record(kind: Kind, payload: seq<u8>) {
    function Size(): nat {
      RECORD_HEADER_LEN + |payload|
    }
  }

  function RecordBytes(r: Record): (b: seq<u8>)
    ensures |b| == r.Size()
  {
    [r.kind.ToByte()] + Le(|r.payload|, 4) + r.payload
  }

  function Bytes(records: seq<Record>): seq<u8> {
    if records == [] then [] else Bytes(records[..|records| - 1]) + RecordBytes(records[|records| - 1])
  }

  /** Append one record, or fail when its length does not fit the header. */
  method WriteRecord(file: seq<u8>, kind: Kind, payload: seq<u8>) returns (r: Result<seq<u8>>)
    ensures |payload| < TWO_32 ==> r == Ok(file + RecordBytes(Record(kind, payload)))
    ensures |payload| >= TWO_32 ==> r == Err(Io)
  {
    if |payload| >= TWO_32 {
      return Err(Io);
    }
    var out := file + [kind.ToByte()];
    out := out + Le(|payload|, 4);
    out := out + payload;
    assert out == file + RecordBytes(Record(kind, payload));
    return Ok(out);
  }

  /** The first byte and the length field of a header at `pos`, if there is room for one. */
  function ReadRecordHeader(file: seq<u8>, pos: nat): Option<(u8, nat)> {
    if pos + RECORD_HEADER_LEN > |file| then None
    else Some((file[pos], FromLe(file[pos + 1..pos + 5])))
  }

  /** `b` is at `pos` in `file`. */
  predicate At(file: seq<u8>, pos: nat, b: seq<u8>) {
    pos + |b| <= |file| && file[pos..pos + |b|] == b
  }

  lemma HeaderAt(file: seq<u8>, pos: nat, r: Record)
    requires At(file, pos, RecordBytes(r)) && |r.payload| < TWO_32
    ensures ReadRecordHeader(file, pos) == Some((r.kind.ToByte(), |r.payload|))
    ensures file[pos + RECORD_HEADER_LEN..pos + r.Size()] == r.payload
  {
    var b := RecordBytes(r);
    assert file[pos..pos + r.Size()] == b;
    assert forall i :: 0 <= i < |b| ==> b[i] == file[pos + i];
    assert b[1..5] == Le(|r.payload|, 4) && b[5..] == r.payload;
    assert file[pos + 1..pos + 5] == b[1..5];
    assert file[pos + 5..pos + r.Size()] == b[5..];
    Pow256Values();
    LeRoundTrip(|r.payload|, 4);
  }

  // A frame's tick and time, uncompressed in front of its body

  function FramePrefix(tick: u64, atUnixMs: Option<i64>): (b: seq<u8>)
    ensures |b| == FRAME_PREFIX_LEN
  {
    Le(tick, 8) + Le(CastUnsigned64(if atUnixMs.Some? then atUnixMs.value else NO_TIME), 8)
  }

  function ParseFramePrefix(p: seq<u8>): Option<(u64, Option<i64>)> {
    if |p| < FRAME_PREFIX_LEN then None
    else
      FromLeBound(p[..8]);
      FromLeBound(p[8..16]);
      Pow256Values();
      var at := CastSigned64(FromLe(p[8..16]));
      Some((FromLe(p[..8]), if at != NO_TIME then Some(at) else None))
  }

  /** The prefix comes back unless its time is the one that stands for none. */
  lemma PrefixRoundTrip(tick: u64, atUnixMs: Option<i64>, rest: seq<u8>)
    ensures ParseFramePrefix(FramePrefix(tick, atUnixMs) + rest) == Some((tick, atUnixMs)) <==> atUnixMs != Some(NO_TIME)
  {
    var p := FramePrefix(tick, atUnixMs) + rest;
    var at := CastUnsigned64(if atUnixMs.Some? then atUnixMs.value else NO_TIME);
    assert p[..8] == Le(tick, 8) && p[8..16] == Le(at, 8);
    Pow256Values();
    LeRoundTrip(tick, 8);
    LeRoundTrip(at, 8);
  }

  const NS_PER_MS: int := 1_000_000

  /** Milliseconds since the Unix epoch, toward it, where 64 bits hold them. */
  function UnixMs(takenAt: Option<int>): (ms: Option<i64>)
    ensures ms != Some(NO_TIME)
    ensures ms.Some? ==> takenAt.Some? && -NS_PER_MS < takenAt.value - ms.value * NS_PER_MS < NS_PER_MS
    ensures ms.Some? ==> if takenAt.value >= 0 then 0 <= ms.value * 1_000_000 <= takenAt.value else takenAt.value <= ms.value * 1_000_000 <= 0
    ensures takenAt.Some? && -TWO_63 * NS_PER_MS < takenAt.value < TWO_63 * NS_PER_MS ==> ms.Some?
  {
    if takenAt.None? then None
    else
      var away := if takenAt.value >= 0 then takenAt.value / NS_PER_MS else -takenAt.value / NS_PER_MS;
      if away >= TWO_63 then None
      else if takenAt.value >= 0 then Some(away)
      else Some(-away)
  }

  // Payloads

  datatype RecordHeader = RecordHeader(
    appVersion: string, hardware: Hardware, capabilities: seq<string>, started: int, intervalMs: nat)

  /** One frame in the index: the offset of its record, and what its prefix says. */
  datatype FrameEntry = FrameEntry(offset: nat, key: bool, tick: u64, atUnixMs: Option<i64>)

  datatype Index = Index(frames: seq<FrameEntry>, tables: seq<nat>)

  datatype Payload =
    | HeaderOf(header: RecordHeader)
    | IndexOf(index: Index)
    | FrameV1(body: Body)
    | FrameV2(body: Body, extra: Extra)
    | FrameV3(body: Body, extra: Extra, gpu: GpuExtra)
    | StaticsOf(statics: seq<(nat, ProcessStatic)>)
    | StaticsV4Of(staticsV4: seq<(nat, ProcessStaticV4)>)
    | WindowsOf(windows: seq<(nat, WindowInfo)>)
    | ProcessServicesOf(processServices: seq<(nat, seq<ServiceInfo>)>)
    | DisksOf(disks: seq<(nat, DiskInfo)>)
    | AdaptersOf(adapters: seq<(nat, AdapterInfo)>)
    | AdaptersV3Of(adaptersV3: seq<(nat, AdapterInfoV3)>)
    | GpusOf(gpus: seq<(nat, GpuInfo)>)
    | ServicesOf(services: seq<(nat, seq<ServiceEntry>)>)

  /** The type a reader asks for: the bytes do not say what they hold. */
  datatype Shape =
    | HeaderShape | IndexShape | FrameV1Shape | FrameV2Shape | FrameV3Shape
    | StaticsShape | StaticsV4Shape | WindowsShape | ProcessServicesShape | DisksShape
    | AdaptersShape | AdaptersV3Shape | GpusShape | ServicesShape

  function ShapeOf(p: Payload): Shape {
    match p
    case HeaderOf(_) => HeaderShape
    case IndexOf(_) => IndexShape
    case FrameV1(_) => FrameV1Shape
    case FrameV2(_, _) => FrameV2Shape
    case FrameV3(_, _, _) => FrameV3Shape
    case StaticsOf(_) => StaticsShape
    case StaticsV4Of(_) => StaticsV4Shape
    case WindowsOf(_) => WindowsShape
    case ProcessServicesOf(_) => ProcessServicesShape
    case DisksOf(_) => DisksShape
    case AdaptersOf(_) => AdaptersShape
    case AdaptersV3Of(_) => AdaptersV3Shape
    case GpusOf(_) => GpusShape
    case ServicesOf(_) => ServicesShape
  }

  /** Serialization (`ser`, `de`) and block compression (`squeeze`, `unsqueeze`, which
      is told the length to expect). */
  datatype Codec = Codec(
    ser: Payload -> seq<u8>,
    de: (Shape, seq<u8>) -> Option<Payload>,
    squeeze: seq<u8> -> seq<u8>,
    unsqueeze: (seq<u8>, nat) -> Option<seq<u8>>)

  ghost predicate Faithful(c: Codec) {
    && (forall p :: c.de(ShapeOf(p), c.ser(p)) == Some(p))
    && (forall raw :: c.unsqueeze(c.squeeze(raw), |raw|) == Some(raw))
  }

  /** The bytes as a value of the asked type. */
  function Parse(c: Codec, shape: Shape, raw: seq<u8>): (r: Result<Payload>)
    ensures r.Ok? ==> ShapeOf(r.value) == shape
  {
    var p := c.de(shape, raw);
    if p.None? || ShapeOf(p.value) != shape then Err(Encoding) else Ok(p.value)
  }

  /** A compressed block with its uncompressed length in front. */
  function Compress(c: Codec, raw: seq<u8>): seq<u8> {
    Le(|raw|, 4) + c.squeeze(raw)
  }

  function Decompress(c: Codec, packed: seq<u8>): Result<seq<u8>> {
    if |packed| < 4 then Err(Corrupt)
    else
      var len := FromLe(packed[..4]);
      if len > MAX_PAYLOAD then Err(Corrupt)
      else
        var raw := c.unsqueeze(packed[4..], len);
        if raw.None? then Err(Corrupt) else Ok(raw.value)
  }

  /** What was compressed comes back exactly when it is no larger than a reader
      allocates for: the writer does not check, and the reader refuses. */
  lemma CompressRoundTrip(c: Codec, raw: seq<u8>)
    requires Faithful(c) && |raw| < TWO_32
    ensures Decompress(c, Compress(c, raw)) == Ok(raw) <==> |raw| <= MAX_PAYLOAD
    ensures |raw| > MAX_PAYLOAD ==> Decompress(c, Compress(c, raw)) == Err(Corrupt)
  {
    var packed := Compress(c, raw);
    assert packed[..4] == Le(|raw|, 4) && packed[4..] == c.squeeze(raw);
    Pow256Values();
    LeRoundTrip(|raw|, 4);
  }
}
