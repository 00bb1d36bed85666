/** Reading a recording: by its index, or by scanning a file that was cut short; and
    any frame of it from the nearest keyframe, or from the last one decoded. */
module Recording {
  import opened Basics
  import opened Model
  import opened Table
  import opened Frame
  import opened Format

  // Tables

  function StaticsFromV4(entries: seq<(nat, ProcessStaticV4)>): seq<(nat, ProcessStatic)> {
    seq(|entries|, i requires 0 <= i < |entries| => (entries[i].0, StaticFromV4(entries[i].1)))
  }

  function AdaptersFromV3(entries: seq<(nat, AdapterInfoV3)>): seq<(nat, AdapterInfo)> {
    seq(|entries|, i requires 0 <= i < |entries| => (entries[i].0, AdapterFromV3(entries[i].1)))
  }

  /** The type a table record of `kind` holds, in a file of format `version`. */
  function TableShape(version: nat, kind: Kind): Option<Shape> {
    match kind
    case Statics => Some(if version >= 5 then StaticsShape else StaticsV4Shape)
    case WindowsKind => Some(WindowsShape)
    case ProcessServices => Some(ProcessServicesShape)
    case Disks => Some(DisksShape)
    case Adapters => Some(if version >= 4 then AdaptersShape else AdaptersV3Shape)
    case Gpus => Some(GpusShape)
    case Services => Some(ServicesShape)
    case _ => None
  }

  function WithValues<T>(shelf: Shelf<T>, values: seq<(nat, T)>): Shelf<T> {
    shelf.(items := Inserted(shelf.items, values))
  }

  function Stored(r: Readers, p: Payload): Readers {
    match p
    case StaticsOf(v) => r.(statics := WithValues(r.statics, v))
    case StaticsV4Of(v) => r.(statics := WithValues(r.statics, StaticsFromV4(v)))
    case WindowsOf(v) => r.(windows := WithValues(r.windows, v))
    case ProcessServicesOf(v) => r.(processServices := WithValues(r.processServices, v))
    case DisksOf(v) => r.(disks := WithValues(r.disks, v))
    case AdaptersOf(v) => r.(adapters := WithValues(r.adapters, v))
    case AdaptersV3Of(v) => r.(adapters := WithValues(r.adapters, AdaptersFromV3(v)))
    case GpusOf(v) => r.(gpus := WithValues(r.gpus, v))
    case ServicesOf(v) => r.(services := WithValues(r.services, v))
    case _ => r
  }

  /** Add one decompressed table record. */
  function Loaded(c: Codec, r: Readers, kind: Kind, raw: seq<u8>): Result<Readers> {
    var shape := TableShape(r.version, kind);
    if shape.None? then Err(Corrupt)
    else
      var p :- Parse(c, shape.value, raw);
      Ok(Stored(r, p))
  }

  /** Add one table record as it is in the file. */
  function LoadedRecord(c: Codec, r: Readers, kind: Kind, payload: seq<u8>): Result<Readers> {
    var raw :- Decompress(c, payload);
    Loaded(c, r, kind, raw)
  }

  // Records

  /** What a record header at `offset` announces, if all of it lies before `limit` and its
      kind has a meaning; a length over the reader's maximum is an error. */
  function ReadRecord(file: seq<u8>, offset: nat, limit: nat): Result<Option<Record>>
    requires limit <= |file|
  {
    if offset + RECORD_HEADER_LEN > limit then Ok(None)
    else
      var header := ReadRecordHeader(file, offset);
      if header.None? then Ok(None)
      else
        var kind := KindFromByte(header.value.0);
        var len := header.value.1;
        if kind.None? then Ok(None)
        else if len > MAX_PAYLOAD then Err(Corrupt)
        else if offset + RECORD_HEADER_LEN + len > limit then Ok(None)
        else Ok(Some(Record(kind.value, file[offset + RECORD_HEADER_LEN..offset + RECORD_HEADER_LEN + len])))
  }

  /** Whether an index can be what the recorder left: its frames in ascending order,
      everything it names between the header and itself, a keyframe first. */
  predicate Plausible(index: Index, bodyStart: nat, indexAt: nat) {
    && (forall i :: 0 <= i < |index.frames| - 1 ==> index.frames[i].offset < index.frames[i + 1].offset)
    && (forall i :: 0 <= i < |index.frames| ==>
          bodyStart <= index.frames[i].offset && index.frames[i].offset + RECORD_HEADER_LEN <= indexAt)
    && (forall i :: 0 <= i < |index.tables| ==>
          bodyStart <= index.tables[i] && index.tables[i] + RECORD_HEADER_LEN <= indexAt)
    && (|index.frames| > 0 ==> index.frames[0].key)
  }

  /** Whether the trailer's mark is there; a file cut short rarely has it. */
  predicate EndsInMagic(file: seq<u8>) {
    |file| >= TRAILER_LEN && file[|file| - |INDEX_MAGIC|..] == INDEX_MAGIC
  }

  /** The index, and where its record is, found from the file's last bytes. Anything amiss
      there but a record over the maximum gives `None`, and the caller scans. */
  function ReadIndex(c: Codec, file: seq<u8>, bodyStart: nat): (r: Result<Option<(Index, nat)>>)
    ensures !EndsInMagic(file) ==> r == Ok(None)
    ensures r.Ok? && r.value.Some? ==>
      var (index, at) := r.value.value;
      && EndsInMagic(file) && Plausible(index, bodyStart, at) && bodyStart <= at
      && at + RECORD_HEADER_LEN + FromLe(file[|file| - TRAILER_LEN..][..4]) + TRAILER_LEN == |file|
      && exists payload: seq<u8> ::
           && ReadRecord(file, at, |file|) == Ok(Some(Record(IndexKind, payload)))
           && Parse(c, IndexShape, payload) == Ok(IndexOf(index))
    ensures r.Ok? && r.value.Some? ==>
      var (index, at) := r.value.value;
      && (forall i :: 0 < i < |index.frames| ==> index.frames[i - 1].offset < index.frames[i].offset)
      && (forall f :: f in index.frames ==> bodyStart <= f.offset <= at - RECORD_HEADER_LEN)
      && (forall t :: t in index.tables ==> bodyStart <= t <= at - RECORD_HEADER_LEN)
      && (index.frames != [] ==> index.frames[0].key)
  {
    if |file| < bodyStart + RECORD_HEADER_LEN + TRAILER_LEN then Ok(None)
    else
      var trailer := file[|file| - TRAILER_LEN..];
      if trailer[4..] != INDEX_MAGIC then Ok(None)
      else
        var indexLen := FromLe(trailer[..4]);
        var indexAt := |file| - TRAILER_LEN - (indexLen + RECORD_HEADER_LEN);
        if indexAt < bodyStart then Ok(None)
        else
          var record :- ReadRecord(file, indexAt, |file|);
          if record.None? || record.value.kind != IndexKind then Ok(None)
          else
            var index := Parse(c, IndexShape, record.value.payload);
            if index.Err? || !Plausible(index.value.index, bodyStart, indexAt) then Ok(None)
            else Ok(Some((index.value.index, indexAt)))
  }

  /** The readers after the table records at the first `n` offsets; `None` as soon as one
      of these is no table record or does not load. */
  function LoadTables(c: Codec, file: seq<u8>, offsets: seq<nat>, limit: nat, r: Readers, n: nat): Option<Readers>
    requires n <= |offsets| && limit <= |file|
  {
    if n == 0 then Some(r)
    else
      var before := LoadTables(c, file, offsets, limit, r, n - 1);
      if before.None? then None
      else
        var record := ReadRecord(file, offsets[n - 1], limit);
        if record.Err? || record.value.None? || !record.value.value.kind.IsTable() then None
        else
          var loaded := LoadedRecord(c, before.value, record.value.value.kind, record.value.value.payload);
          if loaded.Err? then None else Some(loaded.value)
  }

  datatype Scanned = Scanned(frames: seq<FrameEntry>, readers: Readers)

  /** What is found without an index: from `pos` on, an entry for each frame record and the
      contents of each table record, up to the first that is cut off or unknown. */
  function ScanFrom(c: Codec, file: seq<u8>, pos: nat, so: Scanned): Result<Scanned>
    decreases |file| - pos
  {
    var header := ReadRecordHeader(file, pos);
    if header.None? then Ok(so)
    else
      var start := pos + RECORD_HEADER_LEN;
      var len := header.value.1;
      var end := start + len;
      if len > MAX_PAYLOAD || end > |file| then Ok(so)
      else
        var kind := KindFromByte(header.value.0);
        if kind.None? then Ok(so)
        else if kind.value.IsFrame() then
          if len < FRAME_PREFIX_LEN then Ok(so)
          else
            var prefix := ParseFramePrefix(file[start..start + FRAME_PREFIX_LEN]);
            if prefix.None? then Ok(so)
            else
              var entry := FrameEntry(pos, kind.value == KeyFrame, prefix.value.0, prefix.value.1);
              ScanFrom(c, file, end, so.(frames := so.frames + [entry]))
        else if kind.value.IsTable() then
          var readers :- LoadedRecord(c, so.readers, kind.value, file[start..end]);
          ScanFrom(c, file, end, so.(readers := readers))
        else Ok(so)
  }

  /** The frames from the first keyframe on. */
  function Trimmed(frames: seq<FrameEntry>): seq<FrameEntry> {
    if frames == [] || frames[0].key then frames else Trimmed(frames[1..])
  }

  /** Frames are dropped just as far as the first keyframe. */
  lemma {:induction false} TrimmedIs(frames: seq<FrameEntry>, k: nat)
    requires k <= |frames| && (forall j :: 0 <= j < k ==> !frames[j].key) && (k < |frames| ==> frames[k].key)
    ensures Trimmed(frames) == frames[k..]
  {
    if k > 0 {
      TrimmedIs(frames[1..], k - 1);
    }
  }

  method Scan(c: Codec, file: seq<u8>, bodyStart: nat, readers: Readers) returns (r: Result<Scanned>)
    ensures
      var s := ScanFrom(c, file, bodyStart, Scanned([], readers));
      r == if s.Ok? then Ok(s.value.(frames := Trimmed(s.value.frames))) else s
  {
    hide Loaded, Decompress, ParseFramePrefix, FromLe, Stored, Parse;
    var frames: seq<FrameEntry>, tables := [], readers;
    var pos := bodyStart;
    ghost var goal := ScanFrom(c, file, bodyStart, Scanned([], readers));
    while true
      invariant ScanFrom(c, file, pos, Scanned(frames, tables)) == goal
      decreases |file| - pos
    {
      var header := ReadRecordHeader(file, pos);
      if header.None? {
        break;
      }
      var offset := pos;
      pos := pos + RECORD_HEADER_LEN;
      var len := header.value.1;
      var end := pos + len;
      if len > MAX_PAYLOAD || end > |file| {
        break;
      }
      var kind := KindFromByte(header.value.0);
      if kind.None? {
        break;
      }
      if kind.value.IsFrame() {
        if len < FRAME_PREFIX_LEN {
          break;
        }
        var prefix := ParseFramePrefix(file[pos..pos + FRAME_PREFIX_LEN]);
        if prefix.None? {
          break;
        }
        frames := frames + [FrameEntry(offset, kind.value == KeyFrame, prefix.value.0, prefix.value.1)];
      } else if kind.value.IsTable() {
        var raw := Decompress(c, file[pos..end]);
        if raw.Err? {
          return Err(raw.error);
        }
        var loaded := Loaded(c, tables, kind.value, raw.value);
        if loaded.Err? {
          return Err(loaded.error);
        }
        tables := loaded.value;
      } else {
        break;
      }
      pos := end;
    }
    assert goal == Ok(Scanned(frames, tables));
    ghost var found := frames;
    while frames != [] && !frames[0].key
      invariant Trimmed(frames) == Trimmed(found)
    {
      frames := frames[1..];
    }
    return Ok(Scanned(frames, tables));
  }

  // Opening

  /** A recording open for reading, but for what it remembers between reads. */
  datatype Opened = Opened(
    file: seq<u8>,
    header: RecordHeader,
    version: nat,
    frames: seq<FrameEntry>,
    readers: Readers,
    hadIndex: bool)

  /** The header, and where the records after it start. */
  function ReadStart(c: Codec, file: seq<u8>): Result<(RecordHeader, nat, nat)> {
    if |file| < PREAMBLE_LEN || file[..5] != MAGIC then Err(NotARecording)
    else
      var version := FromLe(file[5..7]);
      if !(OLDEST_VERSION <= version <= FORMAT_VERSION) then Err(UnsupportedVersion(version))
      else
        var record :- ReadRecord(file, PREAMBLE_LEN, |file|);
        if record.None? || record.value.kind != Header then Err(Corrupt)
        else
          var header :- Parse(c, HeaderShape, record.value.payload);
          Ok((header.header, version, PREAMBLE_LEN + record.value.Size()))
  }

  function ScanAll(c: Codec, file: seq<u8>, header: RecordHeader, version: nat, bodyStart: nat): Result<Opened> {
    var s :- ScanFrom(c, file, bodyStart, Scanned([], EmptyReaders(version)));
    Ok(Opened(file, header, version, Trimmed(s.frames), s.readers, false))
  }

  function Open(c: Codec, file: seq<u8>): Result<Opened> {
    var (header, version, bodyStart) :- ReadStart(c, file);
    var index :- ReadIndex(c, file, bodyStart);
    if index.None? then ScanAll(c, file, header, version, bodyStart)
    else
      var (named, indexAt) := index.value;
      var tables := LoadTables(c, file, named.tables, indexAt, EmptyReaders(version), |named.tables|);
      if tables.None? then ScanAll(c, file, header, version, bodyStart)
      else Ok(Opened(file, header, version, named.frames, tables.value, true))
  }

  // Frames

  function FrameShape(version: nat): Shape {
    if version >= 3 then FrameV3Shape else if version >= 2 then FrameV2Shape else FrameV1Shape
  }

  function FrameParts(p: Payload): (Body, Option<Extra>, Option<GpuExtra>)
    requires p.FrameV1? || p.FrameV2? || p.FrameV3?
  {
    match p
    case FrameV1(body) => (body, None, None)
    case FrameV2(body, extra) => (body, Some(extra), None)
    case FrameV3(body, extra, gpu) => (body, Some(extra), Some(gpu))
  }

  /** A frame record's payload as a snapshot, against `prev`. */
  function DecodePayload(c: Codec, o: Opened, key: bool, payload: seq<u8>, prev: Option<Snapshot>): Result<Snapshot> {
    if |payload| < FRAME_PREFIX_LEN then Err(Corrupt)
    else if !key && prev.None? then Err(Corrupt)
    else
      var raw :- Decompress(c, payload[FRAME_PREFIX_LEN..]);
      var p :- Parse(c, FrameShape(o.version), raw);
      var (body, extra, gpu) := FrameParts(p);
      Decoded(body, extra, gpu, prev, o.readers, o.header.hardware)
  }

  /** The `k`th listed frame, given the snapshot to take differences from. */
  function DecodeFrame(c: Codec, o: Opened, k: nat, prev: Option<Snapshot>): Result<Snapshot>
    requires k < |o.frames|
  {
    var entry := o.frames[k];
    var record :- ReadRecord(o.file, entry.offset, |o.file|);
    if record.None? then Err(Corrupt)
    else if record.value.kind != (if entry.key then KeyFrame else DeltaFrame) then Err(Corrupt)
    else DecodePayload(c, o, entry.key, record.value.payload, prev)
  }

  /** Frame `i`, by recursion: a keyframe stands alone, any other needs the one before. */
  function FrameAt(c: Codec, o: Opened, i: nat): Result<Snapshot>
    requires i < |o.frames|
  {
    if o.frames[i].key then DecodeFrame(c, o, i, None)
    else if i == 0 then Err(Corrupt)
    else
      var before :- FrameAt(c, o, i - 1);
      DecodeFrame(c, o, i, Some(before))
  }

  /** A keyframe at just every multiple of `n`. */
  ghost predicate KeysEvery(frames: seq<FrameEntry>, n: nat) {
    n >= 1 && forall i :: 0 <= i < |frames| ==> (frames[i].key <==> i % n == 0)
  }

  lemma KeyIsNear(frames: seq<FrameEntry>, n: nat, i: nat, k: nat)
    requires KeysEvery(frames, n) && k <= i < |frames|
    requires forall j :: k < j <= i ==> !frames[j].key
    ensures i - k < n
  {
    var q, m := i / n, i % n;
    assert i == q * n + m;
    Multiples(0, q, n);
    Remainder(i - m, n, q, 0);
    assert 0 <= m < n && 0 <= i - m < |frames|;
    assert frames[i - m].key;
  }

  /** An opened file with a cache of one decoded frame, from which `Frame` goes on when it
      can. */
  class Reader {
    const codec: Codec
    const recording: Opened
    var cache: Option<(nat, Snapshot)>
    /** How many frames have been decoded for all that was read. */
    ghost var decoded: nat

    /** What is remembered is what reading it again would give. */
    ghost predicate Valid()
      reads this
    {
      cache.Some? ==> cache.value.0 < |recording.frames| && FrameAt(codec, recording, cache.value.0) == Ok(cache.value.1)
    }

    constructor (codec: Codec, recording: Opened)
      ensures Valid() && this.codec == codec && this.recording == recording
    {
      this.codec := codec;
      this.recording := recording;
      cache, decoded := None, 0;
    }

    /** Frame `i`, whatever was read before it, in whatever order, and whether or not
        those reads worked. */
    method Frame(i: nat) returns (r: Result<Snapshot>)
      requires Valid()
      modifies this
      ensures Valid()
      ensures r == if i < |recording.frames| then FrameAt(codec, recording, i) else Err(OutOfRange(i, |recording.frames|))
      ensures r.Err? ==> cache == old(cache)
      ensures old(cache).Some? && old(cache).value.0 == i ==> decoded == old(decoded)
      ensures old(cache).Some? && old(cache).value.0 + 1 == i && i < |recording.frames| && !recording.frames[i].key ==>
        decoded <= old(decoded) + 1
      ensures forall n :: KeysEvery(recording.frames, n) ==> decoded <= old(decoded) + n
    {
      if i >= |recording.frames| {
        return Err(OutOfRange(i, |recording.frames|));
      }
      if cache.Some? && cache.value.0 == i {
        return Ok(cache.value.1);
      }
      if cache.Some? && cache.value.0 + 1 == i && !recording.frames[i].key {
        r := DecodeForward(i, i, Some(cache.value.1));
      } else {
        var key := KeyframeBefore(i);
        if key.None? {
          return Err(Corrupt);
        }
        r := DecodeForward(key.value, i, None);
        forall n | KeysEvery(recording.frames, n)
          ensures decoded <= old(decoded) + n
        {
          KeyIsNear(recording.frames, n, i, key.value);
        }
      }
      if r.Ok? {
        cache := Some((i, r.value));
      }
    }

    /** Decode frames `start` to `i`, the first against `base` and each other against
        the one before it. */
    method DecodeForward(start: nat, i: nat, base: Option<Snapshot>) returns (r: Result<Snapshot>)
      requires start <= i < |recording.frames|
      requires FrameAt(codec, recording, start) == DecodeFrame(codec, recording, start, base)
      requires forall j :: start < j <= i ==> !recording.frames[j].key
      modifies this`decoded
      ensures r == FrameAt(codec, recording, i)
      ensures old(decoded) <= decoded <= old(decoded) + (i - start) + 1
    {
      hide DecodeFrame;
      var last := base;
      for k := start to i + 1
        invariant k == start ==> last == base
        invariant decoded == old(decoded) + (k - start)
        invariant k > start ==> last.Some? && FrameAt(codec, recording, k - 1) == Ok(last.value)
      {
        r := DecodeFrame(codec, recording, k, last);
        decoded := decoded + 1;
        if r.Err? {
          FailureCarries(codec, recording, k, i);
          return;
        }
        last := Some(r.value);
      }
      return Ok(last.value);
    }

    /** The greatest keyframe index up to `i`, if there is any. */
    method KeyframeBefore(i: nat) returns (k: Option<nat>)
      requires i < |recording.frames|
      ensures k.Some? ==> k.value <= i && recording.frames[k.value].key && forall j :: k.value < j <= i ==> !recording.frames[j].key
      ensures k.None? ==> FrameAt(codec, recording, i) == Err(Corrupt)
    {
      var n: nat := i + 1;
      while n > 0
        invariant n <= i + 1
        invariant forall j :: n <= j <= i ==> !recording.frames[j].key
      {
        n := n - 1;
        if recording.frames[n].key {
          return Some(n);
        }
      }
      NoKeyframe(codec, recording, i);
      return None;
    }
  }

  /** A delta cannot be read when the frame before it cannot. */
  lemma {:induction false} FailureCarries(c: Codec, o: Opened, k: nat, i: nat)
    requires k <= i < |o.frames| && FrameAt(c, o, k).Err?
    requires forall j :: k < j <= i ==> !o.frames[j].key
    ensures FrameAt(c, o, i) == FrameAt(c, o, k)
  {
    if k < i {
      FailureCarries(c, o, k, i - 1);
    }
  }

  lemma {:induction false} NoKeyframe(c: Codec, o: Opened, i: nat)
    requires i < |o.frames| && forall j :: 0 <= j <= i ==> !o.frames[j].key
    ensures FrameAt(c, o, i) == Err(Corrupt)
  {
    if i > 0 {
      NoKeyframe(c, o, i - 1);
    }
  }
}
