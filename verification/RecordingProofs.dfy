/** A file written by any run of the recorder reads back, whole or cut short. */
module RecordingProofs {
  import opened Basics
  import opened Frame
  import opened Format
  import opened Recording

  // What a list of records says, apart from where it is

  function EntryOf(pos: nat, r: Record): FrameEntry {
    var prefix := ParseFramePrefix(r.payload);
    if prefix.None? then FrameEntry(pos, r.kind == KeyFrame, 0, None)
    else FrameEntry(pos, r.kind == KeyFrame, prefix.value.0, prefix.value.1)
  }

  /** The frames among `records`, the first of which is at `base`. */
  function Frames(base: nat, records: seq<Record>): seq<FrameEntry> {
    if records == [] then []
    else
      var most, last := records[..|records| - 1], records[|records| - 1];
      Frames(base, most) + if last.kind.IsFrame() then [EntryOf(base + |Bytes(most)|, last)] else []
  }

  /** Where the table records among them are. */
  function TableOffsets(base: nat, records: seq<Record>): seq<nat> {
    if records == [] then []
    else
      var most, last := records[..|records| - 1], records[|records| - 1];
      TableOffsets(base, most) + if last.kind.IsTable() then [base + |Bytes(most)|] else []
  }

  /** The reader's tables after the table records among them. */
  function Shelves(c: Codec, r: Readers, records: seq<Record>): Result<Readers> {
    if records == [] then Ok(r)
    else
      var most, last := records[..|records| - 1], records[|records| - 1];
      var before :- Shelves(c, r, most);
      if last.kind.IsTable() then LoadedRecord(c, before, last.kind, last.payload) else Ok(before)
  }

  /** A record a scan walks past: of a frame or a table, no larger than a reader
      allocates for. */
  predicate Readable(r: Record) {
    && (r.kind.IsFrame() || r.kind.IsTable())
    && |r.payload| <= MAX_PAYLOAD
    && (r.kind.IsFrame() ==> |r.payload| >= FRAME_PREFIX_LEN)
  }

  predicate AllReadable(records: seq<Record>) {
    forall i :: 0 <= i < |records| ==> Readable(records[i])
  }

  lemma AtInit(file: seq<u8>, base: nat, records: seq<Record>)
    requires records != [] && At(file, base, Bytes(records))
    ensures var most, last := records[..|records| - 1], records[|records| - 1];
      && At(file, base, Bytes(most))
      && At(file, base + |Bytes(most)|, RecordBytes(last))
      && |Bytes(records)| == |Bytes(most)| + last.Size()
  {
    hide RecordBytes;
    var most, last := records[..|records| - 1], records[|records| - 1];
    var b, m := Bytes(records), |Bytes(most)|;
    assert b == Bytes(most) + RecordBytes(last);
    assert forall i :: 0 <= i < |b| ==> b[i] == file[base + i];
    assert file[base..base + m] == Bytes(most) by {
      assert forall i :: 0 <= i < m ==> Bytes(most)[i] == b[i];
    }
    assert file[base + m..base + |b|] == RecordBytes(last) by {
      assert forall i :: 0 <= i < |RecordBytes(last)| ==> RecordBytes(last)[i] == b[m + i];
    }
  }

  /** One step of a scan: past a whole record. */
  lemma ScanPast(c: Codec, file: seq<u8>, pos: nat, r: Record, so: Scanned)
    requires Readable(r) && At(file, pos, RecordBytes(r))
    requires r.kind.IsTable() ==> LoadedRecord(c, so.readers, r.kind, r.payload).Ok?
    ensures ScanFrom(c, file, pos, so)
      == ScanFrom(c, file, pos + r.Size(),
                  if r.kind.IsFrame() then so.(frames := so.frames + [EntryOf(pos, r)])
                  else so.(readers := LoadedRecord(c, so.readers, r.kind, r.payload).value))
  {
    HeaderAt(file, pos, r);
    hide RecordBytes, LoadedRecord;
    var start := pos + RECORD_HEADER_LEN;
    if r.kind.IsFrame() {
      assert file[start..start + FRAME_PREFIX_LEN] == r.payload[..FRAME_PREFIX_LEN];
      PrefixOnly(r.payload);
    }
  }

  lemma PrefixOnly(payload: seq<u8>)
    requires |payload| >= FRAME_PREFIX_LEN
    ensures ParseFramePrefix(payload[..FRAME_PREFIX_LEN]) == ParseFramePrefix(payload)
    ensures ParseFramePrefix(payload).Some?
  {
    assert payload[..FRAME_PREFIX_LEN][..8] == payload[..8];
    assert payload[..FRAME_PREFIX_LEN][8..16] == payload[8..16];
  }

  /** A scan walks past whole records, finding what they say. */
  lemma {:induction false} ScanWalks(c: Codec, file: seq<u8>, base: nat, records: seq<Record>, r: Readers)
    requires AllReadable(records) && At(file, base, Bytes(records)) && Shelves(c, r, records).Ok?
    ensures ScanFrom(c, file, base, Scanned([], r))
      == ScanFrom(c, file, base + |Bytes(records)|, Scanned(Frames(base, records), Shelves(c, r, records).value))
  {
    hide ScanFrom, RecordBytes, LoadedRecord, EntryOf;
    if records != [] {
      var most, last := records[..|records| - 1], records[|records| - 1];
      AtInit(file, base, records);
      ScanWalks(c, file, base, most, r);
      assert Readable(last);
      ScanPast(c, file, base + |Bytes(most)|, last, Scanned(Frames(base, most), Shelves(c, r, most).value));
      if last.kind.IsTable() {
        assert Frames(base, records) == Frames(base, most);
      }
    }
  }

  /** A scan stops at a record that is not all there. */
  lemma ScanStops(c: Codec, file: seq<u8>, pos: nat, r: Record, so: Scanned)
    requires pos <= |file| < pos + r.Size() && |r.payload| <= MAX_PAYLOAD
    requires file[pos..] == RecordBytes(r)[..|file| - pos]
    ensures ScanFrom(c, file, pos, so) == Ok(so)
  {
    if pos + RECORD_HEADER_LEN <= |file| {
      var b := RecordBytes(r);
      assert forall i :: 0 <= i < |file| - pos ==> file[pos..][i] == b[i];
      assert b[1..5] == Le(|r.payload|, 4);
      assert file[pos + 1..pos + 5] == b[1..5] by {
        assert file[pos..][1..5] == file[pos + 1..pos + 5];
      }
      Pow256Values();
      LeRoundTrip(|r.payload|, 4);
    }
  }

  /** And at a record of neither a frame nor a table. */
  lemma ScanEnds(c: Codec, file: seq<u8>, pos: nat, r: Record, so: Scanned)
    requires At(file, pos, RecordBytes(r)) && |r.payload| <= MAX_PAYLOAD
    requires !r.kind.IsFrame() && !r.kind.IsTable()
    ensures ScanFrom(c, file, pos, so) == Ok(so)
  {
    HeaderAt(file, pos, r);
  }

  /** The record at its offset, as far as `limit` reaches it. */
  lemma ReadAt(file: seq<u8>, pos: nat, limit: nat, r: Record)
    requires At(file, pos, RecordBytes(r)) && pos + r.Size() <= limit <= |file| && |r.payload| <= MAX_PAYLOAD
    ensures ReadRecord(file, pos, limit) == Ok(Some(r))
  {
    HeaderAt(file, pos, r);
  }

  /** What the writer wrote is read back exactly when it is no larger than a reader
      allocates for: the writer checks no more than that the length fits its header. A
      larger record is refused where it is read, and ends a scan. */
  lemma ReadBackIff(c: Codec, file: seq<u8>, pos: nat, limit: nat, r: Record, so: Scanned)
    requires At(file, pos, RecordBytes(r)) && pos + r.Size() <= limit <= |file| && |r.payload| < TWO_32
    ensures ReadRecord(file, pos, limit) == Ok(Some(r)) <==> |r.payload| <= MAX_PAYLOAD
    ensures |r.payload| > MAX_PAYLOAD ==> ReadRecord(file, pos, limit) == Err(Corrupt)
    ensures |r.payload| > MAX_PAYLOAD ==> ScanFrom(c, file, pos, so) == Ok(so)
  {
    HeaderAt(file, pos, r);
    if |r.payload| <= MAX_PAYLOAD {
      ReadAt(file, pos, limit, r);
    }
  }

  lemma {:induction false} LoadMore(c: Codec, file: seq<u8>, a: seq<nat>, b: seq<nat>, limit: nat, r: Readers, n: nat)
    requires n <= |a| <= |b| && b[..|a|] == a && limit <= |file|
    ensures LoadTables(c, file, a, limit, r, n) == LoadTables(c, file, b, limit, r, n)
  {
    hide LoadedRecord, ReadRecord;
    if n > 0 {
      LoadMore(c, file, a, b, limit, r, n - 1);
      assert a[n - 1] == b[n - 1];
    }
  }

  /** Loading the tables an index names gives what scanning them does. */
  lemma {:induction false} LoadNamed(c: Codec, file: seq<u8>, base: nat, records: seq<Record>, limit: nat, r: Readers)
    requires AllReadable(records) && At(file, base, Bytes(records)) && Shelves(c, r, records).Ok?
    requires base + |Bytes(records)| <= limit <= |file|
    ensures LoadTables(c, file, TableOffsets(base, records), limit, r, |TableOffsets(base, records)|)
      == Some(Shelves(c, r, records).value)
  {
    hide RecordBytes, LoadedRecord, ReadRecord;
    if records != [] {
      var most, last := records[..|records| - 1], records[|records| - 1];
      AtInit(file, base, records);
      LoadNamed(c, file, base, most, limit, r);
      if last.kind.IsTable() {
        ReadAt(file, base + |Bytes(most)|, limit, last);
        var some, all := TableOffsets(base, most), TableOffsets(base, records);
        assert all == some + [base + |Bytes(most)|];
        assert all[..|some|] == some;
        LoadMore(c, file, some, all, limit, r, |some|);
      } else {
        assert TableOffsets(base, records) == TableOffsets(base, most);
      }
    }
  }
}
