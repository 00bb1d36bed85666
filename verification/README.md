# Verified model of a process monitor's recorder, history, painting and replay

A model in Dafny of those parts of the monitor whose correctness spans many
functions or a whole run, with proofs of what those parts promise.

- **Flight recorder** (`Delta`, `Table`, `Frame*`, `Format`, `Recorder`, `Recording*`).
  A stream of snapshots becomes a file: shared values once, in tables keyed by pointer;
  a keyframe every so many frames and deltas between; an index at the end. A reader
  opens the file by its index or by scanning it, and decodes any frame. The file is a
  sequence of bytes; serialization and compression are functions that invert each other.
- **Usage history** (`Usage*`). Fading totals per process, and the history behind the
  chart: raw stretches, a step being filled, closed steps, and what has passed the reach.
  How a total fades is a pair of functions that follow the laws of the exponential.
  The lineage of processes is trimmed by walking up parents.
- **Incremental painting** (`Geometry`, `Drawing`, `Display`, `Damage`, `Partial`). Two
  display lists are compared, and only what differs is drawn again over the pixels kept.
  A painter is any function that changes a point only where its command's geometry,
  with the fringe around it, has ink, and the clip in force lets it.
- **Time series** (`Ring`, `Timeline*`). Raw samples and buckets at several resolutions,
  read back as one history.
- **Charts** (`Chart*`, `Words`). Moving cursors, strips of columns, windows of segments
  and runs of bits, each held to a plain definition of what a pixel is covered by, which in
  turn is held to areas and distances in the plane. Words
  of 64 bits and packed pixels are numbers, their shifts and masks written out.
- **Protocols** (`Player`, `RecordChannel`, `Sampler`, `Civil`). The replay thread and the
  recording channel step by step, in every interleaving, and days as calendar dates.

Objects the program changes in place are classes; their methods are tied to functions of
the state before, or state the whole state after, and what they promise is proved of
those. `ghost` fields keep what happened (everything recorded, offered or pushed), so that
each invariant is a statement about every run so far. Fixed-width integers are written
out where their width matters; other numbers are unbounded, and floats are real numbers
except where their bits are what is stored.

Where the code and its own comments differ, the model follows the code:

- A time series' comment says a sample older than the newest is folded into the open
  bucket. The code opens a bucket of its own for it unless it falls in that one
  (`TimelineTheorems.JoinsOpenBucket`, `TimelineTheorems.OlderOpensBucket`).
- The merging of damaged rectangles is said to go on until none are near each other. One
  that has grown is not compared again with those before it: `Damage.NearOnesLeft` is a case
  where two near ones stay, and `Damage.ScatteredIff` says when none do.
- A history's steps are said to be at most 720. That holds just for reaches up to 7190600
  milliseconds (`UsageReach.WithinSevenTwentyIff`); `UsageReach.ClimbStairs` is a run with
  721 for any longer one.
- A recording is said to have every snapshot published after it was started. One is missed
  if a pass is already past looking where to hand its own (`Sampler.FromNowOnIff`,
  `Sampler.MissesOne`).
- A series is said to hold so many points when full. A ring asked to hold none holds one
  (`TimelineTheorems.PointsBound`, `TimelineTheorems.HoldsOneMore`).
- A snapshot taken at the time of the one before adds to totals and is not recorded, so
  that totals and chart part (`Usage.LedgerAtSameTime`, `Usage.SameTimeBreaksLedger`).
- When a table is too long to write, the finished file's index names a table that is not
  there. A reader does not use such an index, and loses nothing
  (`RecordingBroken.BrokenOpens`).
- A reader refuses a record or a frame larger than 256 MiB, which the recorder does not
  check; `RecordingProofs.ReadBackIff` and `Format.CompressRoundTrip` say exactly when
  what was written is read.
- The rows a band covers whole are clamped between its first and last row, which are the
  wrong way round for a band that starts below the raster (`ChartBands.ForwardsIff`,
  `ChartRaster.BackwardsBelow`).

## Model

| member | source | states |
|---|---|---|
| Delta.DiffU64 | crates/ot-record/src/delta.rs:73-79 | The difference of two 64-bit counters is the one signed number that, added back with wrap-around, gives the new counter |
| Delta.DiffU32 | crates/ot-record/src/delta.rs:81-87 | The same for 32-bit counters |
| Delta.DiffDuration | crates/ot-record/src/delta.rs:98-108 | A CPU time comes back exactly if and only if its nanoseconds fit 64 bits; past that it comes back as the largest that does |
| Delta.XorBits | crates/ot-record/src/delta.rs:110-116 | A float's bits come back from the exclusive-or with any base, and the exclusive-or is zero just when nothing changed |
| Delta.ProcessRoundTrip | crates/ot-record/src/delta.rs:123-270 | A process's delta, applied to any base that agrees on the counters it is taken over, gives back every counter, level and flag; the pointers, the thread range and the fields a delta does not carry are the base's or blank |
| Delta.RowsRoundTrip | crates/ot-record/src/delta.rs:274-317 | A row-by-row thread delta is exact if and only if both lists are of the same threads, each at the same place |
| Table.Writer.Id | crates/ot-record/src/table.rs:52-63 | A pointer seen before keeps its id; another gets the next one and is queued to be written |
| Table.Writer.TakePending | crates/ot-record/src/table.rs:66-68 | What is flushed is all that was queued, in order, and nothing stays queued |
| Table.Writer.Sweep | crates/ot-record/src/table.rs:74-76 | A sweep forgets just the values nobody else holds; ids given are never given again |
| Table.IdOrEmpty | crates/ot-record/src/table.rs:85-95 | An empty slice has the id for none and is not numbered |
| Table.Reader.Insert | crates/ot-record/src/table.rs:122-128 | Loading a table record puts each value under its id |
| Table.InsertHolds | crates/ot-record/src/table.rs:122-141 | A reader that loads the records in order has every id from one up stand for the value written under it |
| Table.RunKeeps | crates/ot-record/src/table.rs:49-76 | Over every run of allocating, cloning, dropping, numbering, flushing and sweeping, with addresses reused at will: ids are distinct, logged once, and agree with the allocation at their address |
| Table.LogGrows | crates/ot-record/src/table.rs:49-76 | What an id denotes never changes as a run goes on |
| Table.IdIsAllocation | crates/ot-record/src/table.rs:45-76 | In every such run a numbered pointer's id denotes that very allocation, and two pointers get one id if and only if they are one allocation, whatever was freed and swept between |
| Table.RunIsLive | crates/ot-record/src/table.rs:27-76 | At every moment of every such run the table is live in memory as it is, and a pointer held outside points into it: what numbering a snapshot takes for granted |
| Table.PlainIsSame | crates/ot-record/src/table.rs:49-76 | Serial numbers of allocations change nothing of what numbering, flushing and sweeping do |
| FrameProofs.EncodedSound | crates/ot-record/src/frame.rs:362-454 | Encoding a frame leaves every id in it referring to the value it was numbered for, and the tables sound |
| FrameProofs.RowRoundTrip | crates/ot-record/src/frame.rs:552-617 | A process row, full or a delta against the row of its key in the frame before, decodes to the process, with its thread rows and version-dependent fields |
| FrameProofs.ThreadsRoundTrip | crates/ot-record/src/frame.rs:552-617 | A process's thread rows come back whether sent whole, as deltas against the same threads, or left out as unchanged |
| FrameProofs.AddedRoundTrip | crates/ot-record/src/frame.rs:317-337 | The columns later versions added come back where the version has them, and at the value before or the default where it has not |
| FrameProofs.AttachRoundTrip | crates/ot-record/src/frame.rs:620-638 | Devices get their facts back from the tables by id |
| FrameProofs.FrameRoundTrip | crates/ot-record/src/frame.rs:362-617 | A frame encoded against the one before and decoded against whatever that came back as is the snapshot, thread rows grouped in process order and fields newer than the version at their defaults |
| FrameCode.Encode | crates/ot-record/src/frame.rs:362-454 | The encoder's loops build exactly the specified frame and leave the tables numbered as specified |
| FrameCode.Decode | crates/ot-record/src/frame.rs:459-546 | The decoder's loops give exactly the specified result, errors included |
| RecordingLaws.NothingMadeUp | crates/ot-record/src/frame.rs:459-617 | A frame decodes only if its columns are as long as its rows, every shared value a row names was read, and every change has a process of its key in the frame before with as many threads |
| FrameCode.Attach | crates/ot-record/src/frame.rs:620-638 | Attaching facts stops at the first missing id with its error, and otherwise attaches all |
| Format.LeRoundTrip | crates/ot-record/src/format.rs:150-178 | A length written in little-endian bytes is read back |
| Format.HeaderAt | crates/ot-record/src/format.rs:150-178 | The header read where a record was written is that record's kind and length |
| Format.PrefixRoundTrip | crates/ot-record/src/format.rs:181-196 | A frame's tick and time come back from its prefix if and only if the time is not the one value that stands for none |
| Format.CompressRoundTrip | crates/ot-record/src/format.rs:199-217 | A payload comes back from compression if and only if it is no larger than a reader allocates for; a larger one is refused as corrupt |
| Recorder.Recorder.constructor | crates/ot-record/src/recorder.rs:102-133 | A new file is the preamble and the header and nothing else |
| Recorder.Recorder.WriteTables | crates/ot-record/src/recorder.rs:229-283 | What was numbered since the last frame is appended, a record for each table that has any, and its offset indexed; at the first record too long for its header this stops, with those before it written, and its offset indexed all the same |
| Recorder.Recorder.WriteShared | crates/ot-record/src/recorder.rs:145-192 | Writing a snapshot appends its tables and its frame, key or delta as the interval has it; on an error no frame is recorded, the snapshot to take differences from stays, the tables that fit are in the file, and what was numbered stays numbered; after the end it is refused |
| Recorder.Recorder.Finish | crates/ot-record/src/recorder.rs:204-227 | Finishing appends the index and the trailer, once |
| Recording.Scan | crates/ot-record/src/recording.rs:383-438 | The scanning loop finds exactly what the specified walk finds, from the first keyframe on |
| Recording.TrimmedIs | crates/ot-record/src/recording.rs:383-438 | Of the frames found by scanning those before the first keyframe are left out, and no others |
| Recording.ReadIndex | crates/ot-record/src/recording.rs:323-358 | An index is used only if the file ends in the trailer's mark, the trailer's length leads back to an index record past the header, and what that holds is plausible; without the mark there is none |
| Recording.Reader.Frame | crates/ot-record/src/recording.rs:210-232 | Any frame, whatever the one-entry cache holds and after any reads in any order, failed ones too, is what decoding forward from the nearest keyframe gives; past the end it is an error; the frame read last costs no decoding, the next one at most one, and with a keyframe every n frames no read decodes more than n |
| Recording.Reader.DecodeForward | crates/ot-record/src/recording.rs:210-232 | Decoding frame after frame gives each frame's own decoding |
| Recording.Reader.KeyframeBefore | crates/ot-record/src/recording.rs:235-241 | The last keyframe up to a frame is found, or there is none and the frame cannot be read |
| RecordingProofs.ScanWalks | crates/ot-record/src/recording.rs:383-438 | Scanning readable records lists every frame and loads every table, in order |
| RecordingProofs.ScanStops | crates/ot-record/src/recording.rs:383-438 | A scan ends without error at a record that is not all there |
| RecordingProofs.ReadBackIff | crates/ot-record/src/recording.rs:293-318 | A record is read back if and only if it is no larger than a reader allocates for, which the writer does not check; a larger one is refused, and ends a scan |
| RecordingProofs.LoadNamed | crates/ot-record/src/recording.rs:363-379 | Loading the tables an index names gives the readers that scanning them does |
| RecordingRuns.RunSound | crates/ot-record/src/recorder.rs:145-192 | After every run of snapshots the tables are sound, and every frame's ids refer to the values it was written with |
| RecordingRuns.RunGrows | crates/ot-record/src/recorder.rs:145-192 | The values known after part of a run are the first of those known after all of it |
| RecordingRuns.IndexIsRight | crates/ot-record/src/recorder.rs:145-285 | The index names exactly the records of frames and of tables, each where it is |
| RecordingRuns.RunLoads | crates/ot-record/src/recording.rs:363-379 | Loading a run's table records leaves readers that hold every value written |
| RecordingLaws.KeyEvery | crates/ot-record/src/recorder.rs:149-189 | In every run frame i is a keyframe if and only if i is a multiple of the interval, zero taken as one, and its index entry has its snapshot's tick and time |
| RecordingLaws.SinceKeyIs | crates/ot-record/src/recorder.rs:187 | The count since the last keyframe is what the number of frames leaves by the interval |
| RecordingLaws.SweptOnTime | crates/ot-record/src/recorder.rs:188-190 | After every sixty-fourth frame the tables hold no value that nobody else holds |
| RecordingLaws.RowIsChange | crates/ot-record/src/frame.rs:362-454 | A process row is a change if and only if the frame before has a process of its key, and its threads are row by row if and only if both lists are of the same threads, each at its place |
| RecordingTheorems.FrameComesBack | crates/ot-record/src/recording.rs:210-288 | In an opened file of any run, frame i decodes to snapshot i, through any chain of deltas, table ids and sweeps |
| RecordingTheorems.FinishedOpens | crates/ot-record/src/recording.rs:55-103 | A finished file opens by its index |
| RecordingTheorems.RecordingRoundTrip | crates/ot-record/src/recording.rs:55-288 | For every run of snapshots, keyframe interval and format version 1 to 5, the finished file opens with as many frames, and each comes back as its snapshot |
| RecordingLaws.ComesBackIsSame | crates/ot-record/src/recording.rs:210-288 | What comes back agrees with the snapshot in every field a file of that version keeps: each process, its threads, each device, each shared value |
| RecordingLaws.FramesAreSame | crates/ot-record/src/recording.rs:55-288 | For every run the finished file opens and every frame agrees so with its snapshot, field by field |
| RecordingLaws.ReadsAreShort | crates/ot-record/src/recording.rs:207-241 | In the file of any run the keyframes are where reading takes no more than the interval's frames |
| RecordingLaws.Refused | crates/ot-record/src/recording.rs:62-76 | A file is refused as no recording if and only if it does not begin with the mark, and as of another version v if and only if it does and its next two bytes, the low one first, are v outside 1 to 5 |
| RecordingTheorems.ScanIsIndex | crates/ot-record/src/recording.rs:323-438 | On a finished file the scan and the index give the same frames and the same tables |
| RecordingTheorems.CutOpens | crates/ot-record/src/recording.rs:383-438 | A file cut anywhere after its header, with no trailer at the cut, opens with exactly the frames whose records are whole |
| RecordingTheorems.CutRoundTrip | crates/ot-record/src/recording.rs:383-438 | And each of those comes back as its snapshot |
| RecordingTheorems.CutAnywhere | crates/ot-record/src/recording.rs:383-438 | The same of every cut whose last five bytes are not the trailer's mark |
| RecordingBroken.RecordAll | crates/ot-core/src/record.rs:169-187 | A recorder driven over a run: created, given the snapshots until one fails, finished; the file is that of all the snapshots, or of those before the first too long to write, and there is no error if and only if all were written and the index fits |
| RecordingBroken.BrokenOpens | crates/ot-record/src/recording.rs:55-103 | A file finished after a failed write opens with the frames written before: by its index if it was the frame that was too long, by scanning if it was a table, since then the index names a place with no table |
| RecordingBroken.BrokenRoundTrip | crates/ot-core/src/record.rs:175-181 | And each of them comes back as its snapshot: the file is finished up to where the writing failed |
| UsageLists.Merge | crates/ot-core/src/usage.rs:269-301 | Merging two lists in one pass keeps programs sorted, each once, listed if and only if either lists it, with the sum of its amounts |
| UsageFade.RunIsAffine | crates/ot-core/src/usage.rs:353-361 | A fading total is its start times what the whole span keeps, plus what the same use makes of nothing |
| UsageFade.HalvingFades | crates/ot-core/src/usage.rs:349-361 | Fading by half a millisecond meets every law that is taken of fading |
| UsageFade.RunBetween | crates/ot-core/src/usage.rs:353-361 | Whenever in a stretch cycles are used, they count for no more than all of themselves and no less than what the whole stretch keeps |
| UsageFade.SteadySubdivisions | crates/ot-core/src/usage.rs:14-16 | At a steady rate the total is the same for every way of cutting the time up: sampling more or less often does not change it |
| UsageFade.TogetherIsNear | crates/ot-core/src/usage.rs:14-16 | Folding a stretch into one step changes a total by at most its cycles times the share its span loses |
| UsageFade.TogetherIsExact | crates/ot-core/src/usage.rs:14-16 | Folding a stretch of even use changes nothing |
| UsageFade.ReplayIsNear | crates/ot-core/src/usage.rs:782-788 | Replaying folded steps comes to within the sum of the steps' losses of the real total |
| UsageFolds.FoldIn | crates/ot-core/src/usage.rs:621-628 | Folding a stretch into a step adds its span, its machine's side, and for each kind each program's amount |
| UsageFolds.FoldsTile | crates/ot-core/src/usage.rs:604-643 | Folded groups of a tiled run tile the same time |
| UsageFolds.FoldsConserve | crates/ot-core/src/usage.rs:621-628 | Folding keeps every program's amount of every kind |
| UsageHistory.StepMs | crates/ot-core/src/usage.rs:82-84 | A step is at least ten seconds, and wide enough that 720 of them nearly cover the reach |
| UsageHistory.History.FadeOut | crates/ot-core/src/usage.rs:646-658 | The faded-out totals fade for the time since the last stretch that left and gain this one's cycles as much as arrived |
| UsageHistory.History.CloseOpen | crates/ot-core/src/usage.rs:679-688 | The step being filled becomes the last closed one; the steps stay the same |
| UsageHistory.History.Retire | crates/ot-core/src/usage.rs:609-629 | The oldest raw stretch joins the open step if and only if it ends in it; else that step closes and a new one opens |
| UsageHistory.History.AgeCoarse | crates/ot-core/src/usage.rs:630-636 | The oldest closed step leaves for the faded-out totals, which stay those of all that has left |
| UsageHistory.History.PushFrame | crates/ot-core/src/usage.rs:604-644 | After each stretch: the newest of the raw ones are kept, no more than 600 and none beyond the reach, and of those all; everything held ends within the reach; only steps beyond it have left; steps stay whole |
| UsageHistory.History.SetHistorySpan | crates/ot-core/src/usage.rs:409-412 | The reach changes, at least ten seconds, and nothing held does |
| UsageHistory.History.StartOn | crates/ot-core/src/usage.rs:520-526 | A session's guesses of use before it start the faded-out totals |
| UsageHistory.History.HeldTiles | crates/ot-core/src/usage.rs:322-329 | What is held tiles time with no gap or overlap, from when the faded-out totals stop, which is always the start of the oldest held, to the newest stretch recorded |
| UsageTheorems.Frames | crates/ot-core/src/usage.rs:794-805 | The frames given out are the stretches held, newest first |
| UsageTheorems.Conserved | crates/ot-core/src/usage.rs:604-658 | For every kind and program, what is held and what has aged out come to what was recorded |
| UsageTheorems.HeldSorted | crates/ot-core/src/usage.rs:232-236 | Every list held is sorted by program, each once |
| UsageTheorems.ReplayComesClose | crates/ot-core/src/usage.rs:782-788 | Replaying the frames from the faded-out totals comes to the total of all that was recorded, off by no more than each step's cycles times the share its span loses |
| UsageTheorems.ReplayIsExact | crates/ot-core/src/usage.rs:782-788 | And to exactly that while every step is one stretch or of even use |
| UsageReach.HistoryHolds | crates/ot-core/src/usage.rs:604-643 | Under a reach that has not changed, any history is one of the arrangements the next three speak of: steps cut by the clock within the reach, and 600 raw stretches if there are any steps |
| UsageReach.StepsAtMost | crates/ot-core/src/usage.rs:75-84 | In such an arrangement there are at most one more steps than the reach, less the raw part, goes into |
| UsageReach.WithinSevenTwentyIff | crates/ot-core/src/usage.rs:75-84 | There are at most 720 steps, whatever is recorded, if and only if the reach is at most 7190600 milliseconds |
| UsageReach.ClimbStairs | crates/ot-core/src/usage.rs:604-643 | For every longer reach, a run of stretches pushed one after another that ends with 721 steps held |
| UsageLineage.WalkUp | crates/ot-core/src/usage.rs:668-674 | Walking up from a process keeps it and its ancestors, and stops, cycles or not |
| UsageLineage.TrimLineage | crates/ot-core/src/usage.rs:662-677 | Trimming ends on any parents, cycles included, and leaves exactly the processes seen within the reach and everything reachable from them by remembered parents, as they were |
| UsageLineage.ChainsStay | crates/ot-core/src/usage.rs:660-661 | No chain is cut short: from a process that is left the same ancestors are left |
| UsageLineage.TrimmedTwice | crates/ot-core/src/usage.rs:662-677 | Trimming again forgets nothing more |
| UsageSums.Listed | crates/ot-core/src/usage.rs:563-575 | A recorded list has, sorted, exactly the programs with some of its kind |
| UsageSums.SumAll | crates/ot-core/src/usage.rs:548 | The reported sum is that of every total |
| Usage.Usage.ProgramId | crates/ot-core/src/usage.rs:848-861 | Processes of one label are one program, numbered once and for good |
| Usage.Usage.Sight | crates/ot-core/src/usage.rs:486-547 | One process's entry, totals, counters, program and lineage after a snapshot lists it: everything it used if it started since, the difference if it was known, a guess at the session's start, nothing otherwise |
| Usage.Usage.SightAll | crates/ot-core/src/usage.rs:486-547 | Every process of a snapshot but the idle one is so noted, the others are untouched, and the programs' sums are those of their processes |
| Usage.Usage.DropGhosts | crates/ot-core/src/usage.rs:548-550 | The reported sum is taken before the ghosts below the floor go; no other entry goes |
| Usage.OnlySmallGhostsGo | crates/ot-core/src/usage.rs:548-550 | Only processes that have exited and whose totals are below the floor go, and what went is still in the sum |
| Usage.Usage.Record | crates/ot-core/src/usage.rs:563-601 | A stretch is recorded with each program's amount of each kind |
| Usage.Usage.Observe | crates/ot-core/src/usage.rs:463-558 | A snapshot: repeats and those without a time change nothing; any other fades every total, adds what each process took, drops small ghosts, trims the lineage when due, and records the stretch if it took any time; taken later it keeps the ledger, and taken at the same time if and only if nothing was used; each process known before and listed has its faded total and the share that arrived of what its counter rose by |
| Usage.ListedCounts | crates/ot-core/src/usage.rs:486-547 | What each process of a snapshot comes to, in counters: one known before has its faded total and what its counter rose by; one started since the session did all its counter says; any other only, in the first snapshot, the guess; and its counters are those listed |
| Usage.UnlistedFades | crates/ot-core/src/usage.rs:478-481 | A process not listed fades, and goes if and only if its total is under a million cycles or under a ten-thousandth of all totals |
| Usage.ChartGets | crates/ot-core/src/usage.rs:540-601 | For each of the six kinds the recorded stretch has of each program the sum of what its processes add, in their counters and readings |
| UsageCounters.EachNoted | crates/ot-core/src/usage.rs:885-908 | The lineage has of each listed process its parent as now reported, what it was first charted under, and when it was first and last seen |
| UsageCounters.CountersRise | crates/ot-core/src/usage.rs:512-535 | Where no counter fell, what a snapshot charges a program is what its processes' counters rose by in all, less what joining ones had before |
| UsageRuns.NoCycleTwice | crates/ot-core/src/usage.rs:512-535 | Over every run in which no counter falls, what the chart was given of a program is what its processes' counters rose by: no cycle is missed and none is counted twice |
| UsageRuns.LastLessFirst | crates/ot-core/src/usage.rs:512-516 | A process alone in its program and always listed has been charted for its last counter less its first |
| Usage.LedgerNext | crates/ot-core/src/usage.rs:463-558 | Each program's processes, with the ghosts dropped, come to the fading sum of its recorded use, and stay so over every later snapshot |
| Usage.LedgerAtSameTime | crates/ot-core/src/usage.rs:463-558 | A snapshot of the same time as the one before keeps the ledger if and only if no process used any cycles between the two |
| Usage.SameTimeBreaksLedger | crates/ot-core/src/usage.rs:463-558 | A run of two snapshots of one time after which the ledger does not hold |
| Usage.ChartComesToTotals | crates/ot-core/src/usage.rs:782-788 | A fading sum run over the frames, oldest first, from the faded-out totals comes to the program's process totals, dropped ghosts counted, off by no more than folding lost |
| Usage.ChartComesToTotalsExactly | crates/ot-core/src/usage.rs:782-788 | And to exactly those while every step is one stretch or of even use |
| Geometry.IntersectHolds | crates/ot-paint/src/geom.rs:105-115 | A point is in the intersection if and only if it is in both rectangles |
| Geometry.InsetGrows | crates/ot-paint/src/geom.rs:94-101 | Growing takes in all within the margin |
| Geometry.UnionIsHull | crates/ot-paint/src/damage.rs:189-197 | The union is the smallest rectangle holding both |
| Geometry.Spread | crates/ot-paint/src/damage.rs:170-186 | The loop finds the rectangle around the points |
| Geometry.SpreadHolds | crates/ot-paint/src/damage.rs:170-186 | Which holds all within the margin of any of them |
| Geometry.SpreadIsTight | crates/ot-paint/src/damage.rs:170-186 | And is the smallest that holds the margin around every point |
| Drawing.ClearedFirst | crates/ot-paint/src/display.rs:49-51 | A list that starts by clearing looks the same over anything |
| Drawing.TouchingIsEnough | crates/ot-paint/src/damage.rs:4-9 | Within an area, drawing only the commands that touch it is drawing them all |
| Drawing.InkedIsBounded | crates/ot-paint/src/damage.rs:68-101 | Every point a command can ink, by its geometry and the fringe, is in the area computed for it |
| Drawing.RectIsInked | crates/ot-paint/src/damage.rs:74-76 | The area of a filled rectangle is no larger than its ink |
| Drawing.PathBoundsAreLeast | crates/ot-paint/src/damage.rs:85-87 | That of a line is the least with the room of the stroke and the fringe around all its points |
| Drawing.BandBoundsAreLeast | crates/ot-paint/src/damage.rs:89-92 | And so is that of a band, around the points of both its lines |
| Drawing.UnclippedIff | crates/ot-paint/src/damage.rs:35-50 | A point is drawn at if and only if it is in every clip rectangle that is pushed and not popped |
| Display.DisplayList.CopyFrom | crates/ot-paint/src/display.rs:160-167 | A copy draws the same, layers included |
| Display.DisplayList.BeginLayer | crates/ot-paint/src/display.rs:172-175 | A layer starts at the next command, the open one ended first; layers stay ordered and disjoint |
| Display.DisplayList.EndLayer | crates/ot-paint/src/display.rs:178-186 | The open layer ends at the last command |
| Display.DisplayList.Push | crates/ot-paint/src/display.rs:212-261 | A command appended is drawn after all the others, which stay as they were, and the clip depth is that of the list |
| Display.DisplayList.Polyline | crates/ot-paint/src/display.rs:374-383 | A path of two points or more is drawn; a shorter or clear one is dropped |
| Display.DisplayList.FillPolygon | crates/ot-paint/src/display.rs:386-394 | A polygon of three points or more is drawn |
| Display.DisplayList.Band | crates/ot-paint/src/display.rs:398-412 | A band of two lines of two points or more is drawn; if not, its points go from the arena again |
| Display.DisplayList.Graph | crates/ot-paint/src/display.rs:415-427 | A line of two points or more and some width is drawn; if not, its points go again |
| Display.DisplayList.Text | crates/ot-paint/src/display.rs:483-489 | Text is drawn if there is any, in a rectangle that is not empty, in a color that shows |
| Display.DisplayList.CopyCmds | crates/ot-paint/src/display.rs:212-261 | Commands of another list are appended with what they index there |
| Display.DisplayList.Splice | crates/ot-paint/src/display.rs:198-209 | A splice is the kept commands outside the layers with each layer's own painting in its place, and the layers where those are |
| Display.SplicedLayerIs | crates/ot-paint/src/display.rs:198-209 | Each layer of a spliced list holds exactly what its painter drew |
| Display.SplicedFits | crates/ot-paint/src/display.rs:198-209 | The layers of a spliced list are ordered, disjoint and inside it |
| Display.SpliceSame | crates/ot-paint/src/display.rs:198-209 | Painting each layer as it was changes nothing |
| Display.SpliceTwice | crates/ot-paint/src/display.rs:194-209 | Splicing a spliced list is splicing the first: only the last painting of each layer counts |
| Damage.SameIsResolvedSame | crates/ot-paint/src/damage.rs:106-167 | Two commands count as the same if and only if, resolved each in its own arenas, they are |
| Damage.UnchangedElsewhere | crates/ot-paint/src/damage.rs:30-66 | At a point in no changed command's area, old or new, cut to its clip, both frames are the same color, for every painter that stays inside its commands' bounds |
| Damage.ChangedIff | crates/ot-paint/src/damage.rs:30-66 | The changed areas cover a point if and only if a command that differs reaches it, in its old or its new form, where it is not clipped |
| Damage.JoinedHolds | crates/ot-paint/src/damage.rs:209-226 | Joining two rectangles loses no point and reaches no further than they did together |
| Damage.Merge | crates/ot-paint/src/damage.rs:209-232 | The loop ends with exactly the specified rectangles; they cover every point of the given ones, reach no further than those together, and are at most 16 |
| Damage.NearIff | crates/ot-paint/src/damage.rs:200-205 | Two rectangles are near if and only if somewhere they are eight or less apart on both axes |
| Damage.ScatteredIff | crates/ot-paint/src/damage.rs:209-226 | Of the rectangles left before the limit of 16, none are near each other if and only if no rectangle that has grown is near one before it |
| Damage.NearOnesLeft | crates/ot-paint/src/damage.rs:209-226 | Three rectangles of which the merging leaves two that are near each other, one inside the other |
| Damage.DamageSince | crates/ot-paint/src/damage.rs:30-66 | The areas are told if and only if the lists have the same structure; they are the merged changed areas, cover everything that differs, and are at most 16 |
| Damage.UnchangedOutside | crates/ot-paint/src/damage.rs:4-9 | Outside the merged rectangles nothing differs |
| Damage.SameIsUndamaged | crates/ot-paint/src/damage.rs:27-29 | Frames that draw the same have no damage |
| Partial.WholeDipsIsHull | crates/ot-shell-linux/src/partial.rs:56-59 | Rounding out gives the smallest rectangle on whole pixels that holds the damage |
| Partial.AreaAdds | crates/ot-shell-linux/src/partial.rs:49 | The area compared with the limit is the sum of the rectangles' own |
| Partial.Frames.Keep | crates/ot-shell-linux/src/partial.rs:33-35 | The newest frame becomes the one kept, and the one kept is handed back |
| Partial.Frames.Damage | crates/ot-shell-linux/src/partial.rs:41-51 | Rectangles are given if and only if surface and structure are the same and their area is under the limit; they are the merged changed areas rounded out, lie on whole pixels and cover everything that differs |
| Partial.OnePassIsRepainted | crates/ot-shell-qt/src/plugin.cpp:178-192 | One pass over the commands, clipped to all the rectangles and leaving out any commands that touch none of them, comes to the same as a pass for each rectangle over the commands that touch it |
| Partial.RepaintIsWhole | crates/ot-shell-linux/src/partial.rs:4-19 | Repainting the rectangles, either way, over the last frame's picture gives this frame's |
| Partial.Window.Next | crates/ot-shell-linux/src/partial.rs:33-51 | Over every run of frames, on any surfaces, what is on show after each is what drawing that frame whole shows |
| Ring.Ring.Push | crates/ot-core/src/history.rs:28-33 | After a push the ring holds the newest that fit |
| Ring.Ring.SetCapacity | crates/ot-core/src/history.rs:42-53 | Another capacity, at least one, keeps the newest that fit |
| TimelineRuns.SummaryIs | crates/ot-core/src/timeline.rs:163-187 | A bucket's count, least, greatest, mean and times are exactly those of its samples |
| TimelineRuns.RunsPartition | crates/ot-core/src/timeline.rs:163-187 | The runs behind a tier's buckets are together the whole series, in order, with nothing between |
| TimelineRuns.RunInBucket | crates/ot-core/src/timeline.rs:165-167 | A run's samples fall in one bucket of the clock |
| TimelineRuns.RunsAdvance | crates/ot-core/src/timeline.rs:165-187 | In time order each run's bucket is a later one |
| TimelineTheorems.OneStretch | crates/ot-core/src/timeline.rs:164-187 | A bucket's samples fall in one stretch of the clock that begins at a multiple of the width, and the next bucket's in a later one |
| TimelineTiers.PushTracks | crates/ot-core/src/timeline.rs:164-186 | A sample more keeps every bucket of a tier the summary of its run, and keeps as many as there is room for |
| TimelineTiers.ResizedTracks | crates/ot-core/src/timeline.rs:233-241 | A tier resized keeps its newest buckets as they were |
| Timeline.Series.constructor | crates/ot-core/src/timeline.rs:200-214 | A new series is empty, each tier of at least one bucket and a width of at least one |
| Timeline.Series.Push | crates/ot-core/src/timeline.rs:270-276 | Every tier keeps tracking the series, and the raw samples are the newest that fit |
| Timeline.Series.SetRetention | crates/ot-core/src/timeline.rs:219-252 | Another retention keeps the newest raw samples that fit; each tier is the first old one of its width not taken yet, resized, or else a new one; the same retention changes nothing |
| Timeline.Refit | crates/ot-core/src/timeline.rs:224-249 | The loop pairs tiers off so |
| Timeline.Series.OldestMs | crates/ot-core/src/timeline.rs:255-265 | The oldest time is the earliest of those the raw samples and each tier's closed and open buckets start at |
| TimelineHistory.History.Next | crates/ot-core/src/timeline.rs:335-362 | Each call gives the next of what is still to come, and none if and only if nothing is |
| TimelineTheorems.HistoryReads | crates/ot-core/src/timeline.rs:304-319 | The history of a series fed in time order is every raw sample held, newest first, and then buckets, each the summary of a run just before the bucket of the same tier that the oldest sample read so far falls in: what is passed over at a seam lies in one bucket of the coarser tier |
| TimelineTheorems.NothingTwice | crates/ot-core/src/timeline.rs:304-319 | No sample is counted twice, and each bucket ends before all that came before it starts |
| TimelineTheorems.TierReaches | crates/ot-core/src/timeline.rs:110-128 | A tier with two buckets more than its width divides into a span starts at the first sample of all or further back than the span |
| TimelineTheorems.CoveringReaches | crates/ot-core/src/timeline.rs:106-131 | A series kept to cover a span still holds its first sample, or reaches back further than the span |
| TimelineTheorems.PointsBound | crates/ot-core/src/timeline.rs:133-135 | A series never holds more than the points of its retention and one for each ring asked to hold nothing, and just as many when every ring is full |
| TimelineTheorems.HoldsOneMore | crates/ot-core/src/timeline.rs:133-135 | A series that holds more than the points its retention says |
| TimelineTheorems.JoinsOpenBucket | crates/ot-core/src/timeline.rs:267-276 | A sample older than the newest joins the open bucket if and only if it falls in it |
| TimelineTheorems.OlderOpensBucket | crates/ot-core/src/timeline.rs:267-276 | An older sample that opens a bucket of its own, against the comment that it is folded into the open one |
| ChartLines.LowerBound | crates/ot-paint/src/chart_shapes.rs:84-86 | The lower bound is the index of the first point at or past a place |
| ChartLines.ThroughPoints | crates/ot-paint/src/chart_shapes.rs:90-103 | A line goes through its points |
| ChartLines.Bracketed | crates/ot-paint/src/chart_shapes.rs:135-161 | Between two places a line stays within its heights at them and its points between |
| ChartMeaning.Straight | crates/ot-paint/src/chart_shapes.rs:90-103 | Between two points that are no step a line is the straight one through both |
| ChartMeaning.Level | crates/ot-paint/src/chart_shapes.rs:90-103 | Left of its points and right of them it stays level |
| ChartShapes.Walk.Seek | crates/ot-paint/src/chart_shapes.rs:121-127 | Walking forward finds the lower bound |
| ChartShapes.Walk.At | crates/ot-paint/src/chart_shapes.rs:130-133 | And reads the line there |
| ChartShapes.Walk.Span | crates/ot-paint/src/chart_shapes.rs:138-161 | The lowest and highest found bracket the line over the span and are really touched, and both places' lower bounds are found |
| ChartPieces.SampleColumn | crates/ot-paint/src/chart_shapes.rs:307-318 | A band's samples for a column are its lines at the four places, or nothing outside it |
| ChartPieces.RowsAreOf | crates/ot-paint/src/chart_shapes.rs:289-304 | Every pixel of a strip that the shape covers any of is within reach of the strip's heights |
| ChartPieces.SearchedIs | crates/ot-paint/src/chart_shapes.rs:61-66 | The narrowed range holds every answer the full search can give |
| ChartPieces.Strip | crates/ot-paint/src/chart_shapes.rs:289-328 | Whatever pixel within the bounds the shape covers any of, in a strip's columns, is in the strip's piece |
| ChartPieces.Pieces | crates/ot-paint/src/chart_shapes.rs:246-331 | The pieces of a shape, each further right than the last, hold every pixel within its bounds that it covers any of; whole, there is one, its bounds |
| ChartPieces.EachPixelOnce | crates/ot-paint/src/chart_shapes.rs:249-250 | Each such pixel is in one piece and one only |
| Words.TrailingZerosIs | crates/ot-paint/src/chart_raster.rs:386-389 | Counting trailing zeros finds the lowest set bit |
| Words.BitOfNot | crates/ot-paint/src/chart_raster.rs:403 | Complementing flips every bit |
| ChartBits.RowBits | crates/ot-paint/src/chart_raster.rs:341-374 | A row's bits are set exactly for the columns that cover it whole, for any number of columns, and clear past them |
| ChartBits.NextRun | crates/ot-paint/src/chart_raster.rs:378-412 | The next run is the next maximal one, across word boundaries, or there is none |
| ChartBits.AllRuns | crates/ot-paint/src/chart_raster.rs:170-177 | Successive calls list exactly the maximal runs |
| ChartPixels.OverIsByChannel | crates/ot-paint/src/chart_raster.rs:326-337 | Blending two channels a multiply is blending each on its own |
| ChartPixels.OpaqueAndClear | crates/ot-paint/src/chart_raster.rs:316-324 | Nothing shows of what is under an opaque color, and all of it under no coverage |
| ChartPixels.BlendedIsOver | crates/ot-paint/src/chart_raster.rs:314-337 | Blending premultiplied ink, at every coverage and over every pixel, is source-over in each channel to less than two and a half below and one and a half above |
| ChartPixels.FilledIsOver | crates/ot-paint/src/chart_raster.rs:183-203 | Filling whole pixels is source-over in each channel to less than one |
| ChartPixels.ClearInk | crates/ot-paint/src/chart_raster.rs:314-324 | Ink that is all clear leaves every pixel as it is, at every coverage |
| ChartPixels.TwoTooDark | crates/ot-paint/src/chart_raster.rs:314-337 | A pixel that comes out more than two below |
| ChartBands.ReadLine | crates/ot-paint/src/chart_raster.rs:418-443 | The cursor's reading of a line is the line |
| ChartBands.WholeIs | crates/ot-paint/src/chart_raster.rs:129-141 | Just the rows between the lowest top and the highest bottom are covered whole |
| ChartBands.WholeIsFull | crates/ot-paint/src/chart_raster.rs:129-141 | A row covered whole has full coverage |
| ChartMeaning.LevelBand | crates/ot-paint/src/chart_raster.rs:111-151 | A band with level edges covers a pixel by just what of its height lies between them |
| ChartMeaning.SlopedBand | crates/ot-paint/src/chart_raster.rs:105-151 | An edge that slopes through a pixel covers it by exactly the area below the edge |
| ChartMeaning.PastTheEnds | crates/ot-paint/src/chart_raster.rs:95-103 | Past the ends of either line, and left of the raster, nothing is covered |
| ChartBands.ForwardsIff | crates/ot-paint/src/chart_raster.rs:134-141 | The clamp's bounds are in order if and only if the column starts no lower than the raster's bottom edge |
| ChartRaster.BackwardsBelow | crates/ot-paint/src/chart_raster.rs:89-141 | A band, wholly below a raster of ten rows, in whose one column they are not |
| ChartRaster.ChartRaster.Blend | crates/ot-paint/src/chart_raster.rs:277-286 | One pixel is blended at its coverage, no other changes |
| ChartRaster.ChartRaster.FillSpan | crates/ot-paint/src/chart_raster.rs:185-203 | Just the pixels of the span are filled |
| ChartRaster.ChartRaster.FillColumn | crates/ot-paint/src/chart_raster.rs:109-151 | A column's rows that it does not cover whole are blended at their coverage, and those it does are listed |
| ChartRaster.ChartRaster.FillRow | crates/ot-paint/src/chart_raster.rs:170-177 | Just the columns that cover the row whole are filled, each once |
| ChartRaster.ChartRaster.FillBand | crates/ot-paint/src/chart_raster.rs:89-181 | Every pixel is blended once, at the plain coverage of its four samples, filled where it is covered whole, and untouched where it is not covered |
| ChartStrokes.WindowIsEnough | crates/ot-paint/src/chart_raster.rs:209-211 | The nearest of the windowed segments is the nearest of all, for every pixel within reach of any |
| ChartStrokes.FarSegment | crates/ot-paint/src/chart_raster.rs:227-241 | A segment too far left, right, up or down is out of reach |
| ChartMeaning.DistanceIsLeast | crates/ot-paint/src/chart_raster.rs:249-266 | The distance taken to a segment is the least to any place on it |
| ChartMeaning.NearestIsLeast | crates/ot-paint/src/chart_raster.rs:249-266 | That taken to a line is the least to any of its segments |
| ChartMeaning.StrokeEnds | crates/ot-paint/src/chart_raster.rs:266-270 | With a square root, a pixel a pixel's breadth inside a stroke is all ink and one out of its reach is left alone |
| ChartRaster.FindWindow | crates/ot-paint/src/chart_raster.rs:227-241 | The cursor's window leaves out only such segments |
| ChartRaster.ChartRaster.StrokeGraph | crates/ot-paint/src/chart_raster.rs:212-273 | Every pixel is blended once, at what is left of the line's reach at its distance to the nearest segment of the whole line |
| Player.Player.Play | crates/ot-core/src/player.rs:160-171 | Playing starts from the current frame, at the end from the first, and re-anchors; a recording of one frame does not play |
| Player.Player.Seek | crates/ot-core/src/player.rs:196-204 | A seek asks for the frame, clamped to the recording |
| Player.Player.Step | crates/ot-core/src/player.rs:208-221 | A step asks for its frame and pauses |
| Player.Player.SetSpeed | crates/ot-core/src/player.rs:224-233 | The rate is clamped and play re-anchored |
| Player.Player.Look | crates/ot-core/src/player.rs:276-316 | One look at the controls: a stop ends, a request is loaded before anything is played; play that has no anchor is anchored at this moment and the position's offset, one that has keeps it; and the next frame is loaded if and only if the time since the anchor, at the speed, has reached what the recording says lies between |
| Player.Player.Run | crates/ot-core/src/player.rs:160-342 | In every interleaving of user calls, the thread and time the player's invariant holds |
| Player.OnShow | crates/ot-core/src/player.rs:142-144 | The position is always in the recording; between loads the frame on show is the frame there, and that is the frame of the last request taken up or frame played unless it could not be read |
| Player.LastRequestLoaded | crates/ot-core/src/player.rs:285-287 | A request that is loaded is the last one made |
| Player.NoneOutstanding | crates/ot-core/src/player.rs:285-287 | No frame is played while a request is outstanding |
| Player.NeverEarly | crates/ot-core/src/player.rs:299-313 | No frame is played sooner after the last change by the user than the recording says lies between it and the frame that play was anchored at, at the speed set |
| Player.OneSchedule | crates/ot-core/src/player.rs:299-313 | While nothing is changed one schedule holds, however slow earlier loads were |
| RecordChannel.Channel.Offer | crates/ot-core/src/record.rs:73-81 | A snapshot is queued if there is room and counted as dropped if not; a closed or broken channel takes none |
| RecordChannel.Channel.Take | crates/ot-core/src/record.rs:169-187 | The writer takes frames in order, and once the channel is closed and empty finishes the file, which can fail |
| RecordChannel.Channel.Result | crates/ot-core/src/record.rs:147-157 | A recording that finishes without error has written plus dropped equal to the snapshots offered while open, and the file a subsequence of them in order |
| RecordChannel.Channel.Run | crates/ot-core/src/record.rs:70-187 | In every interleaving of sampler, writer and stop the channel's invariant holds, and after a close the counts do not change |
| RecordChannel.Accounted | crates/ot-core/src/record.rs:70-88 | At every moment of a recording that has not failed, what was offered is in the file, on its way or dropped, in order, at most four in the queue |
| Sampler.Sampler.Publish | crates/ot-core/src/sampler.rs:251-254 | A pass offers its snapshot to the recording it saw, and leaves every other as it is |
| Sampler.Sampler.Run | crates/ot-core/src/sampler.rs:131-156 | In every interleaving of passes, of any number of threads that start and stop recordings, and of the writers, whatever recording was started has in its file and on the way there a subsequence of what it was offered, and the rest is counted |
| Sampler.RecordedInOrder | crates/ot-core/src/sampler.rs:131-156 | A recording is offered every snapshot from its first one on, none missing; one that is through without drops or failure has exactly those |
| Sampler.FromNowOnIff | crates/ot-core/src/sampler.rs:131-133 | A recording that is on has been offered every snapshot published since it was started if and only if no pass had by then looked up where to hand its snapshot, or that one is not published yet |
| Sampler.MissesOne | crates/ot-core/src/sampler.rs:131-143 | A run in which the first snapshot published after the start is not offered |
| Civil.CivilIsRight | crates/ot-app/src/main.rs:311-322 | For every day the date is one of the calendar's, and its day counted by the leap-year and month-length rules is that day (section 3.2.1 of ISO 8601:2004) |
| Civil.DateComesBack | crates/ot-app/src/main.rs:311-322 | Every date of the calendar comes back from its day |
| Civil.DaysFollow | crates/ot-app/src/main.rs:311-322 | Consecutive days give consecutive dates |
| Civil.UtcIsRight | crates/ot-app/src/main.rs:304-329 | Every second has a date and a time of day that come to it |

## Left out

- RecordingTheorems.RecordingRoundTrip: takes every payload to be at most what a reader allocates for, every CPU time to fit 64 bits of nanoseconds, and every pointer in a snapshot to point at a live value, which ownership gives (`Table.RunIsLive`); the exact conditions on sizes and times are `RecordingProofs.ReadBackIff`, `Format.CompressRoundTrip` and `Delta.DiffDuration`.
- RecordingTheorems.CutRoundTrip: takes the reader to find no index at the cut, which is so whenever the mark is not there (`RecordingTheorems.CutAnywhere`); a cut whose last bytes look like a trailer with a plausible index before it is not followed further.
- RecordingBroken.BrokenRoundTrip: the only failed write modelled is of a record too long; the tables that were written are taken to be within what a reader allocates for.
- Table.IdIsAllocation: ids are unbounded; the original's run out after 2^32 values.
- Usage.Usage.Observe: takes a snapshot to list each process key once and to be taken no earlier than the one before; clocks that go back are not modelled.
- UsageFade.ReplayIsNear: exponentials and logarithms are functions with the laws `Fades` names; rounding is not modelled, and the rate of fading does not change during a session.
- Usage.Usage.Record: the machine's side of a stretch is a parameter, as its sums over cores and adapters are not modelled; amounts are not rounded to single precision.
- UsageHistory.History.PushFrame: takes each stretch to start where the one before ended, as it does for snapshots in time order.
- TimelineTheorems.CoveringReaches: is about a retention kept from the start and samples in time order, as is every series whose clock does not go back.
- TimelineTheorems.HistoryReads: is about a retention that has not changed and samples in time order; after a change `Timeline.Series.SetRetention` still keeps every bucket a summary of its run.
- Display.DisplayList.Splice: a layer's painter is the commands it draws; one that itself starts layers or clears the list is not modelled.
- Display.DisplayList.Shape: the commands that index nothing (rectangles, lines, icons, clips, clears) are one method, where the original has one each.
- Partial.Window.Next: takes each frame to begin by clearing, as every frame of the program does; the plugin's drawing is one pass clipped to the rectangles that leaves out no command touching one of them, by any painter that inks only what its commands' geometry has.
- ChartRaster.ChartRaster.FillBand: takes no column that covers rows whole to start below the raster, where the original's clamp would stop the program; the pixels are a two-dimensional array of four-channel pixels, where the original has one of bytes; vector lanes are loops.
- ChartRaster.ChartRaster.StrokeGraph: the square root is a parameter.
- ChartPieces.Pieces: takes a line's gaps in x to be none or wider than the step width, and coordinates to be real numbers.
- Player.Player.Run: a frame's decoding succeeds or fails at will, and only which frame is shown is modelled; reading the position before the lock is a step of its own.
- Timeline.Series.OldestMs: the sizes in bytes of a series or a history are not modelled.
- The recorder's counters of bytes, the files, threads and locks themselves, and the bytes that serialization and compression produce.
- Timelines of devices that come and go, the session's settings, the system probes, the shells and their windows, the updater and the command line: easy members or calls into code that is not part of this model.
- 32-bit overflow of arena offsets and program numbers.
