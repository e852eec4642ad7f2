# Partition WAL of pg_partdist: model and proofs

`pg_partdist` splits one PostgreSQL WAL stream into one log per partition.  A backend
allocates the next per-partition sequence number (`partition_lsn`), puts a 32-byte
`PartWALHeader` into the global WAL and flushes it.  The demux background worker reads the
flushed WAL, drops what it has already written by comparing with a per-partition watermark,
and appends the rest to `pg_parwal/<partition>/<segment>` through a buffered writer.  After
a crash, redo replays the same records straight into the same files.  Readers, cleanup and
reset interpret the same directories.  Nothing in the code ties these parts together by a
common lock; this project proves what they guarantee together, and exactly where each
guarantee stops.

## How the project is organised

| module | content |
|---|---|
| `Header` | the 32-byte record and the framing of a file, as bytes |
| `SegmentDir` | a directory as segment number -> records; the log it holds; the tail-peek watermark |
| `WriterSpec` | one partition's buffered writer and one record through the demux loop, with every I/O fault |
| `Demux` | the writer cache and many partitions; projection to one partition |
| `SegmentCleanup` | what cleanup removes from one directory |
| `InStep` | what keeps a partition in step with its log: refused writes, failed flushes, writers left over from a reset, cleanup |
| `Redo` | crash redo of one partition |
| `Machine` | the whole system as a transition machine: backends, WAL, worker, crash, recovery, restart, reset, cleanup |
| `Discipline` | the hypotheses the code does not enforce, step by step, and discarded numbers |
| `CrashInvariant`, `CrashSafety` | the inductive invariant and the run-long theorems under those hypotheses |
| `SessionSafety` | run-long safety and allocator race-freedom without them |
| `InTurn` | one partition whose records come in LSN order, gaps allowed, through faults, resets, cleanups and recovery |
| `PartitionBarrier` | the barrier of `demux_flush` over whole runs, one partition at a time, under hypotheses on that partition only |
| `SteadyDiscipline` | every disciplined run meets those hypotheses for every partition |
| `Maintenance` | reset as seen by one worker, and the old record that defeats it |
| `SegmentFiles`, `PartitionDirectory` | the directory as bytes: sorting, watermark, verify, count, read-all, cleanup |
| `PartitionWriter` | the writer object with its 256 KB buffer, on bytes, against `WriterSpec`; a file may be unlinked under it |
| `DirectPath` | the direct append, redo on raw WAL data, and the allocator object |
| `DemuxWorker` | the worker object and its main loop, against `Demux`, tied to `Machine` |
| `MetadataCache`, `WriteRouter` | the generation-stamped cache protocol, and the router that reads through it |
| `LatencyStats` | the latency ring and its percentile report |

The layers meet as follows.  The byte-level writer and directory methods are proved equal to
the record-level steps of `WriterSpec`, `SegmentDir` and `Redo`.  The worker object is proved
equal to `Demux`, one iteration of its loop to a sequence of `Machine` steps, and its whole
loop, woven with what the rest of the server does between iterations -- backends, checkpoints,
resets and cleanups -- to a run of `Machine`.  The run-long theorems are about `Machine`;
`DemuxWorker.LoopSession`, `LoopGapless` and `ReachedMeansDelivered` carry them over to the worker.

WAL positions are record indices.  A position stands for the end of the record before it, so
"the flush point", `EndRecPtr`, `last_processed_lsn` and the saved progress are all indices.

A partition's log counts from its last reset: `Machine` remembers how many of the partition's
WAL records that reset left behind (`base`), and how many of those since cleanup has removed
(`cleaned`).  The files hold the range of the log from there to the watermark.

## Hypotheses, and what happens without them

The code does not establish these; they are stated step by step in `Discipline.Regular` and
`Discipline.Disciplined`, and kept out of every theorem that does not need them.

- WAL order is LSN order: a backend inserts its record only while no other holds a lower LSN
  of the partition (allocation and WAL insertion share no lock).  That the inserted number is
  then the next one of the log is derived from the allocator (`CrashInvariant.NextLsnIff`).
  Without the hypothesis, `WriterSpec.AddedIff` says exactly which records are dropped, and
  `SessionSafety.SessionDisk` what still holds.
- No insertion passes over a discarded LSN, one that was issued and whose backend gave it up.
  The SQL function `alloc_partition_lsn`
  (`pg-partdist-src/src/wal/partition_wal.c:1038-1046`) and an error between allocation and
  insertion both discard one.  `CrashSafety.GaplessIff` shows that the condition is exact,
  `CrashSafety.DiscardIff` where discarded numbers come from, `CrashSafety.DiscardLeavesGap`
  a run that breaks it, and `CrashSafety.OrderSuffices` that it holds by itself when every
  backend that takes a number inserts its record.
- Segment numbers never go down along a partition's log.  `SegmentDir.LogOfSplit` shows that
  this is exactly what reading back needs.
- The writer cache has room and no record is refused, that is, every call its write needs
  succeeds: the flush and the open at a segment switch, the open of a closed file, the flush
  of a full buffer.  The flush after a write, and the flush when the worker has caught up, may
  fail at any time.  `InStep.InStepIff` shows the condition is exact and
  `InStep.RefusedLeavesHole` what a refusal costs.  `SessionSafety`, `WriterSpec` and
  `Demux.Isolation` allow every fault.
- The reader passes over no partition record when it skips, when the worker restarts or when
  the server restarts cleanly, and a restart finds no record still buffered.  Both conditions
  are exact: `CrashSafety.SkipFaithfulIff` for a skip, which keeps the writers, and
  `CrashSafety.RestartFaithfulIff` for a restart, which starts with none.
- A crash of the running server finds the redo pointer where replay does no harm: every record
  below it is on disk, and of the records a reset left behind none at or above it is above the
  watermark.  Nothing is asked of checkpoints as long as the server stays up.
  `CrashSafety.CrashRecoversIff` shows that both parts are exact;
  `CrashSafety.ResetSurvivesCrashIff` shows what a crash soon after a reset brings back.
- A reset finds the partition's records read by the worker, and no allocation of it between its
  disk scan and its insertion.  `Maintenance.LeftoverIff` and `Maintenance.FirstAfterLeftoverIff`
  show exactly which unread old records do harm, and `Maintenance.LeftoverDefeatsReset` a run in
  which one does.
- A cleanup removes neither the highest segment with records nor the one buffered records wait
  for.  `InStep.CleanKeepsIff` shows the condition is exact.  `SessionSafety` asks instead that
  it remove neither the highest segment with records nor a file that is open.
- A failed flush wrote nothing.  `PartitionWriter.Writer.FlushBuffer` shows that
  disk-plus-buffer survives a failure exactly in that case.
- A crash preserves whole records.  Torn tails are covered on the read side, and byte by byte in
  `PartitionWriter` and `DirectPath`.  `Header.FramesAppendIff` shows what the hypothesis buys:
  what is appended to a file reads back as itself, whatever it is, exactly when the file ends on
  a record boundary.
- No change to the metadata tables touches a row between a backend's read of it and its refill of
  the cache.  `MetadataCache.ChangeSoundIff` shows that this is exactly what a change must
  respect, `MetadataCache.RefillCoherentIff` what a refill does otherwise.
- At most 256 segment files per partition for the capped readers.
  `SegmentFiles.CapHarmlessIff` gives the exact condition beyond that.

The barrier needs less, and of one partition only (`PartitionBarrier.Steady`): its WAL order is LSN
order, its own records are read and accepted, a reset finds them read and is followed by number 1
first when an old writer is left, a cleanup leaves what is in use, and a crash or restart finds
segment numbers that have not gone down and a redo pointer that replay can start from.
Numbers may be missing anywhere, and the other partitions may suffer any fault.
`SteadyDiscipline.DisciplinedRunIsSteady` shows that the hypotheses above imply these.

## Where code and documentation differ

The model follows the code.

- The comment above `WritePartitionWALRecord` lists mirroring into `pg_parwal` as a step
  (`pg-partdist-src/src/wal/partition_wal.c:331`); the body writes to WAL only, and so does
  the `Insert` step of `Machine`.
- The watermark comment says that only the last record of each file is read
  (`pg-partdist-src/src/wal/partition_wal_writer.c:86-92`); the code also scans a whole file
  when that record is torn or does not count.
- The worker saves a progress file but starts at the current flush point
  (`pg-partdist-src/src/worker/demux_worker.c:422`).  `saved` is therefore never read back.
- The documented routing procedure has no case for a negative primary node; the code reports
  such a partition as not found.  `WriteRouter.RoutesAsDocumentedIff` states the difference.
- The comment on reset detection (`pg-partdist-src/src/worker/demux_worker.c:600-605`) takes
  LSN 1 over an empty disk for a reset.  One family of runs meets the test without a reset and
  loses accepted records: flushes have failed, and a late record with LSN 1 arrives
  (`WriterSpec.AcceptedKeptIff`, `WriterSpec.LateFirstRecordLosesSecond`).

## Model

| member | source | states |
|---|---|---|
| `Header.DecodeEncode` | pg-partdist-src/include/partition_wal_header.h:41-48 | every header that fits the C field widths is read back field by field from its 32 bytes |
| `Header.EncodeLayout` | pg-partdist-src/include/partition_wal_header.h:41-48 | which bytes of the 32 hold which field, least significant first: magic (0x54 0x52 0x41 0x50) at 0, partition_id at 4, orig_node_lsn at 8, partition_lsn at 16, flags at 24, zeros behind |
| `Header.ValueOfFour` | pg-partdist-src/include/partition_wal_header.h:41-48 | four bytes stand for a number least significant first |
| `Header.ValueOfEight` | pg-partdist-src/include/partition_wal_header.h:41-48 | eight bytes for the first four and the next four times 2^32 |
| `Header.DecodeLayout` | pg-partdist-src/include/partition_wal_header.h:41-48 | and what any 32 bytes are read as |
| `Header.EncodeDecode` | pg-partdist-src/include/partition_wal_header.h:41-48 | bytes with clean padding are written back as they were read |
| `Header.MagicIff` | pg-partdist-src/src/wal/partition_wal.c:397-403 | the magic test passes if and only if the first four bytes are 0x54 0x52 0x41 0x50 |
| `Header.FramesConcat` | pg-partdist-src/src/wal/partition_wal.c:296-305 | an append to a file that ends on a record boundary appends exactly its records |
| `Header.FramesAppendIff` | pg-partdist-src/src/wal/partition_wal.c:296-305 | every record appended to a file joins what the file reads back as if and only if the file ends on a record boundary; behind a torn tail some record is always misread |
| `Header.FramesOfEncodeAll` | README.md:672-681 | a file of any records followed by any torn tail shorter than 32 bytes reads back as exactly those records |
| `SegmentDir.SegOfRange` | pg-partdist-src/src/wal/partition_wal.c:282-290 | a record goes to the segment whose byte range holds its orig_node_lsn, and to segment 1 below the first boundary |
| `SegmentDir.LogOfSplit` | pg-partdist-src/src/wal/partition_wal.c:283-290 | placing each record in the file of its segment and reading files in name order restores the log if and only if segment numbers never go down along it |
| `SegmentDir.TailPeekOrdered` | pg-partdist-src/src/wal/partition_wal_writer.c:135-185 | on any ordered log, empty files included, the tail-peek finds the last LSN of the whole log |
| `SegmentDir.TailPeekZero` | pg-partdist-src/src/wal/partition_wal_writer.c:107-122 | the watermark is 0 exactly on a directory without records |
| `SegmentDir.MarkOfRecords` | pg-partdist-src/src/wal/partition_wal_writer.c:149-180 | the peek at any file of records gives the LSN of the last one, or the highest when that is 0 |
| `SegmentDir.TailPeekOfHighest` | pg-partdist-src/src/wal/partition_wal_writer.c:135-185 | the watermark of any directory is what its highest file gives that gives anything |
| `SegmentDir.TailPeekOfSomeIff` | pg-partdist-src/src/wal/partition_wal_writer.c:111-118 | peeking at some of the files only gives the same watermark if and only if the file of the last record is among them |
| `WriterSpec.WriteAppendsOrRefuses` | pg-partdist-src/src/wal/partition_wal_writer.c:272-305 | under every fault pattern a write either adds exactly its record to disk-plus-buffer or raises an error and adds nothing; nothing accepted before is lost; the buffer holds data only while a file is open |
| `WriterSpec.BufferedRefinesDirect` | pg-partdist-src/src/wal/partition_wal_writer.c:216-305 | for every stream, placement of flushes and fault pattern, disk plus buffer is what direct appends of the accepted records leave |
| `WriterSpec.AllAccepted` | pg-partdist-src/src/wal/partition_wal_writer.c:272-305 | without faults no record of the stream is refused |
| `WriterSpec.DiskBelowWriter` | pg-partdist-src/src/worker/demux_worker.c:626-634 | the watermark on disk never exceeds the writer's own |
| `WriterSpec.StallNeverDropsFresh` | pg-partdist-src/src/worker/demux_worker.c:626-637 | a record above the writer's watermark clears the stall before the write test |
| `WriterSpec.ResetRepresents` | pg-partdist-src/src/worker/demux_worker.c:606-624 | when the reset test fires, the restarted writer stands for the empty log; otherwise nothing changes |
| `WriterSpec.DemuxOneSafe` | pg-partdist-src/src/worker/demux_worker.c:598-655 | for any incoming LSN and any faults, disk plus buffer stays the split of a strictly increasing accepted sequence bounded by the watermark |
| `WriterSpec.DemuxFresh` | pg-partdist-src/src/worker/demux_worker.c:636-654 | a record above the watermark is accepted and, without faults, on disk with nothing pending |
| `WriterSpec.AddedIff` | pg-partdist-src/src/worker/demux_worker.c:636-637 | without faults a record is added if and only if it is above the watermark or restarts an emptied directory; otherwise the content is unchanged |
| `WriterSpec.AcceptedKeptIff` | pg-partdist-src/src/worker/demux_worker.c:606-623 | accepted records survive a demux step unless LSN 1 arrives at a writer with a watermark, an empty disk and a non-empty buffer, and even then if and only if the buffer holds just that record and the new open succeeds |
| `WriterSpec.LateFirstRecordLosesSecond` | pg-partdist-src/src/worker/demux_worker.c:606-623 | a concrete such run: record 2, failed flush, then record 1 |
| `Demux.ProcessViews` | pg-partdist-src/src/worker/demux_worker.c:569-658 | processing a record changes its own partition as if alone (or nothing, when the cache is full) and no other partition |
| `Demux.FlushAllViews` | pg-partdist-src/src/worker/demux_worker.c:304-322 | the loop over all writers flushes each partition exactly once, errors stalling only their own writer |
| `Demux.Isolation` | pg-partdist-src/src/worker/demux_worker.c:276-302 | over any interleaved stream with any faults a partition ends as on its own records alone, unless the 512-writer cache filled without it, and then its directory is untouched; cached ids stay distinct |
| `Demux.SoundStep` | pg-partdist-src/src/worker/demux_worker.c:598-655 | any event keeps a partition's accepted sequence strictly increasing and adds at most the event's own record |
| `InStep.DemuxCarries` | pg-partdist-src/src/worker/demux_worker.c:636-654 | the next record of a log keeps files plus buffer equal to the log for every outcome of the flush after its write, as long as the write is accepted; what is on disk only grows |
| `InStep.InStepIff` | pg-partdist-src/src/wal/partition_wal_writer.c:272-305 | an in-order record joins disk plus buffer if and only if every call its write needs succeeds |
| `InStep.RefusedLeavesHole` | pg-partdist-src/src/worker/demux_worker.c:636-654 | a refused record is lost for good: the next one is accepted over the hole, and the refused one is dropped if it comes again |
| `InStep.FollowsRecord` | pg-partdist-src/src/worker/demux_worker.c:598-655 | a partition in step with a gapless log, or emptied by a reset whatever writer is left, is in step after its next record |
| `InStep.FollowsFlush` | pg-partdist-src/src/worker/demux_worker.c:304-322 | a flush of any outcome keeps it in step, and on success empties the buffer |
| `InStep.FollowsClean` | pg-partdist-src/src/wal/partition_wal.c:235-259 | a cleanup that leaves the highest file with records and the file of the buffered ones keeps the partition in step: the same watermark, and just the start of the log gone |
| `InStep.CleanKeepsIff` | pg-partdist-src/src/wal/partition_wal.c:235-259 | a cleanup keeps the partition in step if and only if it leaves those two files, a file unlinked under an open descriptor included |
| `InStep.DemuxKeepsTouched` | pg-partdist-src/src/worker/demux_worker.c:598-655 | a writer has a file open only after a record went through it, which is why reset detection never overlooks a dangling descriptor |
| `InStep.StalledIff` | pg-partdist-src/src/worker/demux_worker.c:626-653 | a stall from before stays while the disk watermark has reached the record; otherwise a partition is stalled if and only if the record is due and a call its write or the flush behind it needs fails |
| `InStep.StalledByFlush` | pg-partdist-src/src/worker/demux_worker.c:304-322 | after the flush of all writers one is stalled if and only if it was, or its own flush failed with something to write |
| `InStep.DanglingRecord` | pg-partdist-src/src/worker/demux_worker.c:600-654 | whatever record arrives at a writer whose file was unlinked, with any faults, the partition stays empty or starts over with that record |
| `InStep.SoundAtStep` | pg-partdist-src/src/worker/demux_worker.c:598-655 | any event at a partition, reset or not, keeps its accepted sequence strictly increasing and adds at most the event's own record |
| `InTurn.PlacedRecord` | pg-partdist-src/src/worker/demux_worker.c:598-655 | the next record of a partition, any numbers missing before it, joins files and buffer when its write is accepted, for every outcome of the flush; on a directory emptied under an old writer it must be number 1 |
| `InTurn.PlacedClean` | pg-partdist-src/src/wal/partition_wal.c:235-259 | a cleanup that leaves the highest file, the open one and that of the last record takes records from the files only |
| `InTurn.PlacedOnce` | pg-partdist-src/src/wal/partition_wal_writer.c:216-305 | every record of the sequence is in its own file or in the buffer and not both, and no other record is in either |
| `InTurn.RestoreOne` | pg-partdist-src/src/wal/partition_wal.c:383-425 | one record replayed over a log with gaps is skipped or is the next one missing, and recovery goes on from there, after another crash too |
| `Demux.ResetViews` | pg-partdist-src/src/wal/partition_wal.c:966-982 | unlinking a partition's files under a running worker empties that directory, leaves its open descriptor without a file, and touches no other partition |
| `Demux.CleanViews` | pg-partdist-src/src/wal/partition_wal.c:215-262 | a cleanup under a running worker changes one partition's directory, leaves a descriptor it unlinks without a file, and touches no other partition |
| `Redo.RedoRange` | pg-partdist-src/src/wal/partition_wal.c:409-424 | replaying records j+1..c over a disk that holds 1..k (j <= k) leaves exactly 1..max(k,c), and changes no file when c <= k |
| `Redo.CrashConvergence` | pg-partdist-src/src/wal/partition_wal.c:383-425 | a disk holding 1..k, replayed from at or below k+1 with any number of interrupted recoveries, ends with exactly 1..n, and one more replay changes nothing |
| `Redo.ReplayCompleteIff` | pg-partdist-src/src/wal/partition_wal.c:409-424 | replay from a start point restores the whole log if and only if the start leaves no hole |
| `Redo.NothingReplayedIff` | pg-partdist-src/src/wal/partition_wal.c:409-424 | whatever records are replayed and in whatever order, the directory stays as it is if and only if none is above its watermark |
| `Machine.ProgressStep` | pg-partdist-src/src/worker/demux_worker.c:448-499 | no step rewrites flushed WAL, saved progress never passes the flush point, and last_processed_lsn goes back only when the server goes down |
| `Machine.ProgressRun` | pg-partdist-src/src/worker/demux_worker.c:440-687 | the same over every run |
| `Machine.InsertedRecord` | pg-partdist-src/src/wal/partition_wal.c:348-366 | the WAL record a backend inserts carries its partition and number and the caller's orig_node_lsn and flags |
| `Machine.CaughtUpAtFlush` | pg-partdist-src/src/worker/demux_worker.c:448-462 | a caught-up worker brings last_processed_lsn to the flush point, so that demux_flush can return |
| `Discipline.DiscardNeedsAbort` | pg-partdist-src/src/wal/partition_wal.c:353-371 | if no LSN is discarded before a step and the step gives up none, none is discarded after it, in any state and for every kind of step |
| `CrashInvariant.NextLsnIff` | pg-partdist-src/src/wal/partition_wal.c:353-371 | when no other backend holds a lower LSN, the number being inserted is the next one of the log if and only if no lower one was discarded |
| `CrashInvariant.SafeStep` | pg-partdist-src/src/worker/demux_worker.c:440-687 | each of the twenty steps keeps the invariant: every partition follows its WAL records, buffer included, replay from the redo pointer would miss nothing, and the allocator is just ahead of the WAL |
| `CrashSafety.DiskIsGaplessPrefix` | pg-partdist-src/src/worker/demux_worker.c:440-687 | in every reachable state, failed flushes, crashes, restarts, resets and cleanups included, every partition's log on disk has no gap and is the range of its flushed WAL records since its last reset from what cleanup removed to the watermark; without a cleanup it is exactly 1..k, a prefix of them |
| `CrashSafety.DiskPlusBuffer` | pg-partdist-src/src/worker/demux_worker.c:440-687 | while the server runs, disk plus buffer is exactly what the worker has read since the last reset, less what cleanup removed |
| `CrashSafety.FirstLsnContinuesLog` | pg-partdist-src/src/wal/partition_wal.c:151-166 | whatever the interleaving, the value that creates an allocator entry is one past the end of the log on disk, removed records counted, and what is on disk is then the whole rest of the partition's WAL records |
| `CrashSafety.RecoveryComplete` | pg-partdist-src/src/wal/partition_wal.c:383-425 | when recovery finishes, every partition's log is all of its surviving WAL records since its last reset, but for what cleanup removed |
| `CrashSafety.CrashReady` | pg-partdist-src/src/wal/partition_wal.c:383-425 | a crash of the running server at any point leaves every partition in such a state, with the two conditions as they were before it |
| `CrashSafety.CrashRecoversIff` | pg-partdist-src/src/wal/partition_wal.c:383-425 | from any state recovery starts in, replay brings back no record from before the last reset if and only if those at or above the redo pointer are covered by the watermark; and then recovery restores the whole log if and only if every record of it below the redo pointer was on disk |
| `CrashSafety.GaplessIff` | pg-partdist-src/src/wal/partition_wal.c:336-377 | when WAL order is LSN order, the WAL of every partition stays gapless through a run if and only if no insertion passes over a discarded LSN |
| `CrashSafety.DiscardIff` | pg-partdist-src/src/wal/partition_wal.c:1040-1046 | a step discards an LSN if and only if a backend gives up the number it holds |
| `CrashSafety.OrderSuffices` | pg-partdist-src/src/wal/partition_wal.c:336-377 | when every backend that takes a number inserts its record, WAL order being LSN order is all the allocator needs |
| `CrashSafety.DiscardLeavesGap` | pg-partdist-src/src/wal/partition_wal.c:1040-1046 | a concrete run: number 1 is taken and given up, number 2 is inserted, and the log starts with a gap |
| `CrashSafety.SkipFaithfulIff` | pg-partdist-src/src/worker/demux_worker.c:484-499 | a skip of the reader, which keeps its writers, keeps disk plus buffer a faithful copy if and only if it passes over no partition record |
| `CrashSafety.RestartFaithfulIff` | pg-partdist-src/src/worker/demux_worker.c:422-437 | starting ahead with fresh writers keeps it one if and only if, besides, no buffered record is dropped |
| `CrashSafety.ResetProtocol` | pg-partdist-src/src/wal/partition_wal.c:945-983 | after a reset with the old records read and no allocation in flight, wherever the redo pointer is and in any interleaving, the numbers issued are 1, 2, ..., the log on disk has no gap, and once all are inserted, read and written out the directory holds exactly 1..n but for what a later cleanup removed |
| `CrashSafety.ResetSurvivesCrashIff` | pg-partdist-src/src/wal/partition_wal.c:951-983 | after reset, crash and the whole run of redo steps the directory is empty if and only if the partition has no WAL record at or above the redo pointer; when those are of one generation it holds exactly them |
| `PartitionBarrier.PlaceStep` | pg-partdist-src/src/worker/demux_worker.c:440-687 | each of the twenty steps leaves a partition's files and buffer holding exactly the sequence it should, gaps allowed, or recovery on its way to it |
| `PartitionBarrier.EveryRecordDelivered` | pg-partdist-src/src/worker/demux_worker.c:569-658 | from a server start on, through failed flushes, crashes, restarts and resets, with any numbers missing, every record of the partition below last_processed_lsn and newer than its last reset is in its segment file or in the buffer after a failed flush, and not in both, unless cleaned away |
| `PartitionBarrier.EveryRecordOnDisk` | pg-partdist-src/src/worker/demux_worker.c:569-658 | when no flush of the partition has failed it is in its segment file, whatever became of the others |
| `PartitionBarrier.Barrier` | pg-partdist-src/src/wal/partition_wal.c:369-376 | the same for a record whose write call had returned when demux_flush took its target, once last_processed_lsn has reached that |
| `PartitionBarrier.GapIsNoObstacle` | pg-partdist-src/src/wal/partition_wal.c:1040-1046 | a concrete run: number 1 is taken and given up, number 2 is inserted, flushed and read, and its record is in its file; the run is steady although no gapless log comes of it |
| `SteadyDiscipline.DisciplinedRunIsSteady` | pg-partdist-src/src/worker/demux_worker.c:440-687 | every disciplined run is steady for every partition, and the sequence delivered is the partition's log less what cleanup removed |
| `SteadyDiscipline.DisciplinedBarrier` | pg-partdist-src/src/worker/demux_worker.c:981-1017 | in a disciplined run from the first start, every record below last_processed_lsn and newer than its partition's last reset and cleanup is in its file or held back by a failed flush; in its file when no flush failed |
| `SessionSafety.SessionStepKeeps` | pg-partdist-src/src/worker/demux_worker.c:440-687 | every step of a running session, quiet resets and cleanups of closed segments included, keeps the invariant for any WAL order, any segment order and any faults |
| `SessionSafety.SessionDisk` | pg-partdist-src/src/worker/demux_worker.c:569-658 | for every interleaving within a session, quiet resets and cleanups of closed segments included, no LSN is on disk twice, each file is strictly increasing and every record was there at the start or came from the WAL |
| `SessionSafety.AllocatorRaceFree` | pg-partdist-src/src/wal/partition_wal.c:127-169 | the values returned for a partition are L+1, L+2, ... in order of the exclusive sections, L being the highest LSN on disk at the start, or 0 after a reset; until the first one the watermark on disk stays L, and without a cleanup the records do not change |
| `SessionSafety.ResetAllocatesFromOne` | pg-partdist-src/src/wal/partition_wal.c:951-983 | the values returned since a quiet reset are exactly 1..n, for every interleaving of any number of backends with the worker, in any WAL order and with any faults |
| `SegmentCleanup.CleanupSafety` | pg-partdist-src/src/wal/partition_wal.c:215-262 | a record goes if and only if the byte range of its segment ends at or below keepPtr, hence only records below keepPtr; survivors are a contiguous suffix; the watermark is unchanged if and only if the last record's segment survives |
| `Maintenance.ResetThenExactly` | pg-partdist-src/src/worker/demux_worker.c:600-637 | after a reset with earlier records consumed, n further in-order records leave exactly those n in directory plus buffer, despite the stale watermark, buffer and descriptor, and in the directory alone when no flush fails |
| `Maintenance.LeftoverIff` | pg-partdist-src/src/worker/demux_worker.c:600-654 | one old record read after the reset leaves the directory empty if and only if a writer is cached, the record is not LSN 1, and it is not above that writer's watermark or goes to the very file that was unlinked under it, all calls succeeding |
| `Maintenance.FirstAfterLeftoverIff` | pg-partdist-src/src/worker/demux_worker.c:600-654 | the new record 1 that follows makes the directory exactly itself in just those cases, or when it is that old record over again |
| `Maintenance.LeftoverDefeatsReset` | pg-partdist-src/src/worker/demux_worker.c:600-637 | a concrete run: an old record read after the reset makes the new record 1 disappear |
| `SegmentFiles.WatermarkIsMax` | pg-partdist-src/src/wal/partition_wal_writer.c:93-186 | on every ordered directory with any mix of empty files, torn tails and foreign records the peek equals the maximum LSN over all complete records |
| `SegmentFiles.MarkOfFile` | pg-partdist-src/src/wal/partition_wal_writer.c:149-182 | the peek at a file gives the LSN of its last record when that is whole, the partition's own and not 0; otherwise the highest LSN of the partition's records in it |
| `SegmentFiles.WatermarkOfHighest` | pg-partdist-src/src/wal/partition_wal_writer.c:135-185 | the watermark of any directory, ordered or not, is what the highest file gives that gives anything |
| `SegmentFiles.WatermarkIsTailPeek` | pg-partdist-src/src/wal/partition_wal_writer.c:93-186 | on files a writer produces the byte-level watermark is the record-level one |
| `SegmentFiles.ValidLog` | pg-partdist-src/src/worker/demux_worker.c:952-959 | filtering each file by magic and partition and then concatenating is filtering the whole log |
| `SegmentFiles.ValidMember` | pg-partdist-src/src/worker/demux_worker.c:952-959 | a record is reported if and only if it is in the file with the magic number and the partition's id |
| `SegmentFiles.ExactIff` | pg-partdist-src/src/wal/partition_wal.c:1257-1272 | what verification asks of the i-th record: magic number, partition id, and LSN i + 1 |
| `SegmentFiles.ReadersAgree` | pg-partdist-src/src/wal/partition_wal.c:1257-1272 | when the records are exactly 1..n, the read-all result is all of them and the watermark is n |
| `SegmentFiles.AllReadersAgree` | pg-partdist-src/src/wal/partition_wal.c:1203-1278 | with at most 256 files, torn tails and foreign records included, verification succeeds if and only if reading all gives as many rows as there are records, numbered 1, 2, ...; then count, rows and watermark are the same n |
| `SegmentFiles.ListedAll` | pg-partdist-src/src/wal/partition_wal_writer.c:111-118 | with at most 256 files the capped listing is complete |
| `SegmentFiles.ListedFirst` | pg-partdist-src/src/wal/partition_wal_writer.c:111-118 | the capped readers see the files among the first 256 names, unchanged |
| `SegmentFiles.CapHarmlessIff` | pg-partdist-src/src/wal/partition_wal_writer.c:111-136 | beyond 256 files the watermark is right if and only if the last record's segment is among the first 256 names readdir yields |
| `SegmentFiles.SortSegments` | pg-partdist-src/src/wal/partition_wal_writer.c:124-133 | the in-place exchange sort yields a sorted permutation, descending or ascending |
| `SegmentFiles.ListSegments` | pg-partdist-src/src/wal/partition_wal_writer.c:111-133 | the sorted listing has exactly the first 256 names |
| `PartitionDirectory.ScanFile` | pg-partdist-src/src/wal/partition_wal_writer.c:168-180 | the scan returns the highest LSN of the partition's own complete records of the file, 0 if there is none |
| `PartitionDirectory.PeekFile` | pg-partdist-src/src/wal/partition_wal_writer.c:149-182 | the LSN of the last record if the file ends with a whole one of ours that has one, and the scan otherwise |
| `PartitionDirectory.ReadFile` | pg-partdist-src/src/worker/demux_worker.c:952-965 | returns exactly the valid complete records of the file, in order |
| `PartitionDirectory.Directory.GetLastWrittenPartitionLSN` | pg-partdist-src/src/wal/partition_wal_writer.c:93-186 | returns the watermark of the listed files, whatever the readdir order |
| `PartitionDirectory.Directory.VerifyPartitionWAL` | pg-partdist-src/src/wal/partition_wal.c:1203-1278 | true if and only if the complete records in segment order are this partition's with LSNs exactly 1..n |
| `PartitionDirectory.Directory.VerifyFile` | pg-partdist-src/src/wal/partition_wal.c:1257-1272 | one file continues the exact sequence if and only if the result is true |
| `PartitionDirectory.Directory.CountRecords` | pg-partdist-src/src/worker/demux_worker.c:718-758 | the sum over file sizes is the number of complete records of the directory |
| `PartitionDirectory.Directory.ReadAllHeaders` | pg-partdist-src/src/worker/demux_worker.c:919-967 | the valid complete records in segment order |
| `PartitionDirectory.Directory.CleanupPartitionWAL` | pg-partdist-src/src/wal/partition_wal.c:235-259 | of the files there were exactly those whose byte range ends above keepPtr are left, unchanged |
| `PartitionDirectory.Directory.UnlinkAll` | pg-partdist-src/src/wal/partition_wal.c:974-981 | leaves no segment file |
| `PartitionWriter.Writer.constructor` | pg-partdist-src/src/wal/partition_wal_writer.c:192-210 | for every directory a new writer is closed and empty with the watermark of the listing; on the writer's own files, the record-level new writer |
| `PartitionWriter.Writer.ResetDirectory` | pg-partdist-src/src/wal/partition_wal.c:966-982 | another process's unlink loop leaves the object in the record-level state after a reset, an open descriptor without a file |
| `PartitionWriter.Writer.CleanupDirectory` | pg-partdist-src/src/wal/partition_wal.c:235-259 | another process's cleanup leaves the object in the record-level state after a cleanup, an unlinked open file included |
| `PartitionWriter.FlushCallsIff` | pg-partdist-src/src/wal/partition_wal_writer.c:229-254 | a flush succeeds if and only if no call fails for good before the bytes are out; then all are written, otherwise what the calls before the failure say; a call a signal interrupts writes nothing and stops nothing |
| `PartitionWriter.NeverFailsIff` | pg-partdist-src/src/wal/partition_wal_writer.c:229-254 | no flush fails, whatever it has to write, if and only if no call fails for good |
| `PartitionWriter.WritesNothingIff` | pg-partdist-src/src/wal/partition_wal_writer.c:229-254 | every flush that fails has written nothing if and only if nothing is written before the first call that fails |
| `PartitionWriter.Writer.WriteOut` | pg-partdist-src/src/wal/partition_wal_writer.c:229-254 | for every sequence of short, interrupted and failing write calls the loop succeeds if and only if the calls before the first failure write everything or none fails; the file grows by exactly the bytes written, and no file of the directory if it was unlinked |
| `PartitionWriter.Writer.FlushBuffer` | pg-partdist-src/src/wal/partition_wal_writer.c:216-264 | disk plus buffer is unchanged if and only if the flush succeeds or wrote nothing; then, and through an unlinked file too, it is the record-level flush |
| `PartitionWriter.Writer.OpenWriterSegment` | pg-partdist-src/src/wal/partition_wal_writer.c:43-80 | on success the segment's file is there and open and the stall is cleared; on failure the descriptor is closed and no file has changed; the record-level open |
| `PartitionWriter.Writer.Store` | pg-partdist-src/src/wal/partition_wal_writer.c:302-304 | the buffer holds the earlier records and then this one; its size stays a multiple of 32 within 256 KB |
| `PartitionWriter.Writer.MakeRoom` | pg-partdist-src/src/wal/partition_wal_writer.c:298-300 | a buffer of 256 KB is flushed before the next record, and none that is not full |
| `PartitionWriter.Writer.Put` | pg-partdist-src/src/wal/partition_wal_writer.c:298-305 | flush of a full buffer and store: the buffer ends with this record's bytes; torn tails or not, the bytes in files plus buffer gain exactly these, or nothing when the flush raised; on whole records, the record-level step |
| `PartitionWriter.Writer.SwitchSegment` | pg-partdist-src/src/wal/partition_wal_writer.c:286-296 | flush and open at a segment boundary, equal to the record-level step for the calls that succeeded |
| `PartitionWriter.Writer.WritePartitionWAL` | pg-partdist-src/src/wal/partition_wal_writer.c:272-305 | the record's bytes end the buffer of the file whose byte range holds its orig_node_lsn, and that is the one file that files plus buffer gain them in, behind torn tails too, or nothing; on whole records, the record-level write whose fault tolerance is proved |
| `PartitionWriter.Writer.RestartIfReset` | pg-partdist-src/src/worker/demux_worker.c:606-624 | for every directory, a really reset one included, the record-level reset detection for the watermark the listing shows |
| `PartitionWriter.Writer.ClearStall` | pg-partdist-src/src/worker/demux_worker.c:626-634 | for every directory, the record-level un-stall test for the watermark the listing shows |
| `PartitionWriter.Writer.WriteOrStall` | pg-partdist-src/src/worker/demux_worker.c:639-653 | on bytes, write, flush and error handler equal the record-level step; behind torn tails too, files plus buffer gain exactly this record's bytes or nothing |
| `PartitionWriter.Writer.DemuxStep` | pg-partdist-src/src/worker/demux_worker.c:598-655 | for every directory, torn tails included, files plus buffer gain exactly the record's bytes or nothing, after losing the buffer if a reset shows; a record is written only when due, and always then without faults |
| `PartitionWriter.Writer.DemuxRecord` | pg-partdist-src/src/worker/demux_worker.c:598-655 | the same byte for byte; on files of whole records, dangling descriptor or not, the record-level step for the watermark the listing shows, which keeps the accepted sequence strictly increasing and the partition's own |
| `DirectPath.WriteHeaderToFile` | pg-partdist-src/src/wal/partition_wal.c:274-323 | succeeds if and only if open and the single write do; the one file that grows, by exactly the bytes written, is that whose byte range holds orig_node_lsn, torn tail or not; on files of whole records exactly one record is appended, or none |
| `DirectPath.RedoRecord` | pg-partdist-src/src/wal/partition_wal.c:383-425 | for every directory: data without the four magic bytes leaves the files alone, and so does a record not above the watermark of the listing; otherwise the raw bytes are appended to the file orig_node_lsn names, or the append fails, having written what it got through; on a sane directory the record-level redo step, or no record |
| `DirectPath.LsnAllocator.ScanDisk` | pg-partdist-src/src/wal/partition_wal.c:151-156 | the initial value is one past the watermark, 1 on an empty directory |
| `DirectPath.LsnAllocator.EnterSection` | pg-partdist-src/src/wal/partition_wal.c:158-168 | the exclusive section is the machine's allocator step and keeps every partition's issued values consecutive |
| `DemuxWorker.Demultiplexer.constructor` | pg-partdist-src/src/worker/demux_worker.c:422-437 | a worker starts at the flush point with an empty cache, whatever was saved |
| `DemuxWorker.Demultiplexer.GetOrCreateWriter` | pg-partdist-src/src/worker/demux_worker.c:280-302 | the partition's first slot or a new one; none if and only if it has none and 512 are taken or creation fails |
| `DemuxWorker.Demultiplexer.ProcessRecord` | pg-partdist-src/src/worker/demux_worker.c:581-656 | one record through the worker object equals the step proved isolated |
| `DemuxWorker.Demultiplexer.FlushAllWriters` | pg-partdist-src/src/worker/demux_worker.c:304-322 | the loop over the cache equals the flush step proved once per partition |
| `DemuxWorker.Demultiplexer.OtherProcess` | pg-partdist-src/src/wal/partition_wal.c:966-982 | a reset or cleanup by another process leaves the worker object in the state the record-level step describes |
| `DemuxWorker.Demultiplexer.Iteration` | pg-partdist-src/src/worker/demux_worker.c:440-687 | one loop iteration in all its branches: caught up, segment missing, NULL record, record |
| `DemuxWorker.CaughtUpReaches` | pg-partdist-src/src/worker/demux_worker.c:448-469 | a caught-up iteration brings last_processed_lsn to the flush point and leaves the reader where it is |
| `DemuxWorker.MissingSegmentSkips` | pg-partdist-src/src/worker/demux_worker.c:484-499 | when a WAL segment cannot be opened the reader skips to the flush point of that moment, and nothing else happens |
| `DemuxWorker.NullsCount` | pg-partdist-src/src/worker/demux_worker.c:524-525 | up to three NULL records in a row change nothing but their count |
| `DemuxWorker.FourthNullSkips` | pg-partdist-src/src/worker/demux_worker.c:524-558 | after the fourth the reader goes on from the next valid record, or stays if there is none, and not before; either way the count starts again |
| `DemuxWorker.RecordRead` | pg-partdist-src/src/worker/demux_worker.c:567-677 | a record moves reader and last_processed_lsn past it, clears the count of NULLs, and goes to its partition if it is one of ours |
| `DemuxWorker.RecordBetweenNulls` | pg-partdist-src/src/worker/demux_worker.c:567 | a record between NULLs keeps three more from making the reader skip |
| `DemuxWorker.SixteenthSaves` | pg-partdist-src/src/worker/demux_worker.c:675-687 | progress is saved at every sixteenth record and not before, clamped to the flush point |
| `DemuxWorker.StartsAtFlush` | pg-partdist-src/src/worker/demux_worker.c:422-437 | a worker that starts, alone or with the server, stands at the flush point with no writers, wherever the last one was and whatever it saved |
| `DemuxWorker.Demultiplexer.MainLoop` | pg-partdist-src/src/worker/demux_worker.c:440-687 | the whole loop until SIGTERM, for every sequence of flush points that do not go back and of read results, with any resets and cleanups by other processes in between; woven with the rest of the server it ends where the machine does |
| `DemuxWorker.IterationIsSteps` | pg-partdist-src/src/worker/demux_worker.c:440-687 | each iteration is a sequence of machine steps with the same effect on disk, writers, position and progress |
| `DemuxWorker.LoopIsRun` | pg-partdist-src/src/worker/demux_worker.c:440-687 | for every interleaving of the iterations with what backends, checkpoints, resets and cleanups do, the whole loop is a run of the machine |
| `DemuxWorker.LoopSession` | pg-partdist-src/src/worker/demux_worker.c:440-687 | started with the server, the loop leaves no LSN on disk twice and every file strictly increasing, in any WAL order, with any faults, quiet resets and cleanups; and the numbers issued since a reset are 1, 2, ... |
| `DemuxWorker.LoopGapless` | pg-partdist-src/src/worker/demux_worker.c:440-687 | when the woven steps are disciplined, resets and cleanups included, the loop leaves every partition's log on disk without a gap, and disk plus buffer exactly what it has read since the last reset, less what cleanup removed |
| `DemuxWorker.ReachedMeansDelivered` | pg-partdist-src/src/worker/demux_worker.c:981-1017 | when the polls of demux_flush read last_processed_lsn along a run and it returns in time, the record written before the call is in its file at that poll, unless held back by a failed flush or reset or cleaned away since; only the record's own partition is asked anything, and numbers may be missing |
| `DemuxWorker.SessionProgress` | pg-partdist-src/src/worker/demux_worker.c:440-685 | through skips, errors and NULL streaks last_processed_lsn and the position never go back, and neither they nor the saved progress pass the flush point |
| `DemuxWorker.DemuxFlush` | pg-partdist-src/src/worker/demux_worker.c:981-1017 | the poll loop reports success if and only if one of its 1500 polls saw a valid position at or beyond the target |
| `MetadataCache.RunKeepsInv` | pg-partdist-src/src/metadata_cache.c:249-336 | over every history in which no change touches a row between its table read and its refill, entries stamped with the current generation are the table's rows |
| `MetadataCache.AnsweredAtOnceIff` | pg-partdist-src/src/metadata_cache.c:265-280 | a lookup is answered from the cache, with its row, if and only if the entry carries the current generation |
| `MetadataCache.AnswersAreCurrent` | pg-partdist-src/src/metadata_cache.c:249-336 | every answer of every lookup, hit, miss or not found, is what the table holds at that moment, when no change touches a row between its table read and its refill |
| `MetadataCache.ChangeSoundIff` | pg-partdist-src/src/metadata_cache.c:319-333 | a table change keeps both the cache and every refill still to come coherent if and only if each row read and not yet refilled is still the table's |
| `MetadataCache.RefillCoherentIff` | pg-partdist-src/src/metadata_cache.c:319-333 | a refill, stamped with the generation of refill time, keeps the cache coherent if and only if the row it read is still the table's |
| `WriteRouter.RoutesAsDocumentedIff` | pg-partdist-src/src/router/write_router.c:30-76 | code and documented procedure agree on a partition if and only if it is unknown or its primary id is not negative |
| `WriteRouter.Metadata.ChangeTables` | pg-partdist-src/src/metadata_cache.c:470-484 | a table change with its generation bump keeps both caches coherent |
| `WriteRouter.Metadata.InvalidatePartdistCache` | pg-partdist-src/src/metadata_cache.c:475-484 | one bump makes both caches coherent again, whatever stale rows they hold |
| `WriteRouter.Metadata.GetPartitionPrimary` | pg-partdist-src/src/metadata_cache.c:249-336 | the answer is the table's primary, -1 when unknown, cached or not; afterwards a found row is cached and fresh |
| `WriteRouter.Metadata.GetPartitionEntry` | pg-partdist-src/src/metadata_cache.c:342-381 | an entry if and only if the partition is known with a primary that is not negative; with shared memory its secondaries are the row's first 32 in order, without it there are none |
| `WriteRouter.Metadata.GetNodeInfo` | pg-partdist-src/src/metadata_cache.c:388-468 | the answer is the table's row, cached or not |
| `WriteRouter.Metadata.RouteWriteRequest` | pg-partdist-src/src/router/write_router.c:46-76 | cached or not: not found when unknown or negative, then node down, then local, then remote, on the tables; the documented procedure unless the primary id is negative |
| `WriteRouter.RouteAcrossHistories` | pg-partdist-src/src/router/write_router.c:46-76 | with any lookups, changes and bumps before, between and during its two lookups, none touching a row between its table read and its refill, a route is the decision procedure on the partition table of the first answer's moment and the node table of the second's |
| `WriteRouter.OneMomentIff` | pg-partdist-src/src/router/write_router.c:53-73 | such a route is the first moment's answer if and only if the primary was neither taken down nor brought up in between, and the second's if and only if the old and the new primary route alike |
| `WriteRouter.NeitherMoment` | pg-partdist-src/src/router/write_router.c:53-73 | a concrete case in which it is the answer of neither moment |
| `LatencyStats.Ring.RecordLatencySample` | pg-partdist-src/src/worker/demux_worker.c:338-350 | the ring keeps the last 1024 samples with head = count mod 1024 |
| `LatencyStats.Ring.RingHoldsRecent` | pg-partdist-src/src/worker/demux_worker.c:826-834 | the copied slots are a permutation of the last min(n, 1024) samples |
| `LatencyStats.Ring.Stats` | pg-partdist-src/src/worker/demux_worker.c:826-863 | no report if and only if there are no samples; otherwise the percentiles of a sorted permutation of the recent samples, both indices in range and p50 <= p99, and their mean, which lies between the least and the greatest, all in milliseconds |
| `LatencyStats.Summarize` | pg-partdist-src/src/worker/demux_worker.c:858-863 | the summation loop and the report: the mean is the sum of all samples over their number |
| `LatencyStats.InsertionSort` | pg-partdist-src/src/worker/demux_worker.c:844-856 | the in-place insertion sort yields an ascending permutation |
| `LatencyStats.ShiftUp` | pg-partdist-src/src/worker/demux_worker.c:848-854 | the inner loop moves exactly the larger elements of the prefix up by one and frees their first slot |

## Left out

- CrashSafety.DiskIsGaplessPrefix: holds under `Disciplined`, because the code shares no lock between allocation and WAL insertion, raises an error on a refused write and starts the worker at the flush point; the same hypotheses are behind FirstLsnContinuesLog, RecoveryComplete and ResetProtocol.
- PartitionBarrier.Barrier: does not cover the 30-second timeout, after which demux_flush only warns, nor a WAL order that is not LSN order, in which the code drops the late record (WriterSpec.AddedIff).
- CrashSafety.ResetProtocol: does not cover an allocation that overlaps the reset, because the code takes no lock across the counter and the unlink loop; the reset is one step, and so is a cleanup.
- PartitionWriter.Writer.DemuxRecord: on a file with a torn tail it states the bytes, not the records, because the code appends behind the tail and records there are then misread (Header.FramesAppendIff); a flush that fails after a partial write is stated exactly in FlushBuffer only.
- DemuxWorker.LoopIsRun: weaves in what other processes do between iterations, not inside one.
- MetadataCache.AnswersAreCurrent: its refill stores every row, while GetPartitionPrimary stores one only when the primary is not negative (`pg-partdist-src/src/metadata_cache.c:320`); the method of WriteRouter follows the code.
- WriteRouter.Metadata.InvalidatePartdistCache: each method is one step, so the locks are not modelled; the code bumps the generation under the partition lock and the node lookup reads it under the node lock.
- WriteRouter.Metadata.RouteWriteRequest: one call without interruption; RouteAcrossHistories covers the other interleavings.
- LatencyStats.Ring.Stats: the milliseconds are real numbers; the rounding of the floating-point division is not modelled.
- WAL library internals (XLogReader, XLogInsert, XLogFlush, XLogFindNextRecord): the WAL is a record sequence with a flush point, a reader and a reader that may skip.
- Segment file names: segment numbers stand for names, on one timeline, where name order is segment order.
- Failures of open or opendir on the read side, failures of unlink, and fsync warnings.
- Machine steps see whole directories: the 256-file cap of the watermark is treated in `SegmentFiles`, not in `Machine`.
- Wrap-around of 64-bit LSNs, 32-bit partition ids and the generation counter; the field widths matter only in `Header`.
- Capacity of the shared hashes and allocation failures other than a failed writer creation.
- The slots of `Demultiplexer` hold writers as values: the source's pointers in `active_writers` are never shared, so no aliasing is lost.
- The worker's shutdown after the loop: `CleanRestart` stands for it together with the server restart, with one flush per writer.
- check_partition_wal: the same directory walk as verify_partition_wal with row-by-row output; DestroyPartitionWALWriter: a flush and a close.
- LoadDemuxProgress, which no start-up path calls, and PartWALSkip records, which no code writes.
- NULL elements of secondary_nodes, SPI and catalog access, RouteStatusString, executor hooks, configuration variables, shared-memory sizing, background-worker registration, hit and miss counters, and the tuple output of the SQL functions.
