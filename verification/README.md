# Storage, event-loop and serialization libraries, modelled and proved

This project models the C and C++ libraries that the application vendors under `mock_project/Pods` and proves what they promise.

**LevelDB.** The store is a state machine over a disk (manifest, logs, tables) and a memory (memtables, current version, background job, snapshots). `InternalKeys`, `History`, `Versions` and `MemTables` define entries, what a read at a snapshot must answer, and the layered read path. `VersionEdits`, `Selection`, `Compaction`, `CompactionReads`, `Installs` and `Flushes` cover the manifest builder, the choice of compaction inputs, the drop rules, and what installing a flush, a move or a compaction does to a version. `Disk`, `Store`, `StoreSteps`, `StoreBackground`, `StoreRecovery` and `StoreRuns` put them together; `Guarantees` and `CrashOrder` state what holds over every run, `SnapshotFree` what holds in runs without snapshots, `WriteReads` that the store is the map its writes make. `StoreWork` does flushes, moves and compactions as the steps of the state machine, `StoreScan` runs the user iterator over the whole store, and `TableReads` takes the read path down to index blocks, filters and data blocks. The user's map as of a sequence number is the specification throughout.

Below the store are its parts: the log format (`Framing`, `LogFormat`, `LogReader`, `LogRoundTrip`), what a damaged log reads as (`LogDamage`), and what its records hold (`ItemStreams`, `WriteBatches`, `BatchBytes`, `EditFormat`, `ManifestBytes`), group commit (`GroupCommit`, `GroupCommitSafety`, `GroupCommitOrder`, `GroupCommitRecords`) and its stalls (`WriteStalls`), the skip list with lock-free readers and the memtable on it (`SkipList`, `SkipMemTable`), the merging and user iterators (`Merging`, `UserIterator`), filters (`Bloom`, `FilterBlocks`), tables (`Separators`, `Tables`, `Varints`, `VarintBytes`, `Blocks`, `BlockIter`) and the cache (`HandleTables`, `LruCache`, and `LruOrder` for what it evicts).

**libuv.** `ThreadPool` and `ThreadPoolSafety` model the worker protocol over all interleavings; `ThreadPoolOrder` is about the order in which requests run. `LinkedHeaps` models the pointer-linked heap link by link over an explicit memory; `Timers` runs timers on it.

**nanopb.** `PbMessages` describes schemas, messages and their encoding; `PbEncoder` is the encoder with its counting and writing streams; `PbWire`, `PbDecoder` and `PbReader` are the decoder as a function and as it runs; `PbRoundTrip` and `PbTheorems` relate the two. `PbNumbers` says which bytes a number field accepts, `PbEvolution` what a reader makes of another schema's messages, and `PbMerge` what it makes of messages one after the other.

User keys are points of the comparator's order, given as reals; `Bytewise` embeds the default byte order in them. Names of files, nodes and requests are numbers. Several predicates are written as a `match` on a condition: the verifier then treats them as one fact instead of taking them apart at every use.

## Findings

- Compaction can make a deleted key readable again. `SetupOtherInputs` extends the inputs of the level to whole user keys, but not those of the next level (`mock_project/Pods/leveldb-library/db/version_set.cc:1407-1411`). `Resurrection.DeletedKeyReturns` gives a well-formed version for which this happens, `ResurrectionRun.RunToResurrection` a run that reaches it, and `CompactionReads.CompactionReadsExact` the exact condition. The compaction step of the store (`StoreBackground.BuildOutputs`) therefore admits only compactions that meet the condition `NoExposure`; the run guarantees hold for runs of such steps. A store that never takes a snapshot is safe: `SnapshotFree.SnapshotFreeRun` shows that all its runs consist of such steps.
- A crash can lose an older write and keep a newer one, even one that was synced on request. Switching to a new log closes the old one without a sync (`mock_project/Pods/leveldb-library/db/db_impl.cc:1345-1366`). `CrashOrder.SyncedOutlivesOlder` shows such a run. `CrashOrder.EveryCrashKeepsOldest` gives the exact condition on the state: it can happen if and only if an older live log has unsynced records and the newest log has any. `Guarantees.SyncMakesDurable` says what a sync reaches.
- `uv__run_timers` does not return if the loop's time is the largest 64-bit number and a repeating timer is active. The loop never has that time: it is set to the clock's nanoseconds divided by a million (`mock_project/Pods/Libuv-gRPC/src/unix/internal.h:304-308`), and `Timers.Loop.Turn` terminates for all of those. `Timers.LastTimeNeverEnds` is the limit case, `Timers.NeverEnds` shows that the condition of `Timers.Loop.RunTimers` on the time is exact.
- nanopb encodes a string that fills its buffer without a terminator, and refuses the result when decoding it. `PbTheorems.UnterminatedString` is an instance, `PbTheorems.RoundTrip` the exact condition.
- Clearing a version edit leaves its compaction pointers, so that parsing into a used edit adds to them. `EditFormat.RoundTrip` gives the exact condition; recovery parses each record into a new edit.
- nanopb's 32-bit numbers lose bits past the 32nd of their fifth byte if more bytes follow. The check for them is made only when the fifth byte is the last (`mock_project/Pods/nanopb/pb_decode.c:221-241`). `PbNumbers.LostBits` is an instance, `PbNumbers.Read32Exactly` says for all bytes what is accepted and as what. In the same way a signed field of at most 32 bits refuses a number that is too large only if its low 32 bits are; `PbNumbers.NarrowField` is exact.

## Model

| member | source | states |
|---|---|---|
| `Versions.FindFile` | mock_project/Pods/leveldb-library/db/version_set.cc:88-106 | Binary search returns the first file whose largest key is at or after the lookup key. |
| `Versions.OneFileSuffices` | mock_project/Pods/leveldb-library/db/version_set.cc:391-404 | In a sorted disjoint level the file found by the search holds every answer that level can give, also when one user key spans two files. |
| `Versions.SearchLevelZero` | mock_project/Pods/leveldb-library/db/version_set.cc:352-389 | Probing the overlapping level-0 files newest first and stopping at the first hit gives the newest visible entry of the level. |
| `Versions.LayeredReads` | mock_project/Pods/leveldb-library/db/version_set.cc:343-421 | If every entry of an upper layer is newer than the lower ones of its user key, the first layer with a visible entry decides the read. |
| `Versions.VersionGet` | mock_project/Pods/leveldb-library/db/version_set.cc:326-421 | For every well-formed version, user key and snapshot, the layered search returns exactly the newest entry with sequence at most the snapshot over all levels. |
| `MemTables.InsertAllKeepsOrder` | mock_project/Pods/leveldb-library/db/memtable.cc:75-98 | Inserting a batch keeps the memtable sorted and adds exactly the batch's entries. |
| `MemTables.Get` | mock_project/Pods/leveldb-library/db/db_impl.cc:1100-1145 | Looking in the memtable, then the immutable memtable, then the version answers as the union of the three layers does. |
| `Guarantees.Read` | mock_project/Pods/leveldb-library/db/db_impl.cc:1100-1145 | In every state that keeps the invariant the read path returns the answer of the whole history at any live snapshot. |
| `WriteReads.WriteReadsBack` | mock_project/Pods/leveldb-library/db/db_impl.cc:1185-1258 | After a batch is logged and applied, a read at the new last sequence gives the value of the last operation on the key in the batch, not found if that is a deletion, and the earlier answer if there is none. |
| `WriteReads.StoreIsMap` | mock_project/Pods/leveldb-library/db/db_impl.cc:1100-1145 | After any run whose crashes lose nothing, a store without a write in flight answers every read as the map that the logged operations make in their order. |
| `Guarantees.ReadsAreCorrect` | mock_project/Pods/leveldb-library/db/db_impl.cc:1100-1145 | After any run of writes, switches, flushes, moves, compactions, deletions, crashes and recoveries, a read at a live snapshot answers as the history does. |
| `Guarantees.SnapshotIsRepeatable` | mock_project/Pods/leveldb-library/db/snapshot.h:57-91 | A snapshot held across any steps short of a restart keeps reading the same value for every key. |
| `WriteReads.SnapshotShowsNow` | mock_project/Pods/leveldb-library/db/db_impl.cc:1165-1168 | A new snapshot reads every key as the store does when it is taken; the snapshots already held stay. |
| `WriteReads.ReleaseTakesOne` | mock_project/Pods/leveldb-library/db/snapshot.h:79-87 | Releasing a snapshot takes out that one and no other. |
| `WriteReads.SnapshotKeepsThen` | mock_project/Pods/leveldb-library/db/db_impl.cc:1100-1145 | In every run, until it is released or the store restarts, a snapshot reads what a read gave when it was taken. |
| `Guarantees.PublishedIsFixed` | mock_project/Pods/leveldb-library/db/db_impl.cc:1202-1237 | Between restarts what a published sequence number reads never changes. |
| `VersionEdits.Builder.Apply` | mock_project/Pods/leveldb-library/db/version_set.cc:650-692 | Applying an edit to the builder records its deletions and additions exactly. |
| `VersionEdits.Builder.SaveTo` | mock_project/Pods/leveldb-library/db/version_set.cc:695-754 | The saved version holds, level by level and in order, the base files that were not deleted and the added ones. |
| `VersionEdits.MergeLevel` | mock_project/Pods/leveldb-library/db/version_set.cc:695-739 | Merging the base files and the added files of a level gives the sorted list of both without the deleted ones. |
| `VersionEdits.RecoverVersion` | mock_project/Pods/leveldb-library/db/version_set.cc:886-1011 | Replaying a manifest in one batch gives the version that applying its edits one after the other gives, if no level and file number pair is added twice. |
| `VersionEdits.ApplyToCurrent` | mock_project/Pods/leveldb-library/db/version_set.cc:801-822 | The new version is the current one with the edit's deletions and additions. |
| `Disk.ManifestAppends` | mock_project/Pods/leveldb-library/db/version_set.cc:801-884 | Appending a complete edit that adds only new level and number pairs keeps the manifest replayable to the new version. |
| `Flushes.SomeFileOverlapsRange` | mock_project/Pods/leveldb-library/db/version_set.cc:122-158 | The test for overlap, linear in level 0 and by binary search below, holds exactly if some file's user-key range meets the range. |
| `Flushes.PickLevelForMemTableOutput` | mock_project/Pods/leveldb-library/db/version_set.cc:491-516 | The level picked for a flushed memtable is the deepest one, up to the limit, that the table reaches without meeting an overlapping file on its way down or too many bytes of overlap in the level after next. |
| `Flushes.FlushKeepsVersion` | mock_project/Pods/leveldb-library/db/db_impl.cc:491-533 | Adding the flushed table at any such level keeps the version well formed, newest entries in the smallest levels. |
| `Flushes.TrivialMoveKeepsVersion` | mock_project/Pods/leveldb-library/db/db_impl.cc:718-733 | Moving a single input file down keeps the version well formed and its contents the same. |
| `Selection.GetOverlappingInputs` | mock_project/Pods/leveldb-library/db/version_set.cc:519-559 | Terminates; in level 0 it returns exactly the files of the least user-key range that contains the request and is closed under overlap, below exactly the overlapping files. |
| `Selection.AddBoundaryInputs` | mock_project/Pods/leveldb-library/db/version_set.cc:1344-1401 | The inputs are extended until no file of the level continues the user key at their upper end. |
| `Selection.BoundaryClosed` | mock_project/Pods/leveldb-library/db/version_set.cc:1372-1401 | After that no unselected file of the level holds an older entry of a selected user key. |
| `Selection.SetupOtherInputs` | mock_project/Pods/leveldb-library/db/version_set.cc:1403-1462 | The selection is closed: nothing older of a selected user key is left in the level, and every overlapping file of the next level is selected. |
| `Selection.PickCompaction` | mock_project/Pods/leveldb-library/db/version_set.cc:1270-1322 | The picked inputs are closed in the same sense. |
| `Selection.CompactRange` | mock_project/Pods/leveldb-library/db/version_set.cc:1464-1495 | A manual compaction's inputs are closed in the same sense, also after the range was cut short. |
| `Compaction.CompactionState.IsBaseLevelForKey` | mock_project/Pods/leveldb-library/db/version_set.cc:1533-1552 | For keys asked in order, the cursor test holds exactly if no file of a deeper level has the user key in its range. |
| `Compaction.CompactionState.DoCompactionWork` | mock_project/Pods/leveldb-library/db/db_impl.cc:878-1012 | The loop over the merged inputs keeps exactly the entries that the drop rules keep, in order, cut into non-empty outputs. |
| `Compaction.DropRulesExact` | mock_project/Pods/leveldb-library/db/db_impl.cc:938-962 | Dropping shadowed entries and obsolete tombstones preserves all reads at or above the smallest snapshot if and only if no dropped tombstone exposes an older entry left outside the inputs. |
| `Compaction.KeptAreNeeded` | mock_project/Pods/leveldb-library/db/db_impl.cc:938-962 | The rules keep no more than they must: an entry kept at or below the oldest snapshot is what a read there gives, without it the read finds nothing, and it is a tombstone only where deeper levels may hold the key; newer entries are all kept. |
| `Compaction.Compact` | mock_project/Pods/leveldb-library/db/db_impl.cc:878-1048 | The output tables are sorted, disjoint, non-empty and hold exactly the kept entries. |
| `CompactionReads.CompactionReadsExact` | mock_project/Pods/leveldb-library/db/db_impl.cc:860-1048 | Installing a compaction with closed inputs preserves every read at or above the smallest snapshot if and only if no dropped tombstone exposes an older entry. |
| `CompactionReads.CutCompactionPreservesReads` | mock_project/Pods/leveldb-library/db/version_set.cc:1407-1411 | It does so in particular if no user key of the inputs continues in an unselected file of the next level. |
| `Installs.CompactionKeepsVersion` | mock_project/Pods/leveldb-library/db/db_impl.cc:860-876 | Installing the outputs of a closed compaction keeps the version well formed. |
| `Resurrection.DeletedKeyReturns` | mock_project/Pods/leveldb-library/db/version_set.cc:1407-1411 | A well-formed version and a closed selection, with a user key split over two files of the next level, for which the compaction makes a deleted key readable again. |
| `ResurrectionRun.RunToResurrection` | mock_project/Pods/leveldb-library/db/version_set.cc:1407-1411 | A run from a new database, with one snapshot taken and released and an output cut behind an entry as large as a table, reaches a state in which one more compaction by the code's rules makes a deleted key readable again. |
| `SnapshotFree.AnyBuildIsGuarded` | mock_project/Pods/leveldb-library/db/db_impl.cc:889-893 | If no snapshot is held and no user key is split over files of a level, every compaction the code may choose meets the exact read condition, and its outputs split no user key either. |
| `SnapshotFree.SnapshotFreeRun` | mock_project/Pods/leveldb-library/db/version_set.cc:1403-1464 | Every run of the code's own steps that takes no snapshot is a run of guarded steps, so that all guarantees over runs hold for it without the guard. |
| `SnapshotFree.SnapshotFreeReads` | mock_project/Pods/leveldb-library/db/db_impl.cc:1100-1145 | In every state of a run that takes no snapshot, with compactions chosen freely by the code's rules, reads answer as the whole history does. |
| `StoreWork.CompactMemTable` | mock_project/Pods/leveldb-library/db/db_impl.cc:535-566 | Writing the table, choosing its level, committing and installing are steps of the store, whatever its state; the immutable memtable is gone afterwards. |
| `StoreWork.MergeRuns` | mock_project/Pods/leveldb-library/table/merger.cc:50-112 | Merging sorted runs gives one sorted run of exactly their entries. |
| `StoreWork.MergeInputs` | mock_project/Pods/leveldb-library/db/version_set.cc:1237-1276 | The input iterator of a compaction yields the entries of all its inputs in order. |
| `StoreWork.ChooseAndCompact` | mock_project/Pods/leveldb-library/db/db_impl.cc:878-1048 | Choosing inputs around any file, merging them and writing what the drop rules keep gives a closed compaction with well-formed outputs, for any output cuts. |
| `StoreWork.MoveFile` | mock_project/Pods/leveldb-library/db/db_impl.cc:718-733 | A move is a step of the store and keeps its invariant. |
| `StoreWork.CompactLevel` | mock_project/Pods/leveldb-library/db/db_impl.cc:688-767 | A whole compaction, from the choice of a file to the installed version, preserves reads if and only if it exposes nothing; it is then three steps of the store, and that is so whenever the next level splits no user key over two files. |
| `StoreScan.Concatenate` | mock_project/Pods/leveldb-library/db/version_set.cc:223-228 | The files of a level one after the other are one sorted run of the level's entries. |
| `StoreScan.AddIterators` | mock_project/Pods/leveldb-library/db/version_set.cc:230-249 | The runs of a version hold exactly its entries, and no two hold the same key. |
| `StoreScan.Scan` | mock_project/Pods/leveldb-library/db/db_impl.cc:1062-1087 | Any sequence of seeks and steps over the running store at a live snapshot goes where a cursor over the map of the whole history goes, and shows the history's values. |
| `StoreRuns.StepKeepsInv` | mock_project/Pods/leveldb-library/db/db_impl.cc:223-1370 | Every step of the store keeps the invariant on disk, logs, memtables, version, job and history. |
| `StoreRuns.RunKeepsInv` | mock_project/Pods/leveldb-library/db/db_impl.cc:223-1370 | Every state of every run keeps it. |
| `StoreSteps.LogWriteKeepsInv` | mock_project/Pods/leveldb-library/db/db_impl.cc:1205-1215 | Logging a batch keeps the invariant. |
| `StoreSteps.ApplyWriteKeepsInv` | mock_project/Pods/leveldb-library/db/db_impl.cc:1223-1236 | Inserting the logged batch and publishing its sequence numbers keeps the invariant. |
| `StoreSteps.SwitchMemKeepsInv` | mock_project/Pods/leveldb-library/db/db_impl.cc:1345-1366 | Switching to a new memtable and log keeps the invariant. |
| `StoreBackground.CommitFlushKeepsInv` | mock_project/Pods/leveldb-library/db/db_impl.cc:535-566 | Committing a flush and giving up the older logs keeps the invariant. |
| `StoreBackground.CommitCompactionKeepsInv` | mock_project/Pods/leveldb-library/db/db_impl.cc:860-876 | Committing a compaction that exposes nothing keeps the invariant. |
| `StoreBackground.CommitMoveKeepsInv` | mock_project/Pods/leveldb-library/db/db_impl.cc:718-733 | Committing a trivial move keeps the invariant. |
| `StoreBackground.InstallKeepsInv` | mock_project/Pods/leveldb-library/db/version_set.cc:866-884 | Installing a committed version in memory keeps the invariant. |
| `StoreBackground.DeleteTableKeepsInv` | mock_project/Pods/leveldb-library/db/db_impl.cc:223-278 | Deleting a table that no version, reader or job uses keeps the invariant. |
| `StoreBackground.DeleteLogKeepsInv` | mock_project/Pods/leveldb-library/db/db_impl.cc:240-248 | Deleting a log below the current log number keeps the invariant. |
| `StoreRecovery.CrashKeepsInv` | mock_project/Pods/leveldb-library/db/db_impl.cc:280-369 | A crash that tears unsynced records off the live logs keeps the invariant of the disk. |
| `StoreRecovery.RecoverLogFile` | mock_project/Pods/leveldb-library/db/db_impl.cc:371-489 | Replaying a log gives level-0 tables, oldest first, that hold exactly its entries, and the largest sequence number. |
| `StoreRecovery.RecoverLogs` | mock_project/Pods/leveldb-library/db/db_impl.cc:326-369 | Replaying all live logs in order gives tables that hold exactly the live entries, and a last sequence at least that of each. |
| `StoreRecovery.OpenKeepsInv` | mock_project/Pods/leveldb-library/db/db_impl.cc:1474-1505 | Opening with the recovered tables, a new manifest and a new log keeps the invariant. |
| `Guarantees.CrashSafe` | mock_project/Pods/leveldb-library/db/db_impl.cc:280-369 | At every moment of every run the disk alone answers as the history does: the manifest replays to a version whose tables are all there, and that version with the live logs reads as the history. |
| `Guarantees.RecoverFromDisk` | mock_project/Pods/leveldb-library/db/db_impl.cc:280-369 | Recovery from any such disk succeeds with a version, tables, file numbers and a last sequence that an open may use. |
| `Guarantees.Reopen` | mock_project/Pods/leveldb-library/db/db_impl.cc:1474-1516 | Opening a crashed store always succeeds; the history is unchanged, the last sequence is at least every recovered one, and reads are the history's. |
| `Guarantees.HistoryChanges` | mock_project/Pods/leveldb-library/db/db_impl.cc:1204-1237 | Only a logged batch adds to the history, under sequence numbers never published before; only a crash takes from it, and only what was not synced. |
| `Guarantees.DurableForever` | mock_project/Pods/leveldb-library/db/db_impl.cc:1215-1222 | Once durable, an entry stays in the history through every later step, crash and recovery of the run. |
| `Guarantees.SyncMakesDurable` | mock_project/Pods/leveldb-library/db/db_impl.cc:1215-1222 | A sync makes the newest log durable; it makes the whole history durable if and only if no older live log was closed with unsynced records. |
| `Guarantees.HistoryWasLogged` | mock_project/Pods/leveldb-library/db/db_impl.cc:1205-1215 | Every entry of the history was logged by an earlier step of the run. |
| `CrashOrder.EveryCrashKeepsOldest` | mock_project/Pods/leveldb-library/db/db_impl.cc:1345-1366 | A condition on the state before: every crash keeps the oldest part of the history if and only if no older live log has unsynced records or the newest log is empty. |
| `CrashOrder.CrashKeepsOldest` | mock_project/Pods/leveldb-library/db/db_impl.cc:1345-1366 | For one crash: what survives is the oldest part of the history if and only if no live log lost a record while a newer one kept something. |
| `CrashOrder.SyncedOutlivesOlder` | mock_project/Pods/leveldb-library/db/db_impl.cc:1345-1366 | From any idle state, a write, a memtable switch and a later synced write lead to a crash that loses the first write and keeps the second. |
| `Bytewise.RankOrders` | mock_project/Pods/leveldb-library/util/comparator.cc:25-27 | Byte strings embed in the reals in the order of the default comparator, so that user keys may be taken as points. |
| `Bytewise.Compare` | mock_project/Pods/leveldb-library/util/comparator.cc:25-27 | The comparison is negative, zero or positive as the first string is less than, equal to or greater than the second. |
| `LogFormat.UnmaskMask` | mock_project/Pods/leveldb-library/util/crc32c.h:22-39 | Unmasking undoes masking for every 32-bit checksum. |
| `LogFormat.Writer.AddRecord` | mock_project/Pods/leveldb-library/db/log_writer.cc:34-80 | Appends exactly the framed fragments of the record at the current block offset. |
| `LogReader.Reader.ReadPhysicalRecord` | mock_project/Pods/leveldb-library/db/log_reader.cc:189-271 | Block by block reading returns what a scan of the whole file from the same position returns. |
| `LogReader.ReadRecord` | mock_project/Pods/leveldb-library/db/log_reader.cc:56-174 | Returns the next record of the scan, joined from its fragments. |
| `LogDamage.PhysicalExactly` | mock_project/Pods/leveldb-library/db/log_reader.cc:189-271 | At every position of every file: a fragment is returned exactly if its header and payload fit in the block, its length is in its two length bytes, and its four checksum bytes, unmasked, are the checksum of type and payload; otherwise the rest of the block is dropped, or it is the end of the file. |
| `LogDamage.ReturnedIsThere` | mock_project/Pods/leveldb-library/db/log_reader.cc:56-174 | Whatever a file holds, a returned record is the payload of one whole physical record, or of a first, middle ones and a last right behind each other, all matching their checksums. |
| `LogDamage.Resume` | mock_project/Pods/leveldb-library/db/log_reader.cc:56-174 | Reading a log from the start of any block returns exactly the records that start there or later. |
| `LogDamage.DamageIsContained` | mock_project/Pods/leveldb-library/db/log_reader.cc:243-256 | A fragment whose checksum fails costs the records that touch it or start behind it in its block, and is reported; all records before it and all that start in later blocks are returned. |
| `LogDamage.ReadDamaged` | mock_project/Pods/leveldb-library/db/log_reader.cc:56-174 | The reading loop returns these records from such a file and reports a drop. |
| `LogRoundTrip.ReaderInvertsWriter` | mock_project/Pods/leveldb-library/db/log_reader.cc:56-174 | Wherever a record was written, reading at its start returns it and stops behind it. |
| `LogRoundTrip.RoundTrip` | mock_project/Pods/leveldb-library/db/log_writer.cc:34-108 | For every list of records the reader returns exactly that list and reports no corruption. |
| `LogRoundTrip.TornTail` | mock_project/Pods/leveldb-library/db/log_reader.cc:189-271 | For every byte prefix of the file the reader returns exactly the records wholly contained in it and reports no corruption. |
| `LogRoundTrip.WriteTearRead` | mock_project/Pods/leveldb-library/db/log_reader.cc:56-174 | Writing records with the writer, cutting the file anywhere and reading it with the reader returns exactly the records before the cut. |
| `GroupCommit.BuildBatchGroup` | mock_project/Pods/leveldb-library/db/db_impl.cc:1258-1306 | The group is the longest run of the queue that may join the leader within 1 MiB, or within the leader's size and 128 KiB if the leader has at most 128 KiB; its batch is the members' operations in order. |
| `GroupCommitOrder.RunKeepsInv` | mock_project/Pods/leveldb-library/db/db_impl.cc:1185-1256 | Every state of every interleaving of writers keeps the queue invariant. |
| `GroupCommitOrder.OneLeader` | mock_project/Pods/leveldb-library/db/db_impl.cc:1185-1237 | At most one writer makes room, logs or applies at any time, and it is at the front of the queue. |
| `GroupCommitOrder.RangesInArrivalOrder` | mock_project/Pods/leveldb-library/db/db_impl.cc:1202-1237 | Batches get disjoint ranges of sequence numbers in order of arrival, each as long as the batch, and log records follow in the same order. |
| `GroupCommitRecords.RecordMatchesGrants` | mock_project/Pods/leveldb-library/db/db_impl.cc:1205-1215 | In every run, every record of the log holds each batch's operations at exactly the numbers granted to it and nothing else. |
| `GroupCommitOrder.ReturnsOnce` | mock_project/Pods/leveldb-library/db/db_impl.cc:1239-1256 | Every call returns at most once, with the status of the one group it was in. |
| `GroupCommitOrder.SyncIsHonoured` | mock_project/Pods/leveldb-library/db/db_impl.cc:1282-1285 | A write that asked for a sync is committed only by a leader that syncs. |
| `GroupCommitOrder.StuckMeansReturned` | mock_project/Pods/leveldb-library/db/db_impl.cc:1193-1198 | No wake-up of a queued writer is lost: when the writers can do nothing more, every call has returned. |
| `WriteStalls.JointRunKeepsInv` | mock_project/Pods/leveldb-library/db/db_impl.cc:648-688 | In every interleaving of writers, a leader making room and the background thread, work that is wanted is scheduled, and the leader is inside the loop exactly while it makes room. |
| `WriteStalls.WaitersAreServed` | mock_project/Pods/leveldb-library/db/db_impl.cc:1310-1370 | A leader waits for background work only while that work is scheduled or has signalled it, and it is at the front of the queue. |
| `WriteStalls.StuckMeansReturned` | mock_project/Pods/leveldb-library/db/db_impl.cc:1310-1370 | With waiting for room as a blocking step: when neither the writers nor the background thread can do anything more, every call has returned. |
| `SkipList.FindGreaterOrEqual` | mock_project/Pods/leveldb-library/db/skiplist.h:260-281 | Returns the first key at or after the target and the last node before it at every level. |
| `SkipList.Lists.Insert` | mock_project/Pods/leveldb-library/db/skiplist.h:336-368 | Linking level by level from the bottom ends in a list that holds the new key and the old ones. |
| `SkipList.RunKeepsInv` | mock_project/Pods/leveldb-library/db/skiplist.h:336-368 | At every load and store of every interleaving each level is a sorted sublist of the one below. |
| `SkipList.SearchIsExact` | mock_project/Pods/leveldb-library/db/skiplist.h:260-281 | A search that interleaves with inserts finds no key past one that was present when it began, and any key it finds was inserted. |
| `SkipList.Lists.Contains` | mock_project/Pods/leveldb-library/db/skiplist.h:370-378 | True exactly if the key is in the list. |
| `SkipMemTable.LookupIsAtomic` | mock_project/Pods/leveldb-library/db/memtable.cc:100-134 | A lock-free lookup overtaken by inserts newer than its snapshot answers as the memtable at any moment since it started. |
| `SkipMemTable.MemTable.Add` | mock_project/Pods/leveldb-library/db/memtable.cc:75-98 | Linking the entry into the skip list is insertion into the sorted list. |
| `SkipMemTable.MemTable.Get` | mock_project/Pods/leveldb-library/db/memtable.cc:100-134 | Seeking the skip list answers the read of the entries. |
| `SkipMemTable.MemTable.All` | mock_project/Pods/leveldb-library/db/memtable.cc:42-73 | Walking level 0 yields the sorted list that a flush writes. |
| `SkipMemTable.InsertBatch` | mock_project/Pods/leveldb-library/db/write_batch.cc:116-137 | Inserting a batch, at any heights, gives the list that the store's write step specifies. |
| `Merging.MergingIterator.Next` | mock_project/Pods/leveldb-library/table/merger.cc:55-79 | From either direction, moves to the next entry of the merged sequence. |
| `Merging.MergingIterator.Prev` | mock_project/Pods/leveldb-library/table/merger.cc:81-108 | From either direction, moves to the previous entry of the merged sequence. |
| `Merging.MergingIterator.Seek` | mock_project/Pods/leveldb-library/table/merger.cc:47-53 | Moves to the first entry of the merged sequence at or after the target. |
| `UserIterator.DBIter.FindNextUserEntry` | mock_project/Pods/leveldb-library/db/db_iter.cc:168-198 | Stops at the next user key that is visible and not deleted at the snapshot. |
| `UserIterator.DBIter.FindPrevUserEntry` | mock_project/Pods/leveldb-library/db/db_iter.cc:227-267 | Stops behind the entries of the previous user key that is visible and not deleted, with its newest value saved. |
| `UserIterator.DBIter.Next` | mock_project/Pods/leveldb-library/db/db_iter.cc:141-166 | Moves a cursor over the snapshot's map to the next key, from either direction. |
| `UserIterator.DBIter.Prev` | mock_project/Pods/leveldb-library/db/db_iter.cc:200-225 | Moves a cursor over the snapshot's map to the previous key, from either direction. |
| `UserIterator.MovesAreDetermined` | mock_project/Pods/leveldb-library/db/db_iter.cc:141-299 | The place a move leads to is determined by the map and the place before. |
| `UserIterator.Walk` | mock_project/Pods/leveldb-library/db/db_iter.cc:141-299 | For every sequence of seeks and steps in any direction the iterator is where a cursor over the sorted snapshot map would be, with the same key and value. |
| `Bloom.CreateFilter` | mock_project/Pods/leveldb-library/util/bloom.cc:28-54 | Builds the filter whose bits are those of all probes of all keys. |
| `Bloom.KeyMayMatch` | mock_project/Pods/leveldb-library/util/bloom.cc:56-80 | Asks whether all probes of the key hit set bits; filters shorter than two bytes never match, those with a reserved probe count always do. |
| `Bloom.NoFalseNegatives` | mock_project/Pods/leveldb-library/util/bloom.cc:28-80 | For any hash function and number of bits per key, every key matches a filter built from keys among which it is. |
| `FilterBlocks.FilterBlockBuilder.Finish` | mock_project/Pods/leveldb-library/table/filter_block.cc:35-49 | The block is the filters of all groups followed by their offsets and the base. |
| `FilterBlocks.ReaderAsksGroup` | mock_project/Pods/leveldb-library/table/filter_block.cc:77-104 | Asking at a block offset asks the filter of that offset's group. |
| `FilterBlocks.BuildFilter` | mock_project/Pods/leveldb-library/table/filter_block.cc:21-104 | For every run of the builder with non-decreasing offsets, every key matches at the offset it was added under, for any sound policy. |
| `FilterBlocks.BuildBloomFilter` | mock_project/Pods/leveldb-library/util/bloom.cc:28-80 | The same with the built-in Bloom policy. |
| `Separators.FindShortestSeparator` | mock_project/Pods/leveldb-library/util/comparator.cc:29-50 | The result separates the start from the limit. If there is room behind the first difference it is the start cut there and counted up, and no shorter string lies between the two; otherwise it is the start. |
| `Separators.FindShortSuccessor` | mock_project/Pods/leveldb-library/util/comparator.cc:52-64 | The result is at or after the key: the key cut behind its first byte below 255, which is counted up; a key of 255s stays as it is. |
| `Separators.SeparatorsSplit` | mock_project/Pods/leveldb-library/db/dbformat.cc:69-101 | Separators of internal keys split the entries before from those behind. |
| `Tables.TableBuilder.Add` | mock_project/Pods/leveldb-library/table/table_builder.cc:94-123 | Adding a larger key keeps the layout: entries in blocks, the index behind, the filter filed. |
| `Tables.TableBuilder.Finish` | mock_project/Pods/leveldb-library/table/table_builder.cc:198-253 | The finished table holds the added entries in order under a complete index and filter. |
| `Tables.BuildTable` | mock_project/Pods/leveldb-library/table/table_builder.cc:94-253 | For every strictly increasing entry list, any block boundaries and any sound filter, a well-formed table of exactly those entries. |
| `Tables.InternalGet` | mock_project/Pods/leveldb-library/table/table.cc:216-244 | On a well-formed table, with the filter on or off, reports an entry of the user key if and only if one with sequence at most the snapshot exists, and then the newest. |
| `TableReads.BuildFile` | mock_project/Pods/leveldb-library/db/builder.cc:17-79 | The table built for a file holds the file's entries. |
| `TableReads.FileGet` | mock_project/Pods/leveldb-library/db/table_cache.cc:99-113 | Looking in a file's table, filter on or off, gives what a seek over the file's entries gives. |
| `TableReads.TablesGet` | mock_project/Pods/leveldb-library/db/version_set.cc:326-421 | Searching a version through its tables gives the newest visible entry over all levels. |
| `TableReads.ReadThroughTables` | mock_project/Pods/leveldb-library/db/db_impl.cc:1100-1145 | In every state that keeps the invariant, reading through memtables, index blocks, filters and data blocks answers as the whole history at any live snapshot. |
| `Varints.GetEncoded` | mock_project/Pods/leveldb-library/util/coding.cc:47-169 | Every number reads back from its varint encoding within the byte limit of its width. |
| `VarintBytes.VarintExactly` | mock_project/Pods/leveldb-library/util/coding.cc:112-157 | From any bytes: a varint is read exactly if its first byte below 128 comes within the byte limit, and its value is the sum of the groups of seven bits, least significant first. |
| `VarintBytes.EncodedExactly` | mock_project/Pods/leveldb-library/util/coding.cc:21-75 | The bytes written for a number are the only ones that say it and have no zero byte at their end. |
| `Blocks.DecodeWritten` | mock_project/Pods/leveldb-library/table/block.cc:54-74 | A written entry decodes to its lengths, key suffix and value, by the fast path or the slow one. |
| `Blocks.BlockBuilder.Add` | mock_project/Pods/leveldb-library/table/block_builder.cc:72-106 | Appends an entry that shares the longest common prefix with the last key, or, once the interval is full, one that shares nothing and is a restart point. |
| `Blocks.BlockBuilder.Finish` | mock_project/Pods/leveldb-library/table/block_builder.cc:62-70 | The finished block lays out the entries and the restart array. |
| `BlockIter.Iter.ParseNextKey` | mock_project/Pods/leveldb-library/table/block.cc:224-251 | Moves to the next entry and rebuilds its whole key. |
| `BlockIter.Iter.Seek` | mock_project/Pods/leveldb-library/table/block.cc:163-201 | Lands on the first entry at or after the target, for every restart interval. |
| `BlockIter.Iter.Prev` | mock_project/Pods/leveldb-library/table/block.cc:142-161 | Lands on the entry just before the current one. |
| `BlockIter.BuildAndSeek` | mock_project/Pods/leveldb-library/table/block_builder.cc:62-106 | A block built from entries in order parses back to them, and seeking finds the first key at or after the target. |
| `ItemStreams.SliceReads` | mock_project/Pods/leveldb-library/util/coding.cc:98-191 | A length-prefixed string reads back wherever it stands. |
| `ItemStreams.AllRead` | mock_project/Pods/leveldb-library/db/write_batch.cc:42-80 | A stream of items, each of which reads back wherever it stands, reads back as the list of them. |
| `WriteBatches.BatchReads` | mock_project/Pods/leveldb-library/db/write_batch.cc:42-109 | Every batch reads back from its bytes: sequence number, count, operations. |
| `BatchBytes.BatchExactly` | mock_project/Pods/leveldb-library/db/write_batch.cc:42-80 | Any bytes are accepted as a batch exactly if they are a header and items, each a tag of 1 with two strings or a tag of 0 with one, back to back up to the end and as many as the header counts; and as that batch. |
| `WriteBatches.Iterate` | mock_project/Pods/leveldb-library/db/write_batch.cc:42-80 | The loop over the operations computes the specified parse, for malformed batches too. |
| `WriteBatches.WriteBatch.SetSequence` | mock_project/Pods/leveldb-library/db/write_batch.cc:94-96 | Overwrites the sequence number and nothing else. |
| `WriteBatches.WriteBatch.Add` | mock_project/Pods/leveldb-library/db/write_batch.cc:98-109 | Appends one operation and counts it. |
| `WriteBatches.WriteBatch.Append` | mock_project/Pods/leveldb-library/db/write_batch.cc:144-148 | Appends the operations of another batch, which may be the same one, and adds the counts. |
| `WriteBatches.WriteTearReplay` | mock_project/Pods/leveldb-library/db/db_impl.cc:418-456 | Batches written to a log that is then cut at any byte: replaying it gives exactly the batches whose records lie wholly before the cut. |
| `EditFormat.ItemsMakeEdit` | mock_project/Pods/leveldb-library/db/version_edit.cc:121-193 | Collecting the items of an edit, its deleted files in any order, gives the edit. |
| `EditFormat.EditReads` | mock_project/Pods/leveldb-library/db/version_edit.cc:41-205 | Parsing the bytes of an edit gives the edit, behind the compaction pointers of the edit parsed into, which clearing leaves. |
| `EditFormat.RoundTrip` | mock_project/Pods/leveldb-library/db/version_edit.cc:26-39 | Parsing gives exactly the encoded edit if and only if the edit parsed into has no compaction pointers. |
| `EditFormat.DecodeFrom` | mock_project/Pods/leveldb-library/db/version_edit.cc:107-205 | The parse loop computes the specified parse, for malformed edits too. |
| `EditFormat.WriteTearManifest` | mock_project/Pods/leveldb-library/db/version_set.cc:932-965 | Edits written to a manifest that is then cut at any byte: replaying it gives the edits whose records lie wholly before the cut. |
| `ManifestBytes.KeyReads` | mock_project/Pods/leveldb-library/db/dbformat.cc:20-23 | An internal key reads back from its bytes. |
| `ManifestBytes.WriteTearRecover` | mock_project/Pods/leveldb-library/db/version_set.cc:886-1011 | Recovery from a manifest cut at any byte gives the version that the edits before the cut made. |
| `HandleTables.HandleTable.Insert` | mock_project/Pods/leveldb-library/util/cache.cc:78-92 | Puts the handle under its key and returns the one it replaces, through any resize. |
| `HandleTables.HandleTable.Remove` | mock_project/Pods/leveldb-library/util/cache.cc:94-102 | Takes the handle of a key out and returns it. |
| `HandleTables.Rehash` | mock_project/Pods/leveldb-library/util/cache.cc:122-147 | Moving every handle to the front of its new chain keeps the map. |
| `LruCache.StepIsApply` | mock_project/Pods/leveldb-library/util/cache.cc:217-333 | From a state that keeps the invariant, the code's own step, guarded only by what it dereferences, is possible exactly for the operations clients may ask for and has the specified outcome. |
| `LruCache.RunKeepsInv` | mock_project/Pods/leveldb-library/util/cache.cc:217-333 | Every state of every run of the code's steps keeps the invariant, and after an insertion the usage is within the capacity or no idle entry is left. |
| `LruCache.RunGoesOn` | mock_project/Pods/leveldb-library/util/cache.cc:217-333 | No run gets stuck: every operation that clients may ask for extends it. |
| `LruCache.Drive` | mock_project/Pods/leveldb-library/util/cache.cc:178-333 | A new cache object under any list of allowed operations makes a run. |
| `LruCache.CacheIsExact` | mock_project/Pods/leveldb-library/util/cache.cc:178-194 | The table holds exactly the entries of the two lists, which are disjoint; idle entries have one reference; the usage is the sum of the charges. |
| `LruCache.DeletedOnce` | mock_project/Pods/leveldb-library/util/cache.cc:225-237 | An entry's deleter runs at most once, and it has run if and only if neither a client nor the cache holds the entry. |
| `LruCache.InsertIsFound` | mock_project/Pods/leveldb-library/util/cache.cc:266-303 | A new handle survives its own insertion, and with caching on a lookup then finds it. |
| `LruCache.EvictKeeps` | mock_project/Pods/leveldb-library/util/cache.cc:293-300 | Eviction takes idle entries in the order in which they became idle. |
| `LruOrder.ListOrderExact` | mock_project/Pods/leveldb-library/util/cache.cc:225-237 | Over every run: of two idle entries the one that clients let go of first, by the index of the operation, is ahead in the list, and only that one. |
| `LruOrder.OldestAreEvicted` | mock_project/Pods/leveldb-library/util/cache.cc:293-300 | Over every run: every idle entry that an insertion evicts was let go of before every idle entry that stays. |
| `LruOrder.EvictedOnlyIfNeeded` | mock_project/Pods/leveldb-library/util/cache.cc:293-300 | Over every run: if an insertion evicts an idle entry, then with the last one evicted the usage would exceed the capacity. |
| `LruCache.LRUCache.Insert` | mock_project/Pods/leveldb-library/util/cache.cc:266-303 | The imperative insertion does what its specification says, replacement and eviction included. |
| `LruCache.LRUCache.Release` | mock_project/Pods/leveldb-library/util/cache.cc:261-264 | Giving back a handle drops one reference; the last one runs the deleter. |
| `LruCache.LRUCache.Lookup` | mock_project/Pods/leveldb-library/util/cache.cc:252-259 | A hit takes a reference and moves an idle entry to the in-use list. |
| `LruCache.LRUCache.Prune` | mock_project/Pods/leveldb-library/util/cache.cc:323-333 | Drops every entry that no client holds. |
| `ThreadPoolSafety.RunKeepsInv` | mock_project/Pods/Libuv-gRPC/src/threadpool.c:57-160 | Every state of every interleaving of submitters, workers, cancels and loops keeps the invariant. |
| `ThreadPoolOrder.FirstComeFirstServed` | mock_project/Pods/Libuv-gRPC/src/threadpool.c:57-160 | Over every interleaving: of two CPU requests, or of two slow ones, the one submitted later does not run before the other unless the other was cancelled. |
| `ThreadPoolSafety.CallbacksAreExact` | mock_project/Pods/Libuv-gRPC/src/threadpool.c:269-315 | Each request gets its callback at most once, and is never both run and cancelled. |
| `ThreadPoolSafety.SlowWorkIsThrottled` | mock_project/Pods/Libuv-gRPC/src/threadpool.c:45-47 | Pending slow work implies a queued marker, and running slow work never exceeds half the threads, rounded up. |
| `ThreadPoolSafety.SomeoneIsAwake` | mock_project/Pods/Libuv-gRPC/src/threadpool.c:57-160 | No reachable state has work that a worker may take while every worker waits unsignalled. |
| `ThreadPoolSafety.StuckMeansDone` | mock_project/Pods/Libuv-gRPC/src/threadpool.c:57-160 | When the pool can do nothing more, every request has had its callback. |
| `LinkedHeaps.LinkedHeap.NodeSwap` | mock_project/Pods/Libuv-gRPC/src/heap-inl.h:72-104 | The link stores of a swap exchange the positions of a node and its child and leave all other links consistent. |
| `LinkedHeaps.LinkedHeap.FindSlot` | mock_project/Pods/Libuv-gRPC/src/heap-inl.h:119-137 | Following the bits of a number leads to the place of that position in the complete tree. |
| `LinkedHeaps.LinkedHeap.Insert` | mock_project/Pods/Libuv-gRPC/src/heap-inl.h:106-148 | Keeps a complete binary min-heap with consistent links and adds exactly the node. |
| `LinkedHeaps.LinkedHeap.Remove` | mock_project/Pods/Libuv-gRPC/src/heap-inl.h:150-237 | Removing any node keeps a complete binary min-heap with consistent links and takes out exactly that node. |
| `LinkedHeaps.RootIsLeast` | mock_project/Pods/Libuv-gRPC/src/heap-inl.h:33-43 | No node is less than the root. |
| `Timers.Loop.Start` | mock_project/Pods/Libuv-gRPC/src/timer.c:66-94 | Starts or restarts a timer with a clamped due time and a fresh start number; refuses closing handles and missing callbacks. |
| `Timers.StartIsDue` | mock_project/Pods/Libuv-gRPC/src/timer.c:66-94 | A timer just started is due at a later time exactly if its timeout has passed by then or it is the last time there is. |
| `Timers.Loop.Stop` | mock_project/Pods/Libuv-gRPC/src/timer.c:97-107 | Takes the timer out of the heap; stopping an inactive timer changes nothing. |
| `Timers.Loop.Again` | mock_project/Pods/Libuv-gRPC/src/timer.c:110-120 | Restarts a repeating timer with its repeat as the timeout. |
| `Timers.Loop.NextTimeout` | mock_project/Pods/Libuv-gRPC/src/timer.c:133-151 | The time to the first timer, capped, zero if one is due, minus one if there is none. |
| `Timers.Loop.RunTimers` | mock_project/Pods/Libuv-gRPC/src/timer.c:154-171 | Terminates and fires, once each, by due time and then by start order, exactly the due timers that no callback of an earlier one stopped or restarted; none is due afterwards. Callbacks may stop any timer, restart it, or start it for a later time. |
| `Timers.Loop.Turn` | mock_project/Pods/Libuv-gRPC/src/unix/internal.h:304-308 | For every time the clock can give, running the timers terminates. |
| `Timers.NeverEnds` | mock_project/Pods/Libuv-gRPC/src/timer.c:154-171 | Without the condition for termination, runs of every number of firings exist and the next timer is still due. |
| `Timers.LastTimeNeverEnds` | mock_project/Pods/Libuv-gRPC/src/timer.c:154-171 | A state at the largest 64-bit time for which this is so. |
| `Timers.BusyCallback` | mock_project/Pods/Libuv-gRPC/src/timer.c:154-171 | A callback that starts its own timer with a timeout of zero leaves it due. |
| `PbWire.ScalarReads` | mock_project/Pods/nanopb/pb_decode.c:1279-1520 | Every value that is no message reads back from its encoding. |
| `PbWire.Encoded32` | mock_project/Pods/nanopb/pb_decode.c:187-240 | Every 32-bit number reads back from its varint encoding. |
| `PbNumbers.Read32Exactly` | mock_project/Pods/nanopb/pb_decode.c:187-250 | From any bytes: a 32-bit number is read exactly if the bytes end and those past the 32nd bit are acceptable, and it is the low 32 bits of what the bytes say. |
| `PbNumbers.NumberExactly` | mock_project/Pods/nanopb/pb_decode.c:1331-1426 | From any bytes: a boolean, integer or zigzag field gets a value exactly if the bytes say this value, in the bits that the field looks at, and it is in the range of the field. |
| `PbNumbers.LostBits` | mock_project/Pods/nanopb/pb_decode.c:221-241 | A number of more than 32 bits, written with a needless last byte, that is read as 0 instead of being refused. |
| `PbNumbers.NarrowField` | mock_project/Pods/nanopb/pb_decode.c:1350-1378 | A signed field of at most 32 bits gets a number written by a 64-bit field unchanged exactly if it is in range; others are refused exactly if their low 32 bits are out of range too. |
| `PbReader.ReadNumber` | mock_project/Pods/nanopb/pb_decode.c:187-240 | The byte loop reads what its specification reads, overflow and sign extension included. |
| `PbReader.FieldIter.Find` | mock_project/Pods/nanopb/pb_common.c:87-105 | The cyclic search finds the field of a tag, wherever it starts, if and only if there is one. |
| `PbReader.FieldIter.CountRequired` | mock_project/Pods/nanopb/pb_decode.c:1039-1056 | Walking to the end counts the required fields. |
| `PbReader.ReadFields` | mock_project/Pods/nanopb/pb_decode.c:934-1082 | The decoding loop over tags, substreams included, computes the specified result. |
| `PbReader.DecodeBuffer` | mock_project/Pods/nanopb/pb_decode.c:1084-1096 | Decoding a buffer computes the specified result. |
| `PbEvolution.UnknownIsSkipped` | mock_project/Pods/nanopb/pb_decode.c:321-331 | A tag that no descriptor lists, followed by a varint, eight bytes, four bytes or a length-prefixed string as its wire type says, changes nothing: decoding from it equals decoding from behind it. |
| `PbEvolution.OtherTypesAreRefused` | mock_project/Pods/nanopb/pb_decode.c:321-331 | An unlisted tag of any other wire type makes decoding fail. |
| `PbEvolution.Evolution` | mock_project/Pods/nanopb/pb_decode.c:934-1082 | If writer and reader each know any part of a schema, the reader gets what was written of its fields and defaults for the rest; it refuses the message exactly if one of its first 64 required fields was not written. |
| `PbEvolution.ShorterSchemaReads` | mock_project/Pods/nanopb/pb_decode.c:992-1010 | Decoding the encoding of a longer schema with a shorter one gives the shorter one's slots. |
| `PbEvolution.MissingRequiredIsRefused` | mock_project/Pods/nanopb/pb_decode.c:1039-1078 | A message that lacks a required field among the first 64 is refused. |
| `PbMerge.ConcatenationMerges` | mock_project/Pods/nanopb/pb_decode.c:934-1082 | Two encodings one after the other decode to their merge, with single values replaced, submessages merged and arrays joined, exactly if the joined arrays have room; otherwise they are refused. |
| `PbRoundTrip.MessageReads` | mock_project/Pods/nanopb/pb_decode.c:934-1082 | Wherever the encoding of a message stands, decoding it there gives the message. |
| `PbTheorems.RoundTrip` | mock_project/Pods/nanopb/pb_encode.c:528-550 | Of the messages that the encoder accepts, decoding gives back exactly those whose strings all end inside their buffers, and refuses the others. |
| `PbTheorems.UnterminatedString` | mock_project/Pods/nanopb/pb_encode.c:873-897 | A string that fills its buffer is encoded and then refused by the decoder. |
| `PbEncoder.NumberBytes` | mock_project/Pods/nanopb/pb_encode.c:608-628 | The byte loop writes the varint encoding. |
| `PbEncoder.PutPacked` | mock_project/Pods/nanopb/pb_encode.c:163-207 | A packed array is written as tag, size and entries, and the size counted first is the size written. |
| `PbEncoder.PutSubmessage` | mock_project/Pods/nanopb/pb_encode.c:717-765 | The sizing pass gives exactly the bytes that the writing pass writes, so that the size-changed error is never reported. |
| `PbEncoder.PutFields` | mock_project/Pods/nanopb/pb_encode.c:528-550 | Succeeds if and only if counts and sizes are within bounds and the stream has room, and then writes or counts exactly the encoding. |
| `PbEncoder.GetEncodedSize` | mock_project/Pods/nanopb/pb_encode.c:567-577 | The counted size is the length of the encoding. |
| `PbEncoder.SizeEncodeDecode` | mock_project/Pods/nanopb/pb_encode.c:567-577 | A buffer of the counted size is enough, and the message comes back from it. |

## Left out

- Flushing the immutable memtable in the middle of a running compaction: background jobs run one at a time.
- I/O errors other than a write that does not reach the log, reuse of old logs and manifests, paranoid checks, and repair.
- The store's disk holds tables as entry lists, manifests as edits and logs as batches. `WriteBatches.WriteTearReplay` shows that a log cut at any byte loses its last batches and nothing else, as a crash of the store does; `ManifestBytes.WriteTearRecover` says what a cut manifest recovers to. In the state machine, appending an edit to the manifest is one step that survives a crash whole.
- WriteBatches.WriteBatch.Add: takes batches of fewer than 2^32 operations, whose count does not wrap.
- WriteBatches.BatchReads: takes strings below 4 GiB, whose lengths are written with 32 bits.
- Compaction scoring, seek statistics and the overlap limit with grandparent files: which compaction runs, and where its outputs are cut, is arbitrary.
- Snappy compression, the metaindex block and the footer: blocks are uncompressed, and index and filter are reached directly.
- The strided checksum loop: a checksum is any function of the bytes.
- Reading a log from an initial offset other than zero, and reporting dropped bytes to a reporter object.
- C++ memory orders and reclamation: each atomic load or store of the skip list is one step, and nodes are never freed.
- WriteReads.StoreIsMap: speaks of runs whose crashes lose nothing; what a crash may lose is said by `Guarantees.DurableForever` and `CrashOrder.EveryCrashKeepsOldest`.
- LogDamage.DamageIsContained: takes damage to one physical record that its checksum shows; `LogDamage.PhysicalExactly` and `LogDamage.ReturnedIsThere` speak of all files.
- WriteBatches.Iterate: gives nothing for a malformed batch, where the code has passed the operations before the fault to its handler.
- PbEvolution.Evolution: takes encodings below 4 GiB, and submessages that both sides know alike.
- StoreBackground.CommitCompactionKeepsInv: speaks of compactions whose outputs were built under `NoExposure`, because without it reads are not preserved.
- Compaction.CompactionState.DoCompactionWork: takes a smallest snapshot below the largest sequence number, which sequence numbers in use never reach.
- FilterBlocks.BuildFilter: says nothing about blocks whose filters exceed 4 GiB, whose 32-bit offsets would wrap.
- BlockIter.BuildAndSeek: takes blocks below 4 GiB, whose 32-bit restart offsets do not wrap.
- Bloom.CreateFilter: does not model 32-bit overflow of the number of bits.
- Linked lists of the cache, of the thread pool and of snapshots are sequences; the sharding of the cache is left out.
- The resizing of the cache's hash table uses remainders where the code masks with a power of two.
- Thread-pool shutdown, forking, and environment variables for the number of threads; loops collect finished work in any order.
- Timer start numbers are unbounded; callbacks do not close handles or change repeats.
- Timers.Loop.RunTimers: takes callbacks that start timers for later times only; with others the run may not end, as `Timers.BusyCallback` shows.
- WriteStalls.StuckMeansReturned: says nothing about fairness; that background work goes on is not part of it.
- LinkedHeaps.LinkedHeap.FindSlot: the path to a position is an unbounded number, where the code uses 32 bits.
- nanopb callbacks, extensions, oneof fields, pointer fields, fixed-count arrays and implicit presence.
- PbTheorems.RoundTrip: takes encodings below 4 GiB, since the decoder reads lengths of 32 bits.
- PbReader.ReadFields: a tag with field number zero is skipped as unknown also in a message type without fields, where the code's search stops at the terminator.
- PbWire.Encoded32: the count of bits read so far is unbounded, where the code may use eight bits.
- The application's Swift code, BoringSSL tables, umbrella headers, environment and logging code, and the other libuv files.
