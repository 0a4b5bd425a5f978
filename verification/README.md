# Verified models of the vendored LevelDB and nanopb engines

This project models, in Dafny, the two engines the mobile app carries in its iOS pods: the LevelDB
storage engine (`ios/Pods/leveldb-library`) and the nanopb protobuf codec (`ios/Pods/nanopb`). Check it
with `dafny verify dfyconfig.toml`.

## What is modelled

- **The multi-level store.** Versions are levels of files, each file a sorted run of entries (user key,
  sequence number, kind, value). On top of them: point lookup, the choice of compaction inputs, the merge
  loop with its two drop rules, the version builder, the manifest, and a store object (`DbImpl`) with
  memtables, logs, snapshots, flush, trivial move, merge, deletion of obsolete files, and crash with
  recovery, from logs that may have lost their end, and from the bytes of such a disk. Each method of the
  store is proved to be one step of the state machine in `Db`, `Reopen`, `TornStates` and `Runs`; the
  history of writes is in `Histories`, the run theorems in `RunReads`.
- **Cursors.** `DbIter`, `MergingIter` and `TwoLevelIter` refine a position in a plain sorted sequence.
  `StoreIter` puts them together: an iterator over the store shows what point reads find.
- **Tables.** Blocks with prefix compression and restart points, Bloom filters and filter blocks, index
  separators, the table builder and point lookup; version edits and write batches as bytes.
- **Log, checksum, skip list, cache, group commit.** The fragmenting writer and the reader of any prefix
  of its file, or of a file with a damaged record; the strided CRC32C and what it always finds; the skip
  list with its stores and loads interleaved; the LRU cache with its hash table, and its runs; the queue of
  concurrent writers.
- **nanopb.** Descriptor-driven encoder and decoder as stream objects, proved against byte-level
  functions, the round trip between them, and what the decoder makes of messages with fields missing,
  unknown, in another order or in parts.

Methods of the classes state their whole effect, mostly as a step or function of the old state; lemmas
state what those steps and functions promise.

## A promise the code does not keep

Compactions are meant to be invisible to readers. They are not always: `SetupOtherInputs` adds boundary
files to the inputs of `level` (`version_set.cc:1384`, `version_set.cc:1399`) but never to those of
`level + 1`. A deletion marker in a selected file of `level + 1` can then be dropped while an older value
of the same user key stays in the next, unselected file of that level, and the deleted value is readable
again. `CutRun.DeletedValueReturnsInRun` gives a run of ordinary steps from a new store that ends this way,
`AutomaticRun.MergesAreAutomatic` shows that its merges are the ones the store picks by itself, and
`CutExample.DeletedValueReturns` gives a single compaction.

`CompactionTheorem.CompactionKeepsReadsIff` and `RunReads.RunReadsIff` state exactly when reads are kept:
if and only if no user key is cut this way. That can be decided before the merge, from its inputs, the
oldest snapshot and every other entry of the user key in question: in the memtables and in the files that
are not inputs. `CompactionTheorem.ClosedCutsNothing` shows that boundary files on the lower level would be
enough. All structural invariants hold regardless (`RunReads.RunKeepsInv`).

A newer write in the memtable hides such a cut, until a crash loses it: `LostWriteRun.LostWriteShowsCut` is
a run in which no merge cuts a key and a deleted value returns all the same. `RunReads.RunSurvivesIff` gives
the exact condition for runs with crashes that lose writes: no merge may cut a key for a reader at the last
sequence number even with the live memtable left out.

## Oddities kept as they are

- The 32-bit varint reader of nanopb keeps its bit position in a byte: after 37 bytes it starts over, and
  later bits are or-ed onto earlier ones.
- The nanopb decoder checks for the first 64 required fields only, and does not compare a field's wire
  type with its declared type.
- A submessage of nanopb that comes in two parts is checked for required fields part by part
  (`pb_decode.c:1539-1542`), so with any required field the parts are refused.
- In the log reader, fragment types 5 and 6 read from a file share their numbers with the markers for end
  of file and bad record, and are treated alike.
- A level-0 input search may restart many times; it ends because each restart covers more file ends.
- `VersionEdit::Clear` leaves the compaction pointers alone, so decoding undoes encoding for a fresh edit.

## Model

| member | source | states |
|---|---|---|
| Lsm.LookLayers | ios/Pods/leveldb-library/db/version_set.cc:324-400 | A lookup in two layers, the upper newer key by key, may stop at the first layer that has an answer. |
| VersionGet.RunGetIsScan | ios/Pods/leveldb-library/db/memtable.cc:101-136 | One seek to the lookup key in a sorted run finds exactly what a scan of the whole run for the newest visible entry finds. |
| VersionGet.FindFile | ios/Pods/leveldb-library/db/version_set.cc:87-105 | The binary search returns the smallest index whose file ends at or after the key. |
| VersionGet.NewestFirst | ios/Pods/leveldb-library/db/version_set.cc:277-279 | Sorting level-0 files newest first keeps the same files with falling numbers. |
| VersionGet.GetLevel0 | ios/Pods/leveldb-library/db/version_set.cc:286-302 | Searching only level-0 files that span the key, newest first, stopping at the first answer, equals a scan of all level-0 entries. |
| VersionGet.LevelSearched | ios/Pods/leveldb-library/db/version_set.cc:304-321 | Below level 0 the one file found by binary search answers for the whole level. |
| VersionGet.LevelSkipped | ios/Pods/leveldb-library/db/version_set.cc:304-321 | If that file starts after the key, or there is none, no file of the level holds a visible entry of it. |
| VersionGet.Get | ios/Pods/leveldb-library/db/version_set.cc:324-400 | Version::Get, with its early stop, returns the newest entry at or below the snapshot among all files of all levels. |
| InputSelection.GetOverlappingInputs | ios/Pods/leveldb-library/db/version_set.cc:498-538 | Terminates although level 0 restarts; returns the files overlapping the least range that contains the given one and, at level 0, is closed under overlap. |
| InputSelection.RestartShrinks | ios/Pods/leveldb-library/db/version_set.cc:519-535 | Each restart leaves fewer file ends outside the range, which is why the loop ends. |
| InputSelection.GetRange | ios/Pods/leveldb-library/db/version_set.cc:1182-1201 | Returns the smallest start and the largest end of the files. |
| InputSelection.FindLargestKey | ios/Pods/leveldb-library/db/version_set.cc:1303-1318 | Finds the largest end key, or that there are no files. |
| InputSelection.FindSmallestBoundaryFile | ios/Pods/leveldb-library/db/version_set.cc:1321-1339 | Finds the smallest file that continues the user key of a given key, or that there is none. |
| InputSelection.AddBoundaryInputs | ios/Pods/leveldb-library/db/version_set.cc:1355-1378 | Terminates; appends to the files the chain of boundary files, and afterwards no file of the level continues the top user key. |
| Compactions.BoundaryIsNext | ios/Pods/leveldb-library/db/version_set.cc:1321-1340 | Below level 0 the file continuing the top user key of a run of files is the one right after the run. |
| Compactions.BoundaryKeepsStart | ios/Pods/leveldb-library/db/version_set.cc:1355-1378 | Adding boundary files to a legal starting set leaves it legal: closed at level 0, a run of adjacent files below. |
| Compactions.StayersNewer | ios/Pods/leveldb-library/db/version_set.cc:1384 | With boundary-closed inputs, whatever stays at the level is newer, key by key, than what moves down. |
| Compactions.ExpandInputs | ios/Pods/leveldb-library/db/version_set.cc:1396-1424 | The upper inputs grow to all files in the range of both input sets, with boundary files, exactly when these are more, stay below the byte limit and touch no more lower files; the lower inputs stay exactly as they were. |
| Compactions.SelectInputs | ios/Pods/leveldb-library/db/version_set.cc:1384-1424 | The inputs are the starting set with boundary files, the lower files it overlaps, and the expansion when it is taken; they are legal and include the start. |
| Compactions.SetupOtherInputs | ios/Pods/leveldb-library/db/version_set.cc:1380-1439 | From any legal start, yields the inputs selected for it, legal for a compaction, the grandparents overlapping them and their largest key as the next compaction pointer. |
| Compactions.CompactRangeInputs | ios/Pods/leveldb-library/db/version_set.cc:1441-1472 | No inputs exactly when no file of the level overlaps the range; otherwise a legal starting set: all files in the range, at level 0 widened until nothing sticks out, below cut at the size limit. |
| Compactions.TruncateToLimit | ios/Pods/leveldb-library/db/version_set.cc:1451-1465 | Below level 0 a user range is cut at the first file where the total size reaches the limit. |
| Compactions.TotalOfBoth | ios/Pods/leveldb-library/db/version_set.cc:59-65 | File sizes add up over lists put together. |
| Compactions.PickStart | ios/Pods/leveldb-library/db/version_set.cc:1256-1292 | Starts from the first file that ends past the compaction pointer, wrapping around to the first of all; at level 0 with everything it overlaps. |
| CompactionWork.Compaction.IsBaseLevelForKey | ios/Pods/leveldb-library/db/version_set.cc:1510-1529 | For keys asked in order, the forward-only level pointers answer as a full scan of all deeper files would. |
| CompactionWork.Compaction.ShouldStopBefore | ios/Pods/leveldb-library/db/version_set.cc:1531-1553 | Agrees with its function: grandparents passed on the way to the key count once a key has been seen, and too many of them stop the output and reset the count. |
| CompactionWork.HiddenByPrevious | ios/Pods/leveldb-library/db/db_impl.cc:947-958 | In sorted input, comparing with the previous entry of the same key decides whether any newer entry is old enough to hide this one. |
| CompactionWork.ShouldDrop | ios/Pods/leveldb-library/db/db_impl.cc:947-973 | The two drop rules as coded equal their declarative form. |
| CompactionWork.DoCompactionWork | ios/Pods/leveldb-library/db/db_impl.cc:887-1044 | The output tables, end to end, are exactly the entries the declarative rules keep, in order, in tables with right bounds and consecutive new numbers, cut exactly where table sizes and grandparents call for it. |
| CompactionWork.TablesKeepSize | ios/Pods/leveldb-library/db/db_impl.cc:998-1005 | A table is closed as soon as it has reached the size limit. |
| CompactionWork.OnlySizeCuts | ios/Pods/leveldb-library/db/db_impl.cc:928-1005 | With no files two levels down, every table but the last has reached the limit: nothing else cuts. |
| OutputOverlap.TablesOverlapLittle | ios/Pods/leveldb-library/db/version_set.cc:1531-1553 | In any merge, the grandparents that end between the first and the last key of an output table add up to the limit at most. |
| OutputOverlap.FewTablesShort | ios/Pods/leveldb-library/db/version_set.cc:1531-1553 | Tables are not cut for nothing: the tables short of the size limit, but for one, take more than the overlap limit of grandparents each, so their number is bounded by the size of all grandparents. |
| OutputOverlap.TablesSized | ios/Pods/leveldb-library/db/db_impl.cc:820-840 | Every table of a merge is recorded with its own size. |
| CompactionReads.ReadsKeptIff | ios/Pods/leveldb-library/db/db_impl.cc:956-970 | Dropping entries by the two rules keeps every read from a given point at or past the oldest snapshot on if and only if no dropped marker uncovers, for a reader there, a value left outside the inputs. |
| CompactionReads.UncoveredReadChanges | ios/Pods/leveldb-library/db/db_impl.cc:959-970 | When a value is uncovered, a read that found nothing finds it. |
| CompactionInstall.InstallKeepsLsm | ios/Pods/leveldb-library/db/db_impl.cc:869-885 | Installing a merge keeps levels sorted and disjoint, shallower entries newer than deeper ones and level-0 numbers in order of age, whatever the lower inputs. |
| CompactionInstall.NewLevelDisjoint | ios/Pods/leveldb-library/db/db_impl.cc:869-885 | The outputs overlap no file left one level down. |
| CompactionTheorem.InstalledEntries | ios/Pods/leveldb-library/db/db_impl.cc:869-885 | Afterwards the version holds what was outside the inputs and the outputs, nothing else. |
| CompactionTheorem.OlderIsBelow | ios/Pods/leveldb-library/db/version_set.cc:1510-1529 | An older entry of a key that no deeper level holds can only be in an unselected file one level down. |
| CompactionTheorem.CompactionKeepsReadsIff | ios/Pods/leveldb-library/db/db_impl.cc:887-1044 | For every user key and every sequence number from a given point on, the read before the merge equals the read after its install if and only if no user key is cut one level down for a reader at that point. |
| CompactionTheorem.ClosedCutsNothing | ios/Pods/leveldb-library/db/version_set.cc:1399 | If the lower inputs were boundary closed, which the code does not ensure, no key would be cut and all reads would be kept. |
| CutExample.DeletedValueReturns | ios/Pods/leveldb-library/db/version_set.cc:1384-1399 | A legal version, the inputs chosen for it, the tables the merge writes and the version it installs: a key deleted before reads as its old value after. |
| CutExample.CutReturns | ios/Pods/leveldb-library/db/version_set.cc:1384-1399 | Every cut key reads as absent before and as the old value after. |
| LsmSteps.OverlapInLevel | ios/Pods/leveldb-library/db/version_set.cc:121-156 | True exactly when some file of the level shares a user key with the range, by binary search below level 0. |
| LsmSteps.PickLevelForMemTableOutput | ios/Pods/leveldb-library/db/version_set.cc:470-495 | Level 0 if it overlaps a file there; otherwise as deep as the overlap and grandparent-size rules let a file descend step by step, level 2 at most, with no overlap at any level down to it. |
| LsmSteps.FlushKeepsLsm | ios/Pods/leveldb-library/db/db_impl.cc:500-542 | A flushed table at the chosen level keeps all level invariants. |
| LsmSteps.FlushKeepsEntries | ios/Pods/leveldb-library/db/db_impl.cc:500-542 | A flush adds exactly the entries of the memtable to the version. |
| LsmSteps.MoveKeepsLsm | ios/Pods/leveldb-library/db/db_impl.cc:727-737 | A trivial move keeps all level invariants and every entry. |
| Manifest.Builder.Apply | ios/Pods/leveldb-library/db/version_set.cc:629-669 | Sets the edit's compaction pointers and accumulates deletions and additions per level; an added number is no longer deleted. |
| Manifest.Builder.SaveTo | ios/Pods/leveldb-library/db/version_set.cc:672-730 | The merged levels list, in order, exactly the base and added files whose numbers are not deleted. |
| Manifest.OrderedUnique | ios/Pods/leveldb-library/db/version_set.cc:572-584 | The order by start key and number leaves only one way to list a set of files. |
| Manifest.ReplayIsInstall | ios/Pods/leveldb-library/db/version_set.cc:900-923 | Folding all edits through one builder equals installing them one at a time, if no number is added again at a level it left. |
| Manifest.Recover | ios/Pods/leveldb-library/db/version_set.cc:862-986 | Reading the manifest gives, level by level, the files of the last installed version, the compaction pointers and the last counters recorded, or an error exactly when no record has counters. |
| Edits.EditKeepsNumbers | ios/Pods/leveldb-library/db/version_set.cc:777-860 | Edits the engine makes keep file numbers unique across the version and below the next number. |
| Edits.ExtendTracks | ios/Pods/leveldb-library/db/version_set.cc:777-860 | Appending the record of an installed edit keeps the manifest replaying to the current version, and keeps the number discipline. |
| Edits.SnapshotTracks | ios/Pods/leveldb-library/db/version_set.cc:1064-1092 | A manifest that starts with a snapshot of a version and its compaction pointers replays to that version and those pointers. |
| Edits.ExtendPointsTo | ios/Pods/leveldb-library/db/version_set.cc:629-635 | Appending an edit's record keeps the pointers replayed equal to the pointers in use. |
| EngineEdits.CompactionFits | ios/Pods/leveldb-library/db/version_set.cc:1502-1508 | The edit of a merge removes only listed files and adds only new numbers. |
| EngineEdits.CompactionInstalls | ios/Pods/leveldb-library/db/db_impl.cc:869-885 | Applying that edit replaces exactly the inputs by the outputs. |
| EngineEdits.MoveFits | ios/Pods/leveldb-library/db/db_impl.cc:727-737 | The edit of a trivial move re-adds a number only one level below the level it leaves. |
| WriteBatches.InsertInto | ios/Pods/leveldb-library/db/write_batch.cc:118-136 | Inserting a batch numbers its operations consecutively from the batch's sequence number and adds exactly them to the sorted memtable. |
| WriteBatches.BatchRange | ios/Pods/leveldb-library/db/write_batch.cc:118-130 | The entries of a batch carry different sequence numbers, from the batch's own up to the one before the next batch's. |
| BatchCoding.WriteBatch.Put | ios/Pods/leveldb-library/db/write_batch.cc:98-103 | The bytes become those of the same batch with one more put at the end. |
| BatchCoding.WriteBatch.Delete | ios/Pods/leveldb-library/db/write_batch.cc:105-109 | The bytes become those of the same batch with one more deletion at the end. |
| BatchCoding.WriteBatch.Append | ios/Pods/leveldb-library/db/write_batch.cc:143-148 | The bytes become those of this batch's operations followed by the other's. |
| BatchCoding.Iterate | ios/Pods/leveldb-library/db/write_batch.cc:42-80 | Hands on the operations up to the first malformed one, and succeeds exactly when there is none and the count is right. |
| BatchCoding.IterateUndoesRep | ios/Pods/leveldb-library/db/write_batch.cc:42-80 | Iterating over the bytes of a batch hands on exactly its operations, in order, and finds its sequence number. |
| CutBatches.CutBatchFails | ios/Pods/leveldb-library/db/write_batch.cc:42-80 | No proper beginning of a batch's bytes is accepted, and what is handed on by then is a beginning of its operations. |
| CutBatches.WrongCountFails | ios/Pods/leveldb-library/db/write_batch.cc:75-79 | A batch whose header has another count hands on its operations but is refused. |
| Db.WriteKeeps | ios/Pods/leveldb-library/db/db_impl.cc:1195-1263 | A write keeps levels, logs, manifest and counters consistent and adds exactly its own entries. |
| Db.SwitchKeeps | ios/Pods/leveldb-library/db/db_impl.cc:1355-1377 | Switching to a new memtable and log keeps them consistent and loses no entry. |
| Db.FlushKeeps | ios/Pods/leveldb-library/db/db_impl.cc:544-575 | Flushing the immutable memtable and dropping its log keeps them consistent; every entry stays. |
| Db.MoveKeeps | ios/Pods/leveldb-library/db/db_impl.cc:727-737 | So does a trivial move. |
| Db.CompactKeeps | ios/Pods/leveldb-library/db/db_impl.cc:869-885 | A merge keeps them consistent and adds no entry. |
| Db.RemoveObsoleteKeeps | ios/Pods/leveldb-library/db/db_impl.cc:222-287 | Deleting obsolete files never removes a table of the current version or a log that recovery needs. |
| Db.ReleaseKeeps | ios/Pods/leveldb-library/db/snapshot.h:79-86 | Releasing any snapshot never moves the oldest readable point back. |
| Recovery.RecoverLogFile | ios/Pods/leveldb-library/db/db_impl.cc:380-498 | Replaying a log yields newer-last tables holding exactly the records replayed and the largest sequence number. Each table has its own size, was not full before its last record, and is full unless that is the last of the log. |
| Recovery.LiveLogs | ios/Pods/leveldb-library/db/db_impl.cc:325-359 | The logs replayed are those not older than the log number, in order. |
| Recovery.LiveLogsAre | ios/Pods/leveldb-library/db/db_impl.cc:325-371 | Those logs hold exactly the batches of the memtables, in order. |
| Reopen.ManifestIsCurrent | ios/Pods/leveldb-library/db/version_set.cc:862-986 | The version read from the manifest is the version the store was using. |
| Reopen.RecoverFinds | ios/Pods/leveldb-library/db/db_impl.cc:289-378 | What recovery reads from disk is the crashed store's version, the entries of its memtables and its last sequence number. |
| Reopen.StackKeepsLsm | ios/Pods/leveldb-library/db/db_impl.cc:421-462 | The tables recovery writes, put at level 0, keep all level invariants. |
| Reopen.RecoverKeeps | ios/Pods/leveldb-library/db/db_impl.cc:289-378 | A crash between steps followed by recovery keeps every invariant, every entry and the compaction pointers. |
| Runs.InitialInv | ios/Pods/leveldb-library/db/db_impl.cc:181-211 | A new store satisfies the invariant. |
| Runs.NextKeepsInv | ios/Pods/leveldb-library/db/db_impl.cc:44-1377 | Every step - write, switch, flush, move, merge, snapshot, release, file deletion, crash with recovery that may lose the end of the live log - keeps the whole invariant. |
| RunReads.RunKeepsInv | ios/Pods/leveldb-library/db/db_impl.cc:44-1377 | Hence every state of every run satisfies it; nothing is assumed about what compactions choose beyond what the code ensures. |
| RunReads.CompactStepReadsIff | ios/Pods/leveldb-library/db/db_impl.cc:887-1044 | A merge step keeps all reads of memtables and version from the oldest snapshot on if and only if it cuts no key. |
| Histories.NextFits | ios/Pods/leveldb-library/db/db_impl.cc:44-1377 | Every step keeps the history of writes in step with the store: the live log holds its latest writes, and a crash takes exactly the lost ones away. |
| RunReads.SurvivesIffBase | ios/Pods/leveldb-library/db/db_impl.cc:380-498 | Whether reads after any crash would agree with the history less the lost writes depends on the loss of the whole live log alone. |
| RunReads.CompactBaseIff | ios/Pods/leveldb-library/db/db_impl.cc:887-1044 | A merge step keeps all reads, from the last sequence number on, of what would be left without the live log if and only if it cuts no key there. |
| RunReads.RunReadsIff | ios/Pods/leveldb-library/db/db_impl.cc:44-1377 | In every run whose crashes lose no record, all states answer every live read as the history of all writes does if and only if no merge so far cut a key. |
| RunReads.RunSurvivesIff | ios/Pods/leveldb-library/db/db_impl.cc:44-1377 | In every run, whatever its crashes lose, all states and whatever a crash could leave of them answer every live read as the history of the writes not lost does if and only if no merge so far cut a key, neither with the memory there was nor without the live log. |
| RunReads.SnapshotStable | ios/Pods/leveldb-library/db/db_impl.cc:1176-1184 | In a run in which no merge cuts a key, a snapshot still protected reads the same at the end as when it was taken, as long as no crash in between lost a write. |
| CutRun.DeletedValueReturnsInRun | ios/Pods/leveldb-library/db/version_set.cc:1384-1399 | A run of fourteen ordinary steps from a new store: key 5 is written, deleted and reads as deleted, and after the last merge reads as its old value. |
| CutRun.SomeRunDisagrees | ios/Pods/leveldb-library/db/db_impl.cc:44-1377 | So reads do not agree with the history of writes in every run. |
| AutomaticRun.MergesAreAutomatic | ios/Pods/leveldb-library/db/version_set.cc:1256-1439 | Both merges of that run are what the store picks by itself at level 1 with a table size of three entries: same inputs, and tables cut at the same places. |
| LostWriteRun.LostWriteShowsCut | ios/Pods/leveldb-library/db/db_impl.cc:380-498 | A run in which no merge cuts a key, because a newer write hides the harm done: the crash at its end loses that write, and key 5, deleted by what is left of the history, reads as its first value. |
| StoreIter.LevelConcatenates | ios/Pods/leveldb-library/db/version_set.cc:222-227 | A two-level cursor over a level's files walks the level's entries end to end. |
| StoreIter.InternalRunsOk | ios/Pods/leveldb-library/db/db_impl.cc:1072-1097 | Memtable, immutable memtable, level-0 files and deeper levels are sorted runs without common keys that together hold every stored entry. |
| StoreIter.NewInternalIterator | ios/Pods/leveldb-library/db/db_impl.cc:1072-1097 | The internal iterator is the merge of exactly these runs. |
| StoreIter.IteratorShowsReads | ios/Pods/leveldb-library/db/db_impl.cc:1072-1167 | The rows of an iterator over that merge at any sequence number are exactly the user keys a point read at that number finds, with its values, once each, in order. |
| StoreIter.IteratorShowsHistory | ios/Pods/leveldb-library/db/db_impl.cc:1072-1167 | In any run whose merges cut no key, nor one that a crash would show if writes are lost, an iterator at a live sequence number shows exactly what the history of writes says. |
| TornStates.TornInv | ios/Pods/leveldb-library/db/db_impl.cc:380-498 | A store whose live log lost any of its last records satisfies every invariant. |
| TornStates.TornStored | ios/Pods/leveldb-library/db/db_impl.cc:380-498 | It holds everything but the lost writes, and those are newer than all the log still has. |
| TornLog.CrashAnywhere | ios/Pods/leveldb-library/db/db_impl.cc:289-378 | After a crash that leaves any beginning of the live log's bytes, what is read back from the bytes of manifest and logs is the disk of a store that satisfies every invariant and has lost only the latest writes of that log. |
| TornLog.WriteDisk | ios/Pods/leveldb-library/db/db_impl.cc:1208-1238 | The manifest and log writers put any store that fits its fields on such a disk, and the crash leaves any number of bytes of its live log. |
| TornStates.CrashKeeps | ios/Pods/leveldb-library/db/db_impl.cc:289-378 | A crash that leaves any number of records of the live log, and the recovery after it, keep every invariant, the compaction pointers and every entry but the lost ones. |
| TornStates.WholeCrashKeeps | ios/Pods/leveldb-library/db/db_impl.cc:289-378 | If it leaves all of them, every entry and the last sequence number are kept. |
| DiskBytes.KeyReads | ios/Pods/leveldb-library/db/dbformat.cc:21-24 | An internal key whose user key the coding covers reads back from its bytes. |
| DiskBytes.BatchReads | ios/Pods/leveldb-library/db/write_batch.cc:118-141 | A batch of covered keys and values reads back from its log record. |
| DiskBytes.EditReads | ios/Pods/leveldb-library/db/version_set.cc:895-912 | An edit reads back from its manifest record, given the entries in the table files. |
| DiskBytes.LogReads | ios/Pods/leveldb-library/db/db_impl.cc:380-498 | Whatever is left of a log's bytes gives the batches up to the first that is not all there. |
| DiskBytes.ManifestReads | ios/Pods/leveldb-library/db/version_set.cc:890-935 | The bytes of an undamaged manifest give every edit back. |
| Codecs.EveryStoreCoded | ios/Pods/leveldb-library/db/dbformat.cc:21-24 | For the keys and values of any store there is a coding that covers them all. |
| Codecs.CodedFits | ios/Pods/leveldb-library/db/db_impl.cc:1208-1238 | Such a store fits on disk as soon as its numbers and lengths fit their fields. |
| Codecs.IntegerCoded | ios/Pods/leveldb-library/db/dbformat.cc:21-24 | One coding covers all integers as keys. |
| DiskExample.ExampleFits | ios/Pods/leveldb-library/db/db_impl.cc:1208-1238 | A store in use, with a snapshot, two batches in its log and the integer coding, meets everything the theorems on bytes ask for. |
| DbImpl.DBImpl.Get | ios/Pods/leveldb-library/db/db_impl.cc:1110-1155 | Memtable, then immutable memtable, then version: the answer of a scan of everything stored at the snapshot or the last sequence. |
| DbImpl.DBImpl.NewIterator | ios/Pods/leveldb-library/db/db_impl.cc:1157-1167 | An iterator, standing on the merging iterator over everything stored, at the snapshot or the last sequence, whose rows are exactly what point reads there find. |
| DbImpl.DBImpl.GetSnapshot | ios/Pods/leveldb-library/db/db_impl.cc:1176-1179 | Records the last sequence number as a live snapshot. |
| DbImpl.DBImpl.ReleaseSnapshot | ios/Pods/leveldb-library/db/db_impl.cc:1181-1184 | Takes one live snapshot out and keeps the invariant. |
| DbImpl.DBImpl.MakeRoomForWrite | ios/Pods/leveldb-library/db/db_impl.cc:1320-1380 | Without force, a memtable with room is left alone. Otherwise there is a switch exactly when no memtable waits for its flush and level 0 is below its trigger, and then success exactly when an empty memtable has room; with no switch the call fails. |
| DbImpl.DBImpl.Write | ios/Pods/leveldb-library/db/db_impl.cc:1195-1263 | The state before the call decides: a full memtable is switched first where it may be, and the write goes in, as one write step, exactly when there is room then; a refused write changes nothing more. |
| DbImpl.DBImpl.LogAndApply | ios/Pods/leveldb-library/db/version_set.cc:777-860 | Installs the version the edit gives and appends the edit with its counters to the manifest. |
| DbImpl.DBImpl.CompactMemTable | ios/Pods/leveldb-library/db/db_impl.cc:500-575 | Is a flush step: table, level, edit, log number and memtable as that step says; a table with entries has its own size and lies as deep as the overlap and grandparent rules let it descend. |
| DbImpl.DBImpl.ChooseInputs | ios/Pods/leveldb-library/db/version_set.cc:1380-1439 | Yields the inputs selected for the start and stores their largest key as the compaction pointer. |
| DbImpl.DBImpl.Compact | ios/Pods/leveldb-library/db/db_impl.cc:697-776 | Is the trivial move or the merge step that the inputs selected for the given level and start call for, a move exactly when it is automatic, one file, nothing to merge and few grandparent bytes; keeps the invariant. |
| DbImpl.DBImpl.RunMerge | ios/Pods/leveldb-library/db/db_impl.cc:887-1044 | Is a merge step down to the oldest snapshot, or the last sequence without one, that writes exactly the tables its inputs, sizes and grandparents call for. |
| DbImpl.DBImpl.InstallCompactionResults | ios/Pods/leveldb-library/db/db_impl.cc:869-885 | One edit replaces the inputs by the outputs and records the counters. |
| DbImpl.DBImpl.BackgroundCompaction | ios/Pods/leveldb-library/db/db_impl.cc:697-776 | The immutable memtable is flushed first, to the deepest level allowed; otherwise one move or merge of the chosen level, from the first file past its compaction pointer. |
| DbImpl.DBImpl.CompactRange | ios/Pods/leveldb-library/db/db_impl.cc:594-631 | Does nothing exactly when no file of the level overlaps the range, else is one merge step of that level over the requested range. |
| DbImpl.DBImpl.RemoveObsoleteFiles | ios/Pods/leveldb-library/db/db_impl.cc:222-287 | Keeps logs from the log number on and tables listed or pinned, and deletes the rest. |
| DbImpl.DBImpl.FilesMissing | ios/Pods/leveldb-library/db/db_impl.cc:339-356 | Reports corruption exactly when a listed table is not on disk. |
| DbImpl.DBImpl.CrashAndRecover | ios/Pods/leveldb-library/db/db_impl.cc:289-378 | From the disk alone, with any number of records left in the live log, rebuilds a store, compaction pointers included, by a crash step; opening never fails after a crash between steps. |
| Engine.ApplyEdit | ios/Pods/leveldb-library/db/version_set.cc:792-797 | A fresh builder over the current version gives the version of the edit. |
| Engine.MakeInputIterator | ios/Pods/leveldb-library/db/version_set.cc:1214-1245 | The merge of the input files yields every input entry once, in order. |
| Engine.ReplayLogs | ios/Pods/leveldb-library/db/db_impl.cc:358-375 | Replays all live logs in order into tables with rising numbers, each cut from one log where the memtable is full or the log ends. |
| SortedRuns.MergedSorted | ios/Pods/leveldb-library/table/merger.cc:179-189 | Merging sorted runs without common keys gives a sorted run of exactly their entries. |
| DbIter.ShownIsRead | ios/Pods/leveldb-library/db/db_iter.cc:141-308 | Every row an iterator shows is the value a read of its key at the snapshot returns. |
| DbIter.ReadIsShown | ios/Pods/leveldb-library/db/db_iter.cc:141-308 | Every key such a read finds is a row. |
| DbIter.ShownOrder | ios/Pods/leveldb-library/db/db_iter.cc:141-308 | Rows come in strictly increasing user key order. |
| DbIter.DBIter.Key | ios/Pods/leveldb-library/db/db_iter.cc:64-67 | In either direction, the key of the current row. |
| DbIter.DBIter.Value | ios/Pods/leveldb-library/db/db_iter.cc:68-71 | In either direction, the value of the current row. |
| DbIter.DBIter.FindNextUserEntry | ios/Pods/leveldb-library/db/db_iter.cc:177-207 | Stops at the first row from where the scan started, skipping hidden and deleted entries. |
| DbIter.DBIter.FindPrevUserEntry | ios/Pods/leveldb-library/db/db_iter.cc:236-276 | Stops just before the last row below the cursor, with its key and value saved. |
| DbIter.DBIter.Next | ios/Pods/leveldb-library/db/db_iter.cc:141-175 | Moves to the next row, also after moving backwards. |
| DbIter.DBIter.Prev | ios/Pods/leveldb-library/db/db_iter.cc:209-234 | Moves to the previous row, also after moving forwards. |
| DbIter.DBIter.Seek | ios/Pods/leveldb-library/db/db_iter.cc:278-290 | Moves to the first row whose user key is at or after the target. |
| DbIter.DBIter.SeekToFirst | ios/Pods/leveldb-library/db/db_iter.cc:292-301 | Moves to the first row. |
| DbIter.DBIter.SeekToLast | ios/Pods/leveldb-library/db/db_iter.cc:303-308 | Moves to the last row. |
| MergingIter.SeekCuts | ios/Pods/leveldb-library/table/merger.cc:47-53 | Seeking every child and seeking the merge cut the entries at the same place. |
| MergingIter.MergeInterleaves | ios/Pods/leveldb-library/table/merger.cc:148-176 | Every entry of every child has one place in the merge and every place one entry. |
| MergingIter.MergingIterator.FindSmallest | ios/Pods/leveldb-library/table/merger.cc:148-161 | With all children just before a place, the smallest child entry is the entry at the place. |
| MergingIter.MergingIterator.FindLargest | ios/Pods/leveldb-library/table/merger.cc:163-176 | With all children at their last entry before a place, the largest is the entry before the place. |
| MergingIter.MergingIterator.Seek | ios/Pods/leveldb-library/table/merger.cc:47-53 | A cursor on the merge of the children, positioned by a seek. |
| MergingIter.MergingIterator.Next | ios/Pods/leveldb-library/table/merger.cc:55-79 | One place forward in the merge, also after moving backwards. |
| MergingIter.MergingIterator.Prev | ios/Pods/leveldb-library/table/merger.cc:81-108 | One place back in the merge, also after moving forwards. |
| MergingIter.MergingIterator.SeekToFirst | ios/Pods/leveldb-library/table/merger.cc:31-37 | To the first entry of the merge. |
| MergingIter.MergingIterator.SeekToLast | ios/Pods/leveldb-library/table/merger.cc:39-45 | To the last entry of the merge. |
| TwoLevelIter.SeekBoth | ios/Pods/leveldb-library/table/two_level_iterator.cc:82-87 | Seeking the index and then the block it names finds where the target belongs in the concatenation of all blocks. |
| TwoLevelIter.TwoLevelIterator.SkipEmptyDataBlocksForward | ios/Pods/leveldb-library/table/two_level_iterator.cc:115-126 | Passes finished and empty blocks without leaving the place sought. |
| TwoLevelIter.TwoLevelIterator.SkipEmptyDataBlocksBackward | ios/Pods/leveldb-library/table/two_level_iterator.cc:128-139 | The same backwards. |
| TwoLevelIter.TwoLevelIterator.Seek | ios/Pods/leveldb-library/table/two_level_iterator.cc:82-87 | A cursor on the concatenation, positioned by a seek. |
| TwoLevelIter.TwoLevelIterator.Next | ios/Pods/leveldb-library/table/two_level_iterator.cc:103-107 | One entry forward in the concatenation. |
| TwoLevelIter.TwoLevelIterator.Prev | ios/Pods/leveldb-library/table/two_level_iterator.cc:109-113 | One entry back in the concatenation. |
| TwoLevelIter.TwoLevelIterator.SeekToFirst | ios/Pods/leveldb-library/table/two_level_iterator.cc:89-94 | To the first entry of the concatenation, past empty blocks. |
| TwoLevelIter.TwoLevelIterator.SeekToLast | ios/Pods/leveldb-library/table/two_level_iterator.cc:96-101 | To the last entry of the concatenation, past empty blocks. |
| GroupCommit.BuildBatchGroup | ios/Pods/leveldb-library/db/db_impl.cc:1270-1316 | Takes the longest group from the front that the sync and size rules allow, with its operations in order. |
| GroupCommit.NextKeepsInv | ios/Pods/leveldb-library/db/db_impl.cc:1195-1263 | Every step of enqueueing, leading, logging, syncing, applying and finishing keeps log, memtable, counters and queue in agreement. |
| GroupCommit.EachOnce | ios/Pods/leveldb-library/db/db_impl.cc:1195-1263 | In every interleaving, between groups the log and the memtable hold the operations of exactly the acknowledged calls, once each, in call order, with consecutive numbers; every acknowledged sync call is in a synced record. |
| GroupCommit.AcknowledgedAreKept | ios/Pods/leveldb-library/db/db_impl.cc:1195-1263 | Even in the middle of a group, acknowledged calls are in log and memtable, and on disk if they asked for a sync. |
| GroupCommit.WriteQueue.Enqueue | ios/Pods/leveldb-library/db/db_impl.cc:1196-1202 | A call joins the back of the queue. |
| GroupCommit.WriteQueue.Lead | ios/Pods/leveldb-library/db/db_impl.cc:1212-1219 | The front call takes its group, or only itself when it carries no batch. |
| GroupCommit.WriteQueue.Apply | ios/Pods/leveldb-library/db/write_batch.cc:118-136 | The operations go in one at a time with the numbers the log record has. |
| GroupCommit.WriteQueue.Finish | ios/Pods/leveldb-library/db/db_impl.cc:1246-1256 | Exactly the calls of the group leave the queue and are acknowledged. |
| SkipLists.PublishKeeps | ios/Pods/leveldb-library/db/skiplist.h:354-367 | Linking a new node behind its predecessor keeps a level a sorted list of exactly its keys and the new one. |
| SkipLists.NextKeepsOk | ios/Pods/leveldb-library/db/skiplist.h:336-368 | After every store of an insertion and every load of any reader, all levels are sorted and each is part of the one below, and every search is still on course. |
| SkipLists.ContentsChange | ios/Pods/leveldb-library/db/skiplist.h:336-368 | Only the first publication of an insertion changes what the list holds: it adds the key. |
| SkipLists.InsertionCompletes | ios/Pods/leveldb-library/db/skiplist.h:354-367 | When the insertion ends the key is on every level of its height. |
| SkipLists.SearchIsExact | ios/Pods/leveldb-library/db/skiplist.h:260-322 | Under any interleaving, a finished search is exact for the keys linked at that moment, among them all keys there when it began. |
| SkipLists.SkipList.FindGreaterOrEqual | ios/Pods/leveldb-library/db/skiplist.h:260-282 | The first key at or after the target. |
| SkipLists.SkipList.FindLessThan | ios/Pods/leveldb-library/db/skiplist.h:284-302 | The last node before the key, or the head. |
| SkipLists.SkipList.FindLast | ios/Pods/leveldb-library/db/skiplist.h:304-322 | The last node, or the head of an empty list. |
| SkipLists.SkipList.Contains | ios/Pods/leveldb-library/db/skiplist.h:370-378 | True exactly for keys the list holds. |
| SkipLists.SkipList.Insert | ios/Pods/leveldb-library/db/skiplist.h:336-368 | Adds the key to the levels below the chosen height and to no other. |
| CrcAlgebra.FeedWord | ios/Pods/leveldb-library/util/crc32c.cc:313-321 | One word and four zero steps feed four bytes. |
| CrcAlgebra.StrideRotates | ios/Pods/leveldb-library/util/crc32c.cc:294-311 | One stride by table look-up on the oldest partial result stands for four more bytes of the whole. |
| CrcAlgebra.SwathFeeds | ios/Pods/leveldb-library/util/crc32c.cc:303-311 | Four strides stand for sixteen more bytes. |
| CrcAlgebra.Process | ios/Pods/leveldb-library/util/crc32c.cc:323-377 | Alignment bytes, strides, recombination and tail together feed every byte of the buffer, for every length and alignment. |
| Crc32c.CrcObeysLaws | ios/Pods/leveldb-library/util/crc32c.cc:276-322 | The CRC32C step on 32-bit words is linear and shifts zero bytes through words as the strides need. |
| Crc32c.TableLookupsOk | ios/Pods/leveldb-library/util/crc32c.cc:287-321 | Look-ups in tables of one-byte and sixteen-byte zero advances do what the algebra asks of them. |
| Crc32c.Extend | ios/Pods/leveldb-library/util/crc32c.cc:276-377 | The strided computation equals the byte-at-a-time checksum. |
| Crc32c.ExtendComposes | ios/Pods/leveldb-library/util/crc32c.h:14-20 | Extending by two pieces in turn is extending by their concatenation. |
| Crc32c.UnmaskUndoesMask | ios/Pods/leveldb-library/util/crc32c.h:29-38 | Unmask(Mask(c)) is c. |
| Crc32c.CheckValue | ios/Pods/leveldb-library/util/crc32c.h:14-24 | The checksum of the digits 1 to 9 is e3069283, the check value by which CRC32C is known. |
| CrcDamage.DamageChangesCrc | ios/Pods/leveldb-library/util/crc32c.cc:276-285 | A change confined to any four neighbouring bytes of a string of any length changes its checksum. |
| LogWriter.Writer.EmitPhysicalRecord | ios/Pods/leveldb-library/db/log_writer.cc:82-108 | Appends header, checksum and payload, and advances the block offset. |
| LogWriter.Writer.EmitFragment | ios/Pods/leveldb-library/db/log_writer.cc:43-77 | Fills a short tail with zeros and writes as much of the record as fits in the block, typed by its place in the record. |
| LogWriter.Writer.AddRecord | ios/Pods/leveldb-library/db/log_writer.cc:34-80 | Writes the record as one run of first, middle and last fragments that join to it, none crossing a block. |
| LogReader.Reader.ReadPhysicalRecord | ios/Pods/leveldb-library/db/log_reader.cc:189-271 | Refills, skips tails, checks length and checksum as the function on which the round trip and the damage theorems stand, with its corruption reports. |
| LogReader.Reader.ReadRecord | ios/Pods/leveldb-library/db/log_reader.cc:56-174 | Joins fragments into a record, with the source's reports for misplaced ones, as the function that reads written logs back and turns damaged records away. |
| LogFormat.MaskedRoundTrip | ios/Pods/leveldb-library/db/log_reader.cc:243-262 | A record's stored checksum is accepted for its own type and payload. |
| LogRoundTrip.PhysicalReads | ios/Pods/leveldb-library/db/log_reader.cc:189-271 | In any prefix of a written log, one physical read returns the next fragment if all of it is there, else the end, with no report. |
| LogRoundTrip.LogicalReads | ios/Pods/leveldb-library/db/log_reader.cc:56-174 | From any fragment of a record on, the reader returns the record if its last fragment is there, else the end. |
| LogRoundTrip.CompleteMeans | ios/Pods/leveldb-library/db/log_writer.cc:34-80 | A record counts as complete exactly when its last byte lies in the prefix. |
| LogRoundTrip.CrashPrefix | ios/Pods/leveldb-library/db/log_reader.cc:56-271 | Reading any prefix of a written log returns exactly the complete records, in order, with no corruption report. |
| LogRoundTrip.UncutIsComplete | ios/Pods/leveldb-library/db/log_reader.cc:56-271 | From the whole log all records are read. |
| LogRoundTrip.WriteCutRead | ios/Pods/leveldb-library/db/log_writer.cc:34-108 | Writer, cut and reader together, with masked CRC32C. |
| LogDamage.MatchesIffStored | ios/Pods/leveldb-library/db/log_reader.cc:243-256 | The reader accepts no checksum for a type and a payload but the one the writer stores. |
| LogDamage.DamageRejected | ios/Pods/leveldb-library/db/log_reader.cc:243-256 | The stored checksum is not accepted for a type and payload changed anywhere within four neighbouring bytes. |
| LogDamage.OneByteRejected | ios/Pods/leveldb-library/db/log_reader.cc:243-256 | In particular not when one payload byte or the type byte is changed. |
| LogDamage.ChecksumDamageRejected | ios/Pods/leveldb-library/db/log_reader.cc:243-256 | A record whose stored checksum is changed to any other is turned away. |
| LogDamage.DamageIsSplice | ios/Pods/leveldb-library/db/log_reader.cc:189-271 | The damaged file is the written one with the bytes of one physical record replaced. |
| LogDamage.BadRead | ios/Pods/leveldb-library/db/log_reader.cc:215-256 | At a damaged record, one whose checksum does not match or whose length reaches past its block, the reader drops its buffer with one report and stands on the first record of the next block. |
| LogDamage.DamageIsLocal | ios/Pods/leveldb-library/db/log_reader.cc:56-271 | Reading a log with one physical record damaged returns, in order, every record but those with a fragment from the damaged one to the end of its block, makes none up, and reports exactly the damage, the record cut short and each fragment left without its beginning. |
| LogDamage.FlippedByte | ios/Pods/leveldb-library/db/log_reader.cc:56-271 | So it is when any one payload byte of a log written with masked CRC32C is changed. |
| LogDamage.OneRecordFlipped | ios/Pods/leveldb-library/db/log_reader.cc:56-271 | A log of one unfragmented record with a payload byte changed gives no record and one report. |
| LogInterrupted.UnfinishedIsReported | ios/Pods/leveldb-library/db/log_reader.cc:56-174 | A record that lacks its last fragments, with other records behind it, is dropped with one report if any of its data is lost; all whole records are returned in order. |
| HandleTables.OneMatch | ios/Pods/leveldb-library/util/cache.cc:112-121 | No two slots of the table have the same hash and key. |
| HandleTables.HandleTable.Lookup | ios/Pods/leveldb-library/util/cache.cc:75-77 | Finds the slot of a key exactly when the table has it. |
| HandleTables.HandleTable.Insert | ios/Pods/leveldb-library/util/cache.cc:79-93 | Replaces the slot of the key, or adds it and grows the table once there are more slots than buckets. |
| HandleTables.HandleTable.Remove | ios/Pods/leveldb-library/util/cache.cc:95-103 | Takes out exactly the slot of the key. |
| HandleTables.HandleTable.Resize | ios/Pods/leveldb-library/util/cache.cc:123-147 | Rehashes to a power of two not below the number of slots, losing and repeating none; the count of slots moved equals the count kept. |
| LruCaches.LookedUpKeeps | ios/Pods/leveldb-library/util/cache.cc:218-224 | Handing out an entry keeps both lists, the table, the usage and the reference counts in agreement. |
| LruCaches.ReleasedKeeps | ios/Pods/leveldb-library/util/cache.cc:226-238 | So does giving back a handle, which frees the entry when nothing else refers to it. |
| LruCaches.FinishEraseKeeps | ios/Pods/leveldb-library/util/cache.cc:308-317 | So does taking an entry that has left the table out of the cache. |
| LruCaches.PutKeeps | ios/Pods/leveldb-library/util/cache.cc:286-290 | So does the table exchange on insertion, up to the entry replaced. |
| LruCaches.OldestDropped | ios/Pods/leveldb-library/util/cache.cc:295-302 | Dropping the oldest unused entry frees it and changes nothing else. |
| LruCaches.HeldIsLive | ios/Pods/leveldb-library/util/cache.cc:20-37 | An entry some client holds is never freed. |
| LruCaches.LRUCache.Lookup | ios/Pods/leveldb-library/util/cache.cc:253-260 | Returns a handle for the one cached entry of the key, or nothing exactly when there is none; a step of the runs below. |
| LruCaches.LRUCache.Release | ios/Pods/leveldb-library/util/cache.cc:226-265 | Gives up one client reference; an entry nobody else uses goes behind all other unused ones. The effect is stated for the whole state and is a step of the runs below. |
| LruCaches.LRUCache.Insert | ios/Pods/leveldb-library/util/cache.cc:267-304 | Adds the entry, replaces the one of the same key, then evicts the fewest unused entries from the front of their list: afterwards the usage is within capacity or nothing unused is left. A step of the runs below. |
| LruCaches.LRUCache.Erase | ios/Pods/leveldb-library/util/cache.cc:319-322 | Takes the entry of the key out of the cache; it lives on while held. |
| LruCaches.LRUCache.Prune | ios/Pods/leveldb-library/util/cache.cc:324-333 | Frees all unused entries and no other. |
| LruRuns.RunInOrder | ios/Pods/leveldb-library/util/cache.cc:218-251 | In every state of every run from a new cache, the unused entries are listed strictly in the order in which they last became unused. |
| LruRuns.LongestUnusedGoFirst | ios/Pods/leveldb-library/util/cache.cc:294-301 | In every run, each entry an insertion evicts had been unused for longer than every unused entry it keeps. |
| LruRuns.CachedIsLatest | ios/Pods/leveldb-library/util/cache.cc:253-322 | In every run, the cached entry of a key is the one inserted last under it, and the key was neither inserted nor erased since. |
| LruRuns.InsertedIsCached | ios/Pods/leveldb-library/util/cache.cc:267-304 | With any capacity an entry just inserted is cached under its key, with one handle more, whatever was evicted. |
| Coding.GetPutVarint32 | ios/Pods/leveldb-library/util/coding.cc:86-102 | Any 32-bit value reads back as written. |
| Blocks.DecodeLengthsIs | ios/Pods/leveldb-library/table/block.cc:55-71 | The one-byte fast path and the varint path read the same three lengths. |
| Blocks.DecodeEntryIs | ios/Pods/leveldb-library/table/block.cc:55-75 | Decoding an encoded entry yields its lengths, followed by its part of the key and its value. |
| BlockBuilders.SharedLength | ios/Pods/leveldb-library/table/block_builder.cc:79-84 | Computes the length of the longest common start of the last key and the new one. |
| BlockBuilders.BlockBuilder.Add | ios/Pods/leveldb-library/table/block_builder.cc:71-105 | Appends exactly the pair given, sharing all the last key allows or nothing at a restart. |
| BlockBuilders.EveryInterval | ios/Pods/leveldb-library/table/block_builder.cc:79-93 | Restarts come at exactly every multiple of the interval. |
| BlockBuilders.BlockBuilder.Finish | ios/Pods/leveldb-library/table/block_builder.cc:61-69 | The result is a block of exactly the pairs added, of the estimated size. |
| BlockIters.DecodesAt | ios/Pods/leveldb-library/table/block.cc:55-75 | At an item's offset in a finished block the decoder finds the item. |
| BlockIters.SearchRestarts | ios/Pods/leveldb-library/table/block.cc:165-190 | The binary search ends at a restart point whose key is before the target, or at the first. |
| BlockIters.BlockIter.ParseNextKey | ios/Pods/leveldb-library/table/block.cc:225-252 | Decodes the next entry over the shared part of the key before it and keeps the restart index in step. |
| BlockIters.BlockIter.Next | ios/Pods/leveldb-library/table/block.cc:138-141 | Moves to the next entry. |
| BlockIters.BlockIter.Prev | ios/Pods/leveldb-library/table/block.cc:143-162 | Moves to the entry before, or off the block from the first. |
| BlockIters.BlockIter.Seek | ios/Pods/leveldb-library/table/block.cc:164-202 | Lands on the first entry whose key is not before the target, for any transitive order. |
| BlockIters.BlockIter.SeekToFirst | ios/Pods/leveldb-library/table/block.cc:204-207 | Moves to the first entry. |
| BlockIters.BlockIter.SeekToLast | ios/Pods/leveldb-library/table/block.cc:209-214 | Moves to the last entry. |
| BlockIters.ReadAll | ios/Pods/leveldb-library/table/block.cc:138-252 | Iterating a block yields exactly its pairs. |
| BlockIters.BuildAndRead | ios/Pods/leveldb-library/table/block_builder.cc:61-105 | A block built from any entries fits exactly when its computed size is below 2^32, and then reads back as those entries. |
| BloomFilters.CreateFilter | ios/Pods/leveldb-library/util/bloom.cc:28-54 | The fewest whole bytes with room for the bits of all keys, eight at least, and in them exactly the bits the probes of the keys hit, for any hash. |
| BloomFilters.KeyMayMatch | ios/Pods/leveldb-library/util/bloom.cc:56-80 | True exactly when all probes of the key are set or the encoding is unknown; false for an empty filter. |
| BloomFilters.AddedKeyMatches | ios/Pods/leveldb-library/util/bloom.cc:28-80 | No false negatives. |
| BloomFilters.ProbesStepEvenly | ios/Pods/leveldb-library/util/bloom.cc:44-52 | The probes of a hash are an arithmetic progression modulo 2^32. |
| FilterBlocks.FilterBlockBuilder.StartBlock | ios/Pods/leveldb-library/table/filter_block.cc:21-27 | Closes filters up to the offset's own, keeping every key findable under the offset it was added at. |
| FilterBlocks.FilterBlockBuilder.AddKey | ios/Pods/leveldb-library/table/filter_block.cc:29-33 | Adds the key under the current block's offset. |
| FilterBlocks.FilterBlockBuilder.Finish | ios/Pods/leveldb-library/table/filter_block.cc:35-49 | In the finished block no key is denied at the offset it was added at, for any run of starts and keys. |
| FilterBlocks.KeyMayMatchAt | ios/Pods/leveldb-library/table/filter_block.cc:90-104 | The reader's answer in all cases, errors counting as a match. |
| Separators.FindShortestSeparator | ios/Pods/leveldb-library/util/comparator.cc:31-52 | The key itself, or one no longer than it strictly between it and the limit, exactly when the first difference leaves room, and which one. |
| Separators.FindShortSuccessor | ios/Pods/leveldb-library/util/comparator.cc:54-66 | The key itself when it is all 0xff bytes, else its start with the first other byte raised, which is greater. |
| Separators.ShortestSeparator | ios/Pods/leveldb-library/db/dbformat.cc:65-82 | The internal key itself, or one whose user key lies strictly between both user keys: exactly when the first difference leaves room and something behind it can be cut off, and which one. |
| Separators.ShortSuccessor | ios/Pods/leveldb-library/db/dbformat.cc:84-97 | The internal key itself, or one with a greater user key: exactly when something can be cut off behind the first byte that can be raised, and which one. |
| Separators.SeparatorFits | ios/Pods/leveldb-library/db/dbformat.cc:65-82 | A separator is at or after its start and before its limit. |
| Tables.IndexLeadsThere | ios/Pods/leveldb-library/table/table.cc:214-220 | If the first entry at or after the key has its user key, the index names the block of that entry. |
| Tables.InternalGet | ios/Pods/leveldb-library/table/table.cc:214-242 | Whatever is reported is the first entry of the table at or after the key, and that entry is reported whenever it has the key's user key. |
| TableBuilders.TableBuilder.Add | ios/Pods/leveldb-library/table/table_builder.cc:94-123 | Adds the entry; the index entry of a finished block is made when the next key is known. |
| TableBuilders.TableBuilder.Flush | ios/Pods/leveldb-library/table/table_builder.cc:125-139 | Closes the block; its keys stay in the filter under its offset. |
| TableBuilders.TableBuilder.Finish | ios/Pods/leveldb-library/table/table_builder.cc:198-253 | The table holds exactly the entries added and is one on which lookups are exact. |
| EditCoding.WholeField | ios/Pods/leveldb-library/db/version_edit.cc:105-203 | Each tagged field reads back as written. |
| EditCoding.DecodeUndoesEncode | ios/Pods/leveldb-library/db/version_edit.cc:41-203 | Decoding the encoding of any edit into a fresh edit gives the edit. |
| EditCoding.EncodeTo | ios/Pods/leveldb-library/db/version_edit.cc:41-84 | Writes the fields that are set in the source's order. |
| EditCoding.DecodeFrom | ios/Pods/leveldb-library/db/version_edit.cc:105-203 | Reads fields to the end of the input or fails on an unknown tag, a malformed field or left-over bytes. |
| PbVarints.EncodeVarint | ios/Pods/nanopb/pb_encode.c:608-628 | The loop writes seven bits a byte, low bits first. |
| PbVarints.Varint64RoundTrip | ios/Pods/nanopb/pb_decode.c:255-276 | Any 64-bit value reads back as written. |
| PbVarints.Varint32RoundTrip | ios/Pods/nanopb/pb_decode.c:187-247 | Any 32-bit value reads back through the reader of tags and lengths. |
| PbRoundTrip.SignedUndoes | ios/Pods/nanopb/pb_decode.c:1345-1380 | Two's complement in 64 bits and back, for each integer width. |
| PbRoundTrip.UnZigZagUndoes | ios/Pods/nanopb/pb_decode.c:1285-1297 | Zigzag and back, for each integer width. |
| PbRoundTrip.TagRoundTrip | ios/Pods/nanopb/pb_decode.c:298-319 | A tag reads back as field number and wire type. |
| PbRoundTrip.PackedRoundTrip | ios/Pods/nanopb/pb_decode.c:425-453 | A packed array reads back item by item. |
| PbRoundTrip.FieldRoundTrip | ios/Pods/nanopb/pb_decode.c:406-483 | The bytes of one field take the destination from its default to the encoded value, for every rule. |
| PbRoundTrip.DecodeUndoesEncode | ios/Pods/nanopb/pb_decode.c:934-1096 | Decoding the bytes of any well-formed message tree gives it back, up to the contents of absent fields, with no required field missing. |
| PbOStream.OStream.EncodeSubmessage | ios/Pods/nanopb/pb_encode.c:717-765 | The sizing pass gives the length then written, so the two never disagree; fails only for lengths out of bounds or lack of room. |
| PbOStream.OStream.EncodeArray | ios/Pods/nanopb/pb_encode.c:147-236 | Packed or repeated tags as the type allows, with the packed length computed beforehand exact. |
| PbOStream.OStream.EncodeField | ios/Pods/nanopb/pb_encode.c:341-426 | A field by its rule; absent optional, empty repeated, unchosen and default singular fields write nothing. |
| PbOStream.OStream.EncodeMessage | ios/Pods/nanopb/pb_encode.c:528-550 | Succeeds exactly when every length is within bounds and the bytes fit, and then writes exactly the message's bytes. |
| PbExample.Integer | ios/Pods/nanopb/pb_encode.c:669-706 | The example of the Protocol Buffers documentation: field 1 with 150 is 08 96 01. |
| PbExample.Text | ios/Pods/nanopb/pb_encode.c:709-715 | Field 2 with the string "testing" is 12 07 and its seven bytes. |
| PbExample.Nested | ios/Pods/nanopb/pb_encode.c:717-765 | Field 3 with that first message inside is 1a 03 08 96 01. |
| PbExample.Packed | ios/Pods/nanopb/pb_encode.c:147-236 | Field 4 with the packed array 3, 270, 86942 is 22 06 03 8e 02 9e a7 05. |
| PbExample.Zeros | ios/Pods/nanopb/pb_encode.c:240-338 | A zero in a field without a has flag is not written, a present optional zero is. |
| PbExample.SignedAndFixed | ios/Pods/nanopb/pb_encode.c:630-651 | Minus one in zigzag form is one byte; a fixed 32-bit number has its low byte first. |
| PbIStream.FieldIter.Next | ios/Pods/nanopb/pb_common.c:29-85 | Advances round the descriptor, with the count of required fields passed. |
| PbIStream.FieldIter.Find | ios/Pods/nanopb/pb_common.c:87-103 | The circular search finds a tag exactly when some field has it. |
| PbIStream.IStream.DecodeVarint32 | ios/Pods/nanopb/pb_decode.c:187-253 | Agrees with the value function, including overflow rules and end of input. |
| PbIStream.IStream.SkipField | ios/Pods/nanopb/pb_decode.c:321-334 | Skips exactly one field of a known wire type. |
| PbIStream.IStream.MakeStringSubstream | ios/Pods/nanopb/pb_decode.c:372-385 | A stream over the next length-prefixed bytes, which the parent gives up. |
| PbIStream.IStream.CloseStringSubstream | ios/Pods/nanopb/pb_decode.c:387-404 | The parent goes on behind what the substream was given. |
| PbIStream.IStream.DecodeStaticField | ios/Pods/nanopb/pb_decode.c:406-483 | One field into its slot, by its rule. |
| PbIStream.IStream.DecodeNoInit | ios/Pods/nanopb/pb_decode.c:934-1082 | The decoding loop: known fields, skipped fields, early end on a zero tag, and the check of the first 64 required fields; agrees with the function that accepts exactly the messages with all of these. |
| PbIStream.IStream.DecodeMessage | ios/Pods/nanopb/pb_decode.c:1084-1096 | Defaults first, then the loop; fails exactly as that function does. |
| PbUnknown.SkipValue | ios/Pods/nanopb/pb_decode.c:321-334 | Skipping by wire type passes over exactly the bytes of one encoded value. |
| PbUnknown.SkipSlot | ios/Pods/nanopb/pb_decode.c:980-1010 | The decoding loop passes over all bytes of a field it does not know, whatever its rule, and changes nothing. |
| PbUnknown.UnknownFieldsIgnored | ios/Pods/nanopb/pb_decode.c:934-1096 | Decoding with any selection of a message's fields gives exactly those fields back: bytes of unknown fields, anywhere in the message, have no effect. |
| PbReceived.AcceptedIffRequiredSent | ios/Pods/nanopb/pb_decode.c:1043-1078 | A message with any of its fields left out and the rest in any order is accepted if and only if none of the first 64 required fields is missing; the fields sent then have their values and all others their defaults. |
| PbReceived.MissingRequiredFails | ios/Pods/nanopb/pb_decode.c:1043-1078 | Decoding the bytes of any selection of a message's fields that leaves out one of the first 64 required fields fails. |
| PbReceived.EmptyMessageFails | ios/Pods/nanopb/pb_decode.c:1043-1078 | With any required field in the descriptor an empty message fails. |
| PbReceived.SplitSubmessage | ios/Pods/nanopb/pb_decode.c:1525-1547 | A submessage that comes in two parts, each with some of its fields in any order, is put together if and only if it has no required fields, since each part is checked for them on its own. |
| PbReceived.UnpackedArray | ios/Pods/nanopb/pb_decode.c:425-470 | An array that could be packed decodes to the same items in order when each comes behind a tag of its own. |
| PbReceived.ZeroTagEnds | ios/Pods/nanopb/pb_decode.c:298-319 | A zero byte where a tag is due ends the message: whatever follows it is not looked at. |
| PbStored.AcceptedIsStored | ios/Pods/nanopb/pb_decode.c:934-1096 | Any bytes at all: if decoding accepts them, every value is within its buffer, its array and its integer width, recursively, strings have room for their terminator, and no one-of has two arms. |
| PbMalformed.CutVarintFails | ios/Pods/nanopb/pb_decode.c:187-287 | A varint cut off anywhere is refused by the 64-bit and the 32-bit reader and cannot be skipped. |
| PbMalformed.LongVarintFails | ios/Pods/nanopb/pb_decode.c:255-276 | Ten bytes none of which ends the number are refused by the 64-bit reader. |
| PbMalformed.Over32Fails | ios/Pods/nanopb/pb_decode.c:187-247 | Every number of 33 to 63 bits is refused where 32 bits are due. |
| PbIStream.EncodeThenDecode | ios/Pods/nanopb/pb_encode.c:528-550 | Encoder and decoder together give the message back; encoding succeeds whenever the bytes fit. |

## Left out

- User keys of the store, its cursors and the skip list are real numbers: only their order matters there, and every countable order embeds in the reals. Byte keys and the bytewise order appear in `Separators`, `Tables` and `Blocks`.
- Cache keys are numbers, as only their equality matters; hashes are arbitrary.
- Sequence numbers are assumed to stay below the 56-bit maximum; file numbers and sizes do not wrap around.
- I/O errors, background errors, paranoid checks, corrupted keys and shutdown are not modelled; only a missing table file is noticed when the store is opened.
- The memtable flush that may run inside a merge (`db_impl.cc:917-928`) is a step of its own here, before or after the merge.
- Compaction scores, seek statistics and read sampling: the level to compact is a parameter.
- Memtable sizes, table file sizes and compressed block sizes are parameters; Snappy is left out.
- `prev_log_number` is always zero; `reuse_logs` and `repair.cc` are left out.
- DbImpl.DBImpl.MakeRoomForWrite: returns without room where the source sleeps or waits for background work, because waiting is a matter of scheduling.
- DbImpl.DBImpl.Write: one batch at a time; joining concurrent batches is modelled in `GroupCommit`, over the same batches, and not inside the store object.
- DbImpl.DBImpl.CrashAndRecover: a crash falls between the steps of the state machine; one inside a step, or while recovering, is left out.
- TornLog.CrashAnywhere: only the live log may be torn, the other files are whole; the keys and values on the disk become bytes by a coding that covers them (`Codecs` has one for any store), and the entries of a table file are looked up by its number.
- Manifest.Recover: the four counters of a record are set together or not at all, as every writer of the engine does, so the errors for single missing ones become one; comparator names are checked in `DiskBytes`.
- GroupCommit.EachOnce: no log or sync error occurs; the group's failure status is left out.
- MergingIter.MergingIterator.Next: the children share no internal key, which the store's invariants ensure.
- StoreIter.NewInternalIterator: level-0 and deeper children are cursors over their entries; that table and two-level iterators behave as such cursors is what `BlockIters` and `TwoLevelIter` prove. A merge of one child is still a merge here, where the source hands out the child itself.
- Iterators stand on cursors with a position instead of a virtual Iterator interface, and block handles, block cache use and cleanup functions are left out.
- SkipLists.SearchIsExact: loads and stores are single steps in one order; weaker memory orders and the arena are left out, and a node is named by its key.
- Crc32c.Extend: the look-up tables are given by what their entries mean, one-byte and sixteen-byte zero advances, not by their literal contents; the accelerated path is left out.
- The log reader starts at offset zero and reports are counted, not sized; resynchronisation after an initial offset is left out.
- LogDamage.DamageIsLocal: the damaged record keeps its length, or its length field reaches past a block that is not the last; with another length inside the block the reader looks at other bytes, whose checksum may match by chance.
- LogDamage.FlippedByte: wider damage than four neighbouring bytes may leave the checksum as it was, as no 32-bit checksum can find all of it.
- FilterBlocks.FilterBlockBuilder.Finish: offsets are numbers beside the filter bytes rather than encoded words, and collected keys are a list rather than one flattened buffer.
- Tables.InternalGet: index and data blocks are sequences of entries; that a block's bytes behave as its entries is what `BlockIters` proves.
- BlockIters.BlockIter.Seek: the block is a well-formed one; the corruption exits are left out, as decoding never fails there.
- TableBuilders.TableBuilder.Finish: footer, metaindex block and checksums of blocks are left out.
- LruCaches.LRUCache.Insert: the doubly linked lists are sequences of entries; the splicing of their pointers is left out, and so are the shards.
- EditCoding.EncodeTo: deleted files come as a list in the set's order; any order decodes to the same set.
- PbIStream.FieldIter.Find: on a descriptor without fields the source matches its terminator when asked for tag 0, which only a malformed tag can ask for; the model finds nothing there.
- PbRoundTrip.DecodeUndoesEncode: encoded messages are shorter than 2^32 bytes and array and string capacities fit 32 bits, as the length prefixes demand.
- nanopb callbacks, extensions, malloc-backed pointer fields, arrays without a counter, and delimited and null-terminated streams are left out; a message is a tree indexed by its descriptor, not a C structure.
- The app's own code, registrants, BoringSSL and platform environments are left out: glue, operating-system calls or one-expression helpers.
