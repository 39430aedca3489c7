# Models of LevelDB's store, log and group commit, and of libuv's thread pool and Punycode encoder

The application in this repository is a launcher around vendored libraries. This project models the
parts of those libraries with the most state and branching and proves what they are for. Code that
changes things step by step is modelled by classes, loops and `modifies` clauses; each method is proved
against a specification function or relation, and the theorems are about those.

**The LevelDB store** (`Keys`, `Batches`, `Versions`, `Selection`, `Compactions`, `Preservation`,
`Transitions`, `Manifest`, `Store`, `Steps`, `Recovery`, `Runs`, `Database`, `Resurrection`). The state is the memtable,
the immutable memtable, seven levels of table files, the logs, the manifest and the snapshots. The
specification is the plain history of writes. `Runs.RunReadsHistory` says that in every state reachable
by writes, memtable switches, flushes, trivial moves, compactions, snapshots and crashes, a read at a
live snapshot returns the newest write at or below it; `Runs.ReadsLatestWrite` says the same in terms of
the actions alone, and `Runs.ReadWasWritten` that nothing is ever made up. `Steps.CompactionDrops` is the
other half of preservation: a compaction leaves nothing behind that it should have dropped.
`Database.DBImpl` is the imperative code whose methods take exactly those steps.

Two faults are part of the result. The first is in the compaction inputs. `SetupOtherInputs` completes the compaction inputs at
`level` with boundary files but not those at `level+1` (db/version_set.cc:1407 and 1422). When a user key
continues in a level+1 file that is left out, the drop rule can remove a tombstone and uncover an older
value: `Preservation.TombstoneResurrection` is such a version, and `Resurrection.DeletedKeyComesBack` is a
run from a new database that ends in it. `Preservation.CompactionPreservesReads`
gives the exact condition under which a compaction changes no read (`NoResurrection`, an if and only if),
`Preservation.BoundaryCheckSuffices` the check on file bounds that would be enough, and the run theorems
carry that condition on compaction steps and on nothing else.

The second is in the logs. `MakeRoomForWrite` abandons the old log without syncing it
(db/db_impl.cc:1345-1363), so a crash of the operating system can cut both logs. Recovery still restores
the invariant, but the history that survives is a prefix of the real one if and only if nothing was lost
from the older log or nothing is left of the newer one (`Recovery.SurvivingHistory`);
`Resurrection.GapReachable` reaches a store where it need not be.

**The LevelDB iterators** (`Merging`, `Iteration`, `Children`, `Scans`). The merging iterator and the database
iterator as classes with all their direction switches. Any sequence of Seek, SeekToFirst, SeekToLast, Next
and Prev behaves as a cursor over one list: the strictly ascending keys visible at the snapshot with their
values, which `Scans.RunIterates` shows to be the history's in every reachable state of the store.

**The LevelDB log** (`Crc32c`, `CrcProof`, `FastCrc`, `LogFormat`, `LogReader`, `TornLog`, `Damage`). The
writer and the reader as classes over bytes; the reader's specification is total on arbitrary bytes.
`TornLog.TornTail`: for every list of records and every byte prefix of the file written, the reader returns
exactly the records that lie wholly inside the prefix and reports no corruption. `Damage.DamageContained`:
if a fragment was damaged on disk, the reader loses the records from the damaged one to the last that
begins in the same block, reports it, and returns all others. It rests on `CrcProof.BurstDetected`, that the
checksum detects every change within four consecutive bytes; `FastCrc.ExtendFast` is the code's checksum
loop with its tables and four interleaved strides.

**The manifest's bytes** (`EditFormat`). Varints, length-prefixed strings and tagged fields, with a decoder
that is total on arbitrary bytes; every edit survives, and `EditFormat.TornManifest` joins this with the
log: any byte prefix of a manifest reads as the edits wholly inside it.

**The write batch's bytes** (`BatchFormat`). The representation that `Put`, `Delete` and `Append` extend in
place, its scan on arbitrary bytes, and `BatchFormat.TornBatches` for a write-ahead log of batches.

**Group commit** (`WriteQueue`, `GroupCommit`, `GroupCommitProof`, `GroupCommitRuns`, `Writers`,
`GroupDurability`, `GroupStore`). The
leader/follower protocol of `DBImpl::Write` as critical sections of any number of writers: exactly once,
in order, contiguous sequence ranges, whole batches visible, sync writes logged by sync leaders only and
kept by every prefix of the log that keeps what was synced, no
lost wakeup, and every run of the writers' own steps ends with every writer back and correctly told. Every
run of writers is a run of the store that takes one write step per committed group.

**The libuv thread pool** (`ThreadPool`, `ThreadPoolProof`, `ThreadPoolRuns`, `ThreadPoolOrder`, `Threads`).
Workers, submitters, cancellation and the event loop as atomic steps in any interleaving: `done` exactly
once, run once or cancelled and never run, the slow lane's bound, first in first out in each lane and in
the loop queue, no lost wakeup, and completion of all submitted work within a computed number of steps.

**The libuv IDNA label encoder** (`Punycode`, `PunycodeProof`, `PunycodeSamples`, `Idna`). The decoder of section 6.2 of
RFC 3492 is the specification, tied to the RFC by its digits and samples in full; the encoder, with its 32-bit arithmetic and bounded output, is a method.
Decoding what it sent gives back the label; it reports overflow exactly when an integer of the encoding
needs more than 32 bits, and never for labels of up to 3855 code points.

## Conventions

- User keys are reals: only their order is used, and every countable total order embeds. The value type
  does not take part in the order of internal keys, because no two entries share a sequence number.
- File numbers, sizes and sequence numbers are unbounded. Running out of sequence numbers (2^56 - 1) is
  excluded by an assertion where they are packed (db/dbformat.cc:14-17), so a write has that precondition.
- Choices of the environment are parameters: which file a size or seek compaction starts from, when an
  output file is full, table sizes, how much of each log survives a crash, whether room was made
  for a write, the outcome of an append or a sync, which waiting thread a signal wakes.
- `hide` statements only tell the verifier which definitions a proof does not need.

## Model

| member | source | states |
|---|---|---|
| `Keys.TableGet` | ios/Pods/leveldb-library/db/memtable.cc:100-134 | a seek in a sorted run to (key, snapshot) finds the newest entry at or below the snapshot, or shows there is none |
| `Keys.InsertSorted` | ios/Pods/leveldb-library/db/memtable.cc:75-98 | adding an entry with a new internal key keeps the memtable sorted |
| `Keys.InsertAllSorted` | ios/Pods/leveldb-library/db/write_batch.cc:115-137 | inserting newer entries of a batch one by one keeps the memtable sorted |
| `Keys.LayeredFind` | ios/Pods/leveldb-library/db/version_set.cc:326-421 | if one layer is newer than another, looking in it first finds what the union would |
| `Keys.HistoryFindsNewest` | ios/Pods/leveldb-library/db/db_impl.cc:1100-1145 | the plain history scan, the specification of reads, returns the newest visible write |
| `Versions.FindFile` | ios/Pods/leveldb-library/db/version_set.cc:88-106 | binary search returns the split point: every file before it ends before the key, every file from it on does not |
| `Versions.SortedLevelGet` | ios/Pods/leveldb-library/db/version_set.cc:365-382 | one candidate file suffices: the result is the newest visible entry of the whole sorted level |
| `Versions.CoveringFiles` | ios/Pods/leveldb-library/db/version_set.cc:349-364 | exactly the level-0 files that cover the key, ordered newest first |
| `Versions.NewestFileWins` | ios/Pods/leveldb-library/db/version_set.cc:349-364 | the first hit in newest-first order is the newest entry of all of level 0 |
| `Versions.Level0Get` | ios/Pods/leveldb-library/db/version_set.cc:349-364 | level-0 lookup equals lookup in the union of its files |
| `Versions.Get` | ios/Pods/leveldb-library/db/version_set.cc:326-421 | level-by-level lookup that stops at the first hit equals lookup in the union of all levels |
| `Selection.GetOverlappingInputs` | ios/Pods/leveldb-library/db/version_set.cc:519-559 | the restarting scan terminates; at level 0 it returns the files overlapping the least range that contains the request and is closed under overlap, elsewhere those overlapping the request |
| `Selection.OutsideShrinks` | ios/Pods/leveldb-library/db/version_set.cc:541-556 | each restart leaves strictly fewer files outside the range: the termination measure |
| `Selection.FindLargestKey` | ios/Pods/leveldb-library/db/version_set.cc:1326-1341 | the largest upper bound among the files, attained by one of them |
| `Selection.FindSmallestBoundaryFile` | ios/Pods/leveldb-library/db/version_set.cc:1344-1362 | the boundary file with the smallest start, or none exactly if there is no boundary file |
| `Selection.AddBoundaryInputs` | ios/Pods/leveldb-library/db/version_set.cc:1378-1401 | terminates; only boundary files are added, each continuing a key of the chain; a contiguous run stays contiguous and ends where the next file starts at a larger user key |
| `Selection.GetRange` | ios/Pods/leveldb-library/db/version_set.cc:1205-1225 | both bounds contain all files and are attained |
| `Selection.SetupOtherInputs` | ios/Pods/leveldb-library/db/version_set.cc:1403-1462 | for every seed the inputs are closed at `level`, include the seed, and at level+1 cover the inputs' user-key range; the inputs widened to the whole range are taken exactly if they add files at `level`, add none at level+1 and stay below the size limit |
| `Selection.PickCompaction` | ios/Pods/leveldb-library/db/version_set.cc:1305-1322 | the same for a compaction that starts from one picked file |
| `Selection.CutOff` | ios/Pods/leveldb-library/db/version_set.cc:1476-1487 | the shortest prefix of the inputs that reaches the size limit, or all of them |
| `Selection.CompactRange` | ios/Pods/leveldb-library/db/version_set.cc:1464-1495 | nothing to do exactly if no file overlaps the range; otherwise sound inputs |
| `Compactions.MergeInputs` | ios/Pods/leveldb-library/db/version_set.cc:1237-1267 | the merge of the input files is sorted and holds exactly their entries |
| `Compactions.Compaction.IsBaseLevelForKey` | ios/Pods/leveldb-library/db/version_set.cc:1533-1552 | for keys asked in non-decreasing order the advancing cursors answer what a scan of all deeper files would |
| `Compactions.CursorSuffices` | ios/Pods/leveldb-library/db/version_set.cc:1536-1550 | files before the cursor end below the key and files after it start above it, so none covers the key |
| `Compactions.HiddenByPrevious` | ios/Pods/leveldb-library/db/db_impl.cc:936-948 | an input is hidden by a newer one visible at the smallest snapshot if and only if its predecessor in the merge is such a one |
| `Compactions.ShouldDrop` | ios/Pods/leveldb-library/db/db_impl.cc:930-963 | the running test with `last_sequence_for_key` drops exactly the hidden entries and the tombstones at or below the smallest snapshot that no deeper file may continue |
| `Compactions.DoCompactionWork` | ios/Pods/leveldb-library/db/db_impl.cc:878-1010 | the outputs are non-empty and sorted across files; an output tombstone at or below the smallest snapshot has a deeper file over its key, no key has two outputs at or below it, and an input is missing only for one of these reasons; two outputs share a file exactly if nothing asked for a cut between them |
| `Compactions.KeptExactly` | ios/Pods/leveldb-library/db/db_impl.cc:930-963 | the drop rule read off the outputs: what must be gone is gone, and nothing else is |
| `Compactions.FilesCut` | ios/Pods/leveldb-library/db/db_impl.cc:921-994 | output files end before an entry for which `ShouldStopBefore` asks and after a kept entry that fills the file, dropped entries included, and nowhere else |
| `Preservation.WhereOlder` | ios/Pods/leveldb-library/db/version_set.cc:1403-1462 | an older entry for an input's user key is in the inputs, in a deeper level or in a level+1 file left out |
| `Preservation.CompactionPreservesReads` | ios/Pods/leveldb-library/db/db_impl.cc:930-963 | all reads at or above the smallest snapshot are unchanged if and only if no dropped tombstone uncovers a value left out at level+1 |
| `Preservation.BoundaryCheckSuffices` | ios/Pods/leveldb-library/db/version_set.cc:1364-1377 | a boundary check at level+1 too would rule that out |
| `Preservation.TombstoneResurrection` | ios/Pods/leveldb-library/db/version_set.cc:1407-1422 | a well-formed version and the inputs the code chooses in it for which a deleted key comes back |
| `Resurrection.DeletedKeyComesBack` | ios/Pods/leveldb-library/db/version_set.cc:1403-1462 | a run from a new database, sound in every step, reaches that version; the compaction enabled there is not sound and makes a deleted key readable |
| `Transitions.PlacedKeeps` | ios/Pods/leveldb-library/db/db_impl.cc:491-533 | putting a table of newer entries where it fits keeps levels sorted and disjoint and newer above older, and adds exactly its entries |
| `Transitions.ReplacedKeeps` | ios/Pods/leveldb-library/db/db_impl.cc:860-876 | replacing inputs by outputs keeps the same and removes exactly what was dropped |
| `Manifest.OrderedUnique` | ios/Pods/leveldb-library/db/version_set.cc:599-611 | a set of files has one order by smallest key and number |
| `Manifest.MaybeAdd` | ios/Pods/leveldb-library/db/version_set.cc:741-754 | adds the file unless it was deleted and keeps the order |
| `Manifest.SaveLevel` | ios/Pods/leveldb-library/db/version_set.cc:695-721 | for any ordered base and added files: the merge holds exactly base minus deleted plus added, in order, and in strict order unless a base file and an added file share smallest key and number |
| `Manifest.Builder.Apply` | ios/Pods/leveldb-library/db/version_set.cc:650-692 | any edit: deletions, then additions that cancel deletions and are not entered twice; with new numbers it acts on the sets of numbers and files as the edit says |
| `Manifest.Builder.SaveTo` | ios/Pods/leveldb-library/db/version_set.cc:695-739 | every level is base plus the recorded changes, in order |
| `Manifest.ReplayFusion` | ios/Pods/leveldb-library/db/version_set.cc:924-998 | one builder for all edits gives the level that one builder per edit gives, when no number is added twice |
| `Manifest.ReuseResurrects` | ios/Pods/leveldb-library/db/version_set.cc:689-690 | and not otherwise: with a number added again after its deletion the deleted file comes back |
| `Manifest.Recover` | ios/Pods/leveldb-library/db/version_set.cc:886-1011 | on any edits recovery fails exactly if a required number was never written, and otherwise rebuilds ordered levels; if no number was added twice they are the version the edits built one by one, with the last log number and sequence and the next file number plus one |
| `Manifest.DescribesUnique` | ios/Pods/leveldb-library/db/version_set.cc:990-1003 | a manifest describes one version only |
| `Store.LayersRefineHistory` | ios/Pods/leveldb-library/db/db_impl.cc:1120-1137 | memtable, then immutable memtable, then levels answers what the history answers |
| `Store.Get` | ios/Pods/leveldb-library/db/db_impl.cc:1100-1145 | the value of the newest committed write at or below the snapshot, or at the last sequence |
| `Steps.WriteKeeps` | ios/Pods/leveldb-library/db/db_impl.cc:1202-1237 | a write keeps the invariant and appends its entries to the history |
| `Batches.BatchReads` | ios/Pods/leveldb-library/db/write_batch.cc:98-128 | a batch appended to a history: each key it names reads as the last operation on it, other keys and older snapshots read as before |
| `Steps.WriteReads` | ios/Pods/leveldb-library/db/db_impl.cc:1202-1237 | read your writes, in terms of the operations alone; other keys and older snapshots read as before |
| `Steps.UseUpKeeps` | ios/Pods/leveldb-library/db/db_impl.cc:1223-1236 | a group that could not be logged or synced uses up its numbers and leaves the history alone |
| `Steps.SwitchKeeps` | ios/Pods/leveldb-library/db/db_impl.cc:1345-1367 | a new log and memtable change no history and keep the invariant, given no immutable memtable |
| `Steps.FlushKeeps` | ios/Pods/leveldb-library/db/db_impl.cc:535-566 | flushing at any level the picking rule allows keeps the invariant and the history |
| `Steps.CompactKeeps` | ios/Pods/leveldb-library/db/db_impl.cc:860-876 | a compaction that uncovers nothing keeps the invariant and the history |
| `Steps.CompactionDrops` | ios/Pods/leveldb-library/db/db_impl.cc:888-963 | an input is written out if and only if no newer input of its key is seen by all snapshots, and it is not a tombstone seen by all snapshots whose key no file two levels below or deeper covers |
| `Steps.MoveKeeps` | ios/Pods/leveldb-library/db/db_impl.cc:718-725 | a trivial move keeps the invariant and the history, with no further condition |
| `Steps.SnapshotFloor` | ios/Pods/leveldb-library/db/db_impl.cc:890-894 | the oldest snapshot, or the last sequence, bounds every live snapshot from below |
| `Steps.DurableAfter` | ios/Pods/leveldb-library/db/version_set.cc:801-884 | appending an installed edit to the manifest keeps it a description of the current version that recovery can use |
| `Recovery.SurvivingHistory` | ios/Pods/leveldb-library/db/db_impl.cc:316-355 | when a crash cuts either log, what recovery reads is part of the history in order; it is a prefix if and only if nothing was lost from the older log or nothing is left of the newer one |
| `Recovery.PlaceAll` | ios/Pods/leveldb-library/db/db_impl.cc:371-489 | the level-0 tables made while replaying logs refine the history extended by the replayed writes |
| `Recovery.SnapshotManifest` | ios/Pods/leveldb-library/db/version_set.cc:1088-1116 | a fresh manifest holding a snapshot describes the version |
| `Recovery.CrashKeeps` | ios/Pods/leveldb-library/db/db_impl.cc:280-369 | recovery keeps the invariant for the surviving history: all that was flushed, only writes that were made, a prefix exactly if there is no gap, everything if nothing was cut |
| `Recovery.CrashAtomic` | ios/Pods/leveldb-library/db/db_impl.cc:371-489 | a logged batch survives a crash as a whole or not at all: each of its operations is in the recovered history if and only if its record lies in the part of its log that is left |
| `Resurrection.GapReachable` | ios/Pods/leveldb-library/db/db_impl.cc:1345-1363 | the gap is real: switching logs does not sync the old one, and a reachable store can lose an earlier write and keep a later one |
| `Runs.NextKeeps` | ios/Pods/leveldb-library/db/db_impl.cc:688-767 | every step keeps the invariant; only writes extend the history and only crashes take from it |
| `Runs.RunKeepsInv` | ios/Pods/leveldb-library/db/db_impl.cc:688-767 | the invariant holds in every state of every run |
| `Runs.RunReadsHistory` | ios/Pods/leveldb-library/db/db_impl.cc:1100-1145 | in every state of every run a read at a live snapshot or at the newest state equals the read of the history |
| `Runs.SnapshotReadsRepeat` | ios/Pods/leveldb-library/db/db_impl.cc:1166-1174 | between two states without a crash in between, what a snapshot sees does not change |
| `Runs.ReadsLatestWrite` | ios/Pods/leveldb-library/db/db_impl.cc:1100-1145 | in terms of the actions of a run alone: the read path, now or at a live snapshot taken then, returns what the last operation on the key before then wrote, or nothing if it was a deletion |
| `Runs.NeverWritten` | ios/Pods/leveldb-library/db/db_impl.cc:1100-1145 | a key no write has named is not found |
| `Runs.ReadWasWritten` | ios/Pods/leveldb-library/db/db_impl.cc:280-369 | in any run, with any crashes, whatever a read returns was written under that key by an earlier write |
| `Database.SomeFileOverlapsRange` | ios/Pods/leveldb-library/db/version_set.cc:122-156 | the binary-search form and the scan both answer whether some file overlaps the range |
| `Database.PickLevelForMemTableOutput` | ios/Pods/leveldb-library/db/version_set.cc:491-516 | the level is at most 2, no file overlaps on the way or at it, the levels passed were light enough, and it stops only at level 2, at an overlap or above too many bytes |
| `Database.Install` | ios/Pods/leveldb-library/db/version_set.cc:801-826 | one builder applied to the current version installs the edit |
| `Database.IsTrivialMove` | ios/Pods/leveldb-library/db/version_set.cc:1515-1523 | true if and only if one file at the level, none below and few enough bytes two levels down |
| `Database.CompactedTables` | ios/Pods/leveldb-library/db/db_impl.cc:878-1010 | merging, dropping and cutting give well-formed, disjoint output files holding the inputs minus the dropped entries |
| `Database.RecoverLogs` | ios/Pods/leveldb-library/db/db_impl.cc:371-489 | the tables written while replaying hold the logs' entries in order, with fresh numbers |
| `Database.DBImpl.Write` | ios/Pods/leveldb-library/db/db_impl.cc:1202-1237 | takes the write step: invariant kept, history extended by exactly the batch; every key the batch names then reads as its last operation, other keys and older snapshots read as before |
| `Database.DBImpl.SwitchMemtable` | ios/Pods/leveldb-library/db/db_impl.cc:1345-1367 | takes the switch step and leaves the history alone |
| `Database.DBImpl.CompactMemTable` | ios/Pods/leveldb-library/db/db_impl.cc:535-566 | takes the flush step at the picked level and leaves the history alone |
| `Database.DBImpl.PerformCompaction` | ios/Pods/leveldb-library/db/db_impl.cc:860-1048 | takes the compaction step; history and invariant kept when no tombstone uncovers anything |
| `Database.DBImpl.BackgroundCompaction` | ios/Pods/leveldb-library/db/db_impl.cc:711-743 | from any picked file: a move of that file, with history and invariant kept, or a compaction that includes it |
| `Database.DBImpl.Get` | ios/Pods/leveldb-library/db/db_impl.cc:1100-1145 | reads the history |
| `Database.DBImpl.TakeSnapshot` | ios/Pods/leveldb-library/db/snapshot.h:57-70 | the newest snapshot is appended at the last sequence |
| `Database.DBImpl.ReleaseSnapshot` | ios/Pods/leveldb-library/db/snapshot.h:79-86 | that snapshot and no other is removed |
| `Database.DBImpl.CrashAndRecover` | ios/Pods/leveldb-library/db/db_impl.cc:1474-1515 | reopening after a crash that cut the logs anywhere: the invariant holds again and the history is what survives, a prefix exactly if there is no gap |
| `Merging.FindSmallest` | ios/Pods/leveldb-library/table/merger.cc:148-161 | the child with the smallest current key, or none exactly if all are exhausted |
| `Merging.FindLargest` | ios/Pods/leveldb-library/table/merger.cc:163-176 | the child with the largest current key, or none exactly if all are exhausted |
| `Merging.SwitchToForward` | ios/Pods/leveldb-library/table/merger.cc:63-75 | repositioning by seeking the current key puts every other child just after it |
| `Merging.SwitchToReverse` | ios/Pods/leveldb-library/table/merger.cc:89-104 | and, stepping back or to the end, just before it |
| `Merging.SmallestHead` | ios/Pods/leveldb-library/table/merger.cc:55-79 | with every child at its first entry of rank t or more, the smallest head is entry t of the merge |
| `Merging.LargestHead` | ios/Pods/leveldb-library/table/merger.cc:81-108 | the mirror image for moving backward, including the position before everything |
| `Merging.MergingIterator.SeekToFirst` | ios/Pods/leveldb-library/table/merger.cc:31-37 | the cursor stands at the first entry of the merge |
| `Merging.MergingIterator.SeekToLast` | ios/Pods/leveldb-library/table/merger.cc:39-45 | the cursor stands at the last entry of the merge |
| `Merging.MergingIterator.Seek` | ios/Pods/leveldb-library/table/merger.cc:47-53 | the cursor stands at the first entry at or after the target |
| `Merging.MergingIterator.Next` | ios/Pods/leveldb-library/table/merger.cc:55-79 | one entry on in the merge, whichever direction it was moving |
| `Merging.MergingIterator.Prev` | ios/Pods/leveldb-library/table/merger.cc:81-108 | one entry back in the merge, or off it, whichever direction it was moving |
| `Iteration.PairsAreReads` | ios/Pods/leveldb-library/db/db_iter.cc:34-38 | the list the iterator runs over is strictly ascending and holds exactly the keys a read at the snapshot finds, with their values |
| `Iteration.ShownIsRead` | ios/Pods/leveldb-library/db/db_iter.cc:168-198 | an entry is shown if and only if a read of its key returns its value |
| `Iteration.DBIter.FindNextUserEntry` | ios/Pods/leveldb-library/db/db_iter.cc:168-198 | stops at the first entry shown beyond the key to skip, passing newer, deleted and overwritten entries |
| `Iteration.DBIter.FindPrevUserEntry` | ios/Pods/leveldb-library/db/db_iter.cc:227-267 | stops with the last entry shown up to the position, saved, and the internal iterator just before its key |
| `Iteration.DBIter.StepOut` | ios/Pods/leveldb-library/db/db_iter.cc:203-222 | scanning back from the current entry passes nothing that is visible |
| `Iteration.DBIter.AtIndex` | ios/Pods/leveldb-library/db/db_iter.cc:63-71 | valid exactly inside the list, and then key and value are those of its place |
| `Iteration.DBIter.SeekToFirst` | ios/Pods/leveldb-library/db/db_iter.cc:283-292 | place 0 of the list |
| `Iteration.DBIter.Seek` | ios/Pods/leveldb-library/db/db_iter.cc:269-281 | the first place whose key is at or after the target |
| `Iteration.DBIter.SeekToLast` | ios/Pods/leveldb-library/db/db_iter.cc:294-299 | the last place of the list |
| `Iteration.DBIter.Next` | ios/Pods/leveldb-library/db/db_iter.cc:141-166 | one place on, also after moving backward |
| `Iteration.DBIter.Prev` | ios/Pods/leveldb-library/db/db_iter.cc:200-225 | one place back or off the list, also after moving forward |
| `Children.MergeFamily` | ios/Pods/leveldb-library/table/merger.cc:14-25 | any sorted lists without a common internal key and their merge are what the merging iterator needs |
| `Children.VersionFamily` | ios/Pods/leveldb-library/db/version_set.cc:230-246 | level-0 files one by one and deeper levels as a whole are such lists and hold all entries of the version |
| `Scans.StoreFamily` | ios/Pods/leveldb-library/db/db_impl.cc:1068-1078 | so are memtable, immutable memtable and version of any store that keeps the invariant |
| `Scans.EverythingReads` | ios/Pods/leveldb-library/db/db_impl.cc:1120-1137 | a read over the union of memtables and files is the layered read |
| `Scans.IteratorShowsHistory` | ios/Pods/leveldb-library/db/db_impl.cc:1062-1087 | the merge of the store's lists shows at a snapshot exactly what the history shows there, in ascending order |
| `Scans.RunIterates` | ios/Pods/leveldb-library/db/db_impl.cc:1147-1157 | the same in every state of every run, at every live snapshot |
| `Scans.NewIterator` | ios/Pods/leveldb-library/db/db_impl.cc:1147-1157 | an iterator opened on a store runs over that list |
| `Scans.ScanStore` | ios/Pods/leveldb-library/db/db_iter.cc:141-292 | opening an iterator and scanning to the end lists what the history shows |
| `Scans.Collect` | ios/Pods/leveldb-library/db/db_iter.cc:141-292 | a scan from the first entry to the end collects the whole list |
| `Crc32c.ExtendConcat` | ios/Pods/leveldb-library/util/crc32c.cc:276-378 | extending over a concatenation is extending twice |
| `Crc32c.UnmaskMask` | ios/Pods/leveldb-library/util/crc32c.h:29-38 | unmasking undoes masking on all 32-bit words |
| `Crc32c.MaskUnmask` | ios/Pods/leveldb-library/util/crc32c.h:29-38 | masking undoes unmasking, so different stored words stand for different checksums |
| `Crc32c.MaskValues` | ios/Pods/leveldb-library/util/crc32c.h:22-32 | the rotation by 15 bits and the constant, on four words |
| `CrcProof.StepByteInjective` | ios/Pods/leveldb-library/util/crc32c.cc:287-291 | one byte moves different registers to different registers, and different bytes move one register to different registers |
| `CrcProof.StepWord` | ios/Pods/leveldb-library/util/crc32c.cc:313-320 | four bytes at once: add the word to the register and shift 32 times |
| `CrcProof.BurstDetected` | ios/Pods/leveldb-library/util/crc32c.cc:276-378 | any change confined to four consecutive bytes, anywhere in the data, changes the checksum |
| `CrcProof.OneByteDetected` | ios/Pods/leveldb-library/util/crc32c.cc:276-378 | two strings that differ in one byte have different checksums |
| `FastCrc.TableStep` | ios/Pods/leveldb-library/util/crc32c.cc:287-291 | one table look-up is eight steps of the shift register |
| `FastCrc.StrideByTables` | ios/Pods/leveldb-library/util/crc32c.cc:294-300 | the four stride tables together move a word sixteen bytes on |
| `FastCrc.Rotate` | ios/Pods/leveldb-library/util/crc32c.cc:350-358 | reading a word while carrying the oldest stride over it is one step of the combined register |
| `FastCrc.ExtendFast` | ios/Pods/leveldb-library/util/crc32c.cc:276-378 | the loop with head bytes, four interleaved strides and tail equals the byte-by-byte definition, for every length and alignment |
| `FastCrc.ByteTableEntries` | ios/Pods/leveldb-library/util/crc32c.cc:20-63 | the single-bit entries of the byte table as the code lists them |
| `FastCrc.EntriesAdd` | ios/Pods/leveldb-library/util/crc32c.cc:20-63 | the other entries follow from them by exclusive or |
| `FastCrc.FirstValues` | ios/Pods/leveldb-library/util/crc32c.cc:284-376 | the table is what a byte does to an empty register; two checksums in full |
| `Crc32c.DecodeEncodeFixed32` | ios/Pods/leveldb-library/util/coding.h:60-72 | decoding undoes encoding |
| `LogFormat.Writer.EmitPhysicalRecord` | ios/Pods/leveldb-library/db/log_writer.cc:82-108 | appends header and payload of one physical record |
| `LogFormat.Writer.AddRecord` | ios/Pods/leveldb-library/db/log_writer.cc:34-80 | the fragmenting loop appends exactly the fragments the format prescribes from any file offset |
| `LogReader.Reader.ReadPhysicalRecord` | ios/Pods/leveldb-library/db/log_reader.cc:189-271 | the outcome, remaining buffer and reported drops on arbitrary bytes |
| `LogReader.Reader.ReadRecord` | ios/Pods/leveldb-library/db/log_reader.cc:56-174 | reassembles fragments as specified on arbitrary bytes, including every corruption branch |
| `TornLog.ParseWritten` | ios/Pods/leveldb-library/db/log_reader.cc:222-270 | what was written as one physical record is parsed back, checksum included |
| `TornLog.ParseTorn` | ios/Pods/leveldb-library/db/log_reader.cc:222-233 | a record cut inside its payload at the end of the file reads as end of file, not as corruption |
| `TornLog.RecordStep` | ios/Pods/leveldb-library/db/log_reader.cc:56-174 | reading at a record boundary of a truncated file returns the whole record if it is inside and nothing otherwise |
| `TornLog.TornTail` | ios/Pods/leveldb-library/db/log_reader.cc:56-271 | for every list of records and every prefix of the file: exactly the records wholly inside, in order, no corruption reported |
| `TornLog.RoundTrip` | ios/Pods/leveldb-library/db/log_writer.cc:34-108 | reading the whole file gives the records back |
| `TornLog.WriteAll` | ios/Pods/leveldb-library/db/log_writer.cc:23-30 | reopening the writer at the file's length, at any point, produces the same file |
| `TornLog.ReadBack` | ios/Pods/leveldb-library/db/log_reader.cc:56-174 | calling the reader until it returns nothing yields the specified records and drops for any bytes |
| `Damage.HeaderBytes` | ios/Pods/leveldb-library/db/log_writer.cc:87-97 | the bytes of a header: masked checksum, length and type, least significant byte first |
| `Damage.FragmentLayout` | ios/Pods/leveldb-library/db/log_writer.cc:40-78 | blocks of 32768 bytes, headers of 7, types 1 to 4 by position in the record; no fragment crosses a block, and one that is not the last fills its block |
| `Damage.TrailerIsZero` | ios/Pods/leveldb-library/db/log_writer.cc:45-55 | the rest of a block that is too short for a header is filled with zeros |
| `Damage.ParseHit` | ios/Pods/leveldb-library/db/log_reader.cc:243-254 | a physical record whose checksum was changed, or up to four consecutive bytes of type and payload, is never returned: the rest of the block is dropped and reported, unless it looks like preallocated space |
| `Damage.ReturnedWhole` | ios/Pods/leveldb-library/db/log_reader.cc:56-174 | on any bytes, a record returned is a FULL record or a FIRST, any MIDDLEs and a LAST that follow each other, never a part of one |
| `Damage.TakeAccounts` | ios/Pods/leveldb-library/db/log_reader.cc:84-170 | every payload byte read is returned, still held or reported as dropped |
| `Damage.DamageContained` | ios/Pods/leveldb-library/db/log_reader.cc:56-271 | one fragment of a written file was damaged: exactly the records from the damaged one to the last that begins in the same block are lost, all others are returned in order, and the loss is reported |
| `Damage.OneByteContained` | ios/Pods/leveldb-library/db/log_reader.cc:222-254 | in particular for any one byte of a fragment other than its two length bytes |
| `EditFormat.VarintRoundTrip` | ios/Pods/leveldb-library/util/coding.cc:75-157 | every 32- or 64-bit number is read back from its varint, whatever follows |
| `EditFormat.GetPutSlice` | ios/Pods/leveldb-library/util/coding.cc:98-101 | every length-prefixed string is read back |
| `EditFormat.ItemRoundTrip` | ios/Pods/leveldb-library/db/version_edit.cc:120-194 | every tagged field is read back, whatever follows |
| `EditFormat.EditRoundTrip` | ios/Pods/leveldb-library/db/version_edit.cc:41-205 | decoding undoes encoding for every edit with numbers and strings in range |
| `EditFormat.EncodeTo` | ios/Pods/leveldb-library/db/version_edit.cc:41-85 | the loops write the fields in the specified order |
| `EditFormat.EditBytes` | ios/Pods/leveldb-library/db/version_edit.cc:14-85 | an edit that uses every tag, byte by byte |
| `EditFormat.Decode` | ios/Pods/leveldb-library/db/version_edit.cc:107-205 | the loop is the specified decoder on any bytes, and gives back every encoded edit |
| `EditFormat.TornManifest` | ios/Pods/leveldb-library/db/version_set.cc:926-969 | reading any byte prefix of a manifest gives the edits whose records lie wholly inside it, and no corruption |
| `BatchFormat.ScanData` | ios/Pods/leveldb-library/db/write_batch.cc:42-80 | the handler sees the changes of a batch in the order in which they were made |
| `BatchFormat.RepRoundTrip` | ios/Pods/leveldb-library/db/write_batch.cc:42-96 | every batch is read back in full, with its sequence number, if and only if its count stays below 2^31 |
| `BatchFormat.WriteBatch.Put` | ios/Pods/leveldb-library/db/write_batch.cc:98-103 | appends the change and raises the count in place |
| `BatchFormat.WriteBatch.Delete` | ios/Pods/leveldb-library/db/write_batch.cc:105-109 | appends the deletion and raises the count in place |
| `BatchFormat.WriteBatch.Append` | ios/Pods/leveldb-library/db/write_batch.cc:144-148 | the changes of both batches in order under one header |
| `BatchFormat.WriteBatch.SetSequence` | ios/Pods/leveldb-library/db/write_batch.cc:94-96 | renumbers the batch and leaves its changes alone |
| `BatchFormat.WriteBatch.IterateChanges` | ios/Pods/leveldb-library/db/write_batch.cc:42-80 | a batch built by these methods shows the handler exactly its changes |
| `BatchFormat.Iterate` | ios/Pods/leveldb-library/db/write_batch.cc:42-80 | the scan on arbitrary bytes: what the handler has seen when it ends, and which error ended it |
| `BatchFormat.InsertInto` | ios/Pods/leveldb-library/db/write_batch.cc:115-137 | the changes are numbered from the batch's sequence number on |
| `BatchFormat.RepBytes` | ios/Pods/leveldb-library/db/write_batch.cc:5-14 | a batch byte by byte |
| `BatchFormat.TornBatches` | ios/Pods/leveldb-library/db/db_impl.cc:413-434 | reading any byte prefix of a write-ahead log gives the batches wholly inside it, in order and in full, and no corruption |
| `WriteQueue.BuildBatchGroup` | ios/Pods/leveldb-library/db/db_impl.cc:1260-1306 | the group is the longest run of followers the sync and size rules admit, its operations in queue order, the caller's batch copied exactly if a follower writes |
| `WriteQueue.GroupBounded` | ios/Pods/leveldb-library/db/db_impl.cc:1267-1303 | a small leader's group grows by at most 128 KB; any other group stays within 1 MB or is the leader's own batch alone |
| `WriteQueue.GroupMaximal` | ios/Pods/leveldb-library/db/db_impl.cc:1267-1303 | a group ends only with the queue, before a sync write behind a leader that does not sync, or before a batch that would make it too large |
| `GroupCommit.GroupEntries` | ios/Pods/leveldb-library/db/write_batch.cc:132-148 | the record of a group stands for its members' batches in order, each from its own first sequence number |
| `GroupCommitProof.NextInv` | ios/Pods/leveldb-library/db/db_impl.cc:1185-1256 | every step of every writer keeps the invariant |
| `GroupCommitRuns.ExactlyOnceInOrder` | ios/Pods/leveldb-library/db/db_impl.cc:1204-1237 | in every reachable state log and memtable hold each committed batch once, in order of arrival, and nothing that failed; returned statuses agree |
| `GroupCommitRuns.RangesContiguous` | ios/Pods/leveldb-library/db/db_impl.cc:1202-1207 | sequence ranges follow the order of arrival, never overlap and leave no gap |
| `GroupCommitRuns.AtomicVisibility` | ios/Pods/leveldb-library/db/db_impl.cc:1236-1236 | at the published sequence number a batch is visible as a whole or not at all |
| `GroupCommitRuns.SyncBySyncLeader` | ios/Pods/leveldb-library/db/db_impl.cc:1282-1285 | a sync write is only logged by a sync leader |
| `GroupCommitRuns.NothingAfterFailure` | ios/Pods/leveldb-library/db/db_impl.cc:1227-1232 | after a failed sync nothing is logged or applied any more |
| `GroupCommitRuns.LogHoldsMemtable` | ios/Pods/leveldb-library/db/db_impl.cc:1215-1225 | the log always holds what the memtable holds, and more, at its end, only after a failed sync |
| `GroupCommitRuns.HeadRunsOrIsSignalled` | ios/Pods/leveldb-library/db/db_impl.cc:1239-1253 | the head of a non-empty queue runs or has been signalled, and so has everyone who was told a result |
| `GroupCommitRuns.InternalDecreases` | ios/Pods/leveldb-library/db/db_impl.cc:1193-1195 | every step a writer takes on its own makes progress |
| `GroupCommitRuns.EveryWriterReturns` | ios/Pods/leveldb-library/db/db_impl.cc:1185-1256 | from any reachable state the writers' own steps are bounded in number, and when none is left every writer has returned with the status of its batch |
| `GroupDurability.SuccessIsVisible` | ios/Pods/leveldb-library/db/db_impl.cc:1204-1237 | whoever returned success has each of its operations in memtable and log under a published sequence number of its own |
| `GroupDurability.SyncedWritesSurvive` | ios/Pods/leveldb-library/db/db_impl.cc:1215-1222 | a sync write that returned success is in every prefix of the log that keeps what was synced |
| `GroupDurability.OnlySyncLeadersSync` | ios/Pods/leveldb-library/db/db_impl.cc:1217-1222 | the log is synced only by a sync leader whose logging succeeded, and then as a whole |
| `GroupStore.SettlingGroup` | ios/Pods/leveldb-library/db/db_impl.cc:1204-1237 | releasing a group adds its operations to the settled history as one batch if it was committed, nothing otherwise, and takes as many numbers as it has operations |
| `GroupStore.StepRefines` | ios/Pods/leveldb-library/db/db_impl.cc:1185-1256 | for the store every step of a writer is nothing, one write of the group's operations, or the loss of a failed group's numbers |
| `GroupStore.RunDrivesStore` | ios/Pods/leveldb-library/db/db_impl.cc:1185-1256 | for every run of writers there is a reachable store whose history is what the settled writers committed, in order of arrival |
| `GroupStore.BackgroundStays` | ios/Pods/leveldb-library/db/db_impl.cc:688-767 | flushes, compactions, moves and snapshots in between keep that |
| `Writers.WriteThread.Arrive` | ios/Pods/leveldb-library/db/db_impl.cc:1186-1193 | takes the arrival step |
| `Writers.WriteThread.Recheck` | ios/Pods/leveldb-library/db/db_impl.cc:1193-1198 | takes the wake-up step |
| `Writers.WriteThread.RoomMade` | ios/Pods/leveldb-library/db/db_impl.cc:1201-1207 | forms the group and numbers it, or goes on to release |
| `Writers.WriteThread.LogGroup` | ios/Pods/leveldb-library/db/db_impl.cc:1213-1225 | takes the logging step with the environment's outcome |
| `Writers.WriteThread.Release` | ios/Pods/leveldb-library/db/db_impl.cc:1236-1253 | the popping loop releases exactly the group and wakes the next head |
| `ThreadPoolProof.BlockedIffNothingRunnable` | ios/Pods/Libuv-gRPC/src/threadpool.c:71-74 | a worker's wait condition holds exactly if no queued entry could be acted upon |
| `ThreadPoolProof.NextCounts` | ios/Pods/Libuv-gRPC/src/threadpool.c:57-160 | every step keeps the counters equal to the threads they count, the slow lane's bound, the single slow message and enough awake workers |
| `ThreadPoolProof.NextPlaces` | ios/Pods/Libuv-gRPC/src/threadpool.c:57-315 | every step keeps each request in exactly one place, once |
| `ThreadPoolRuns.RunInv` | ios/Pods/Libuv-gRPC/src/threadpool.c:57-315 | the invariant holds in every state of every run |
| `ThreadPoolRuns.RunSafe` | ios/Pods/Libuv-gRPC/src/threadpool.c:87-138 | `done` and `work` at most once; a finished request ran exactly if it was not cancelled; at most (n+1)/2 slow jobs; pending slow work has its message queued |
| `ThreadPoolRuns.History` | ios/Pods/Libuv-gRPC/src/threadpool.c:295-315 | runs and calls of `done` are never taken back, and a finished request is never touched again |
| `ThreadPoolRuns.NoLostWakeup` | ios/Pods/Libuv-gRPC/src/threadpool.c:111-116 | if an entry could be acted upon and a worker sleeps, another worker is awake and on its way to the queue |
| `ThreadPoolRuns.InternalDecreases` | ios/Pods/Libuv-gRPC/src/threadpool.c:66-138 | every step the pool takes on its own makes progress, putting the slow message back included |
| `ThreadPoolRuns.StuckIsQuiet` | ios/Pods/Libuv-gRPC/src/threadpool.c:164-184 | when nothing can happen any more, all workers have left if told to exit, and otherwise nothing is queued |
| `ThreadPoolRuns.EveryRequestFinishes` | ios/Pods/Libuv-gRPC/src/threadpool.c:256-315 | from any reachable state the pool's own steps are bounded in number, and unless it was told to exit they end with `done` called exactly once for every request |
| `ThreadPoolOrder.StartsInOrder` | ios/Pods/Libuv-gRPC/src/threadpool.c:87-156 | in every run, of two requests submitted to one lane the later does not start before the earlier has started or was asked to be cancelled |
| `ThreadPoolOrder.SlowWaitsItsTurn` | ios/Pods/Libuv-gRPC/src/threadpool.c:91-97 | slow work starts only after the work queued before its message was queued or put back |
| `ThreadPoolOrder.SlowLaneOpen` | ios/Pods/Libuv-gRPC/src/threadpool.c:94-109 | while fewer than (n+1)/2 slow jobs run, the worker that takes the slow message starts the oldest slow job |
| `ThreadPoolOrder.CalledInOrder` | ios/Pods/Libuv-gRPC/src/threadpool.c:123-315 | in every run `done` is called in the order in which requests were handed to the loop, except for a request cancelled in between |
| `Threads.ThreadGroup.Post` | ios/Pods/Libuv-gRPC/src/threadpool.c:142-160 | takes the submission step, at the tail of the lane's queue |
| `Threads.ThreadGroup.WorkerTop` | ios/Pods/Libuv-gRPC/src/threadpool.c:66-119 | takes the step of a worker holding the mutex |
| `Threads.ThreadGroup.TakeSlow` | ios/Pods/Libuv-gRPC/src/threadpool.c:91-117 | the slow message is put back, dropped or starts the first slow job and schedules the rest |
| `Threads.ThreadGroup.WorkerFinish` | ios/Pods/Libuv-gRPC/src/threadpool.c:121-129 | hands the executed request to the loop |
| `Threads.ThreadGroup.WorkerRejoin` | ios/Pods/Libuv-gRPC/src/threadpool.c:131-137 | leaves the slow lane |
| `Threads.ThreadGroup.TryCancel` | ios/Pods/Libuv-gRPC/src/threadpool.c:269-283 | succeeds exactly if the request is neither running nor done running, and otherwise changes nothing |
| `Threads.ThreadGroup.PostCancelled` | ios/Pods/Libuv-gRPC/src/threadpool.c:285-291 | hands the cancelled request to the loop |
| `Threads.ThreadGroup.MoveLoopQueue` | ios/Pods/Libuv-gRPC/src/threadpool.c:302-305 | takes over the whole loop queue |
| `Threads.ThreadGroup.CallNextDone` | ios/Pods/Libuv-gRPC/src/threadpool.c:307-314 | `done` is called once, with the cancelled status exactly if the work never ran |
| `PunycodeProof.IntegerRoundTrip` | ios/Pods/Libuv-gRPC/src/idna.c:192-218 | the decoder reads back every variable-length integer and stops where it ends |
| `PunycodeProof.InStepInsert` | ios/Pods/Libuv-gRPC/src/idna.c:184-239 | the encoder's delta makes the decoder insert the code point the encoder stands at, at its place |
| `PunycodeProof.LeadsFurther` | ios/Pods/Libuv-gRPC/src/idna.c:192-237 | emitting delta leads the decoder to its next state, whatever text follows |
| `PunycodeProof.DecodeLayout` | ios/Pods/Libuv-gRPC/src/idna.c:140-159 | the last delimiter separates the basic code points, also if there are none or they contain delimiters |
| `PunycodeProof.GapGrows` | ios/Pods/Libuv-gRPC/src/idna.c:177-187 | a distance beyond 32 bits with code points left means the label cannot be encoded |
| `PunycodeProof.ShortNamesFit` | ios/Pods/Libuv-gRPC/src/idna.c:177-178 | no label of up to 3855 code points overflows |
| `PunycodeProof.OverflowExists` | ios/Pods/Libuv-gRPC/src/idna.c:177-178 | a label of 3856 code points does |
| `PunycodeSamples.AlphabetIs` | ios/Pods/Libuv-gRPC/src/idna.c:104-104 | the digits are a to z, then 0 to 9 |
| `PunycodeSamples.Buecher` | ios/Pods/Libuv-gRPC/src/idna.c:102-246 | the decoder reads `bcher-kva` as the code points of the word |
| `PunycodeSamples.SampleL` | ios/Pods/Libuv-gRPC/src/idna.c:220-236 | the decoder reads sample (L) of section 7.1 of RFC 3492, six insertions with a bias of their own each |
| `PunycodeSamples.EncodeSample` | ios/Pods/Libuv-gRPC/src/idna.c:192-218 | the integer 745 is sent as `kva` while the bias is 72 |
| `Idna.CountPoints` | ios/Pods/Libuv-gRPC/src/idna.c:120-131 | fails exactly on malformed labels; counts basic and other code points |
| `Idna.PutBasics` | ios/Pods/Libuv-gRPC/src/idna.c:140-151 | sends the basic code points in order, early exit included |
| `Idna.PutInteger` | ios/Pods/Libuv-gRPC/src/idna.c:192-218 | sends the digits of the integer; no intermediate value leaves 32 bits |
| `Idna.AdaptBias` | ios/Pods/Libuv-gRPC/src/idna.c:220-236 | equals the bias adaptation of section 6.1 of RFC 3492, though it divides by 2 and then by 350 |
| `Idna.FindMinimum` | ios/Pods/Libuv-gRPC/src/idna.c:167-172 | the smallest code point not yet handled |
| `Idna.OverflowTest` | ios/Pods/Libuv-gRPC/src/idna.c:174-180 | the guard holds exactly if the sum would overflow |
| `Idna.ToAsciiLabel` | ios/Pods/Libuv-gRPC/src/idna.c:102-246 | malformed, too big or converted, each exactly when it should; ASCII labels are copied; other labels become the prefix and text that decodes to the label; characters beyond the buffer are dropped and nothing else |

## Left out

- Table and block formats, restart points, index separators, Bloom filters and the table cache: a table file is its sorted list of entries.
- Read sampling of the database iterator, iterator cleanup, and the concatenating iterator over the files of a level: a child of the merging iterator is a sorted list of entries.
- Skip list, LRU cache, arena: the memtable is a sorted list.
- For the store a log is a list of batches with abstract keys and a manifest a list of edits; `TornLog`, `BatchFormat` and `EditFormat` cover their bytes, where keys are byte strings.
- The flush of the immutable memtable in the middle of a running compaction (db/db_impl.cc:907-918): a compaction is one step.
- Malformed internal keys; errors of file operations in flushes, compactions and recovery, `reuse_logs`, repair, statistics, compaction scores and seek charging, obsolete-file deletion beyond what recovery needs.
- The hardware CRC32C of the port layer; the tables of util/crc32c.cc are defined by what they hold, and only the single-bit entries of the byte table are compared with its listing.
- Damage.DamageContained: does not cover a changed length field, because the checksum then covers other bytes and may match by chance; nor a changed byte of a block's trailer, which the reader skips.
- BatchFormat.WriteBatch.Put: keys and values of 2^32 bytes or more are stored with their length cut to 32 bits, as in the code, and are then not read back.
- LogFormat.Writer.EmitPhysicalRecord: does not model a failing append; the file then holds a prefix of the record, which `TornLog.TornTail` covers as long as nothing is appended after it.
- LogFormat.Writer.AddRecord: does not model the loop's exit after a failed append, for the same reason.
- LogReader.Reader.ReadPhysicalRecord: does not model a failing file read, which ends the log and reports one block as dropped.
- The log reader is modelled for initial offset 0. A physical record whose type byte is 5 or 6 is taken for the reader's own end-of-file and bad-record codes, as in the code.
- Group commit: a failed append leaves no readable record; batches are well-formed, so inserting into the memtable cannot fail; a null batch absorbed by a group does not force the memtable switch it asked for, as in the code.
- Thread pool: one event loop; a signal wakes one waiting worker and spurious wakeups are separate steps; a request is cancelled only before its `done` was called; fork handling and thread creation failures.
- Punycode: labels arrive as decoded code points, so UTF-8 decoding and dot splitting are not modelled; labels have fewer than 2^32 - 1 code points, since the code counts them in 32 bits.
- libuv timers and heap, nanopb, gRPC, BoringSSL and the Flutter launcher.
