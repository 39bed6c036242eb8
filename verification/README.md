# Verified model of a Dynamo-style key-value store

A Dafny model of a replicated key-value store written in Go: its vector clocks and sibling
sets, the log-structured storage engine with its write-ahead log, the replication protocols
between nodes, and the operator that changes a cluster's membership. Every statement below is
a contract or a lemma; `dafny verify dfyconfig.toml` is the command that checks them all.

Everything rests on one algebra. A key holds a set of versions (siblings) ordered by vector
clock; `Versions` gives the closed form of merging such sets, and every layer, replica and
repair path is shown to come down to it.

- **Sibling algebra**: `Clocks`, `Versions`.
- **Storage engine**: `Keys`, `Layers`, `Memtables`, `Compaction`, `SSTables`, `Framing`, `Wal`,
  `Segments`, `GroupCommit`; then `Engine`, a step system in which commits, memtable swaps,
  flushes that succeed or fail, segment deletion, compaction and crashes interleave freely, with
  `EngineRefinement` (what a read returns), `EngineBackground` (flushes and compactions are
  invisible), `EngineRollback` (what a crash may change after rollbacks), `EngineStray` (a
  rollback that a crash undoes), `EngineReads` (reads that run beside all of it) and `Store` (a
  Put that supersedes everything).
- **Which tables a restart lists**: `LayerOrder` (when a listing reads right), `TierLists` and
  `TableLists` (the invariant of table lists), `TableOrder` (flushes, compactions, errors and
  restarts as steps), `TableRuns` (what every run keeps), `TableMisread` (a run that breaks it).
- **Replication**: `Rings`, `Merkle`, `AntiEntropy`, `Hints`, `Quorum` (the decision loops),
  `QuorumRuns` (quorum intersection over runs), `Handoff` (data follows the membership),
  `HandoffMasked` (a hint lost to a join).
- **Operator**: `Planner` (the decision function), `PlannerGuards` (what it acts on and waits for,
  for every observation), `PlannerRuns` (its safety against pods that start, stop, gossip and drain),
  `PlannerHandoffs` (changes begin with every handoff done), `PlannerProgress` (every run that comes
  to an end takes exactly the actions left), `PlannerPaths` (runs that come to an end).

Code that updates state in place is modelled by classes and loops proved against
specification functions; protocols are step systems whose invariants are proved over every run.

"Covers" always means a clock at or after another one. Equal clocks are told apart only by the
identity of the version that carries them (`Item.ref`): results about layers are about exact
lists, results about crashes and replicas are about sets of clocks.

## What turned out not to hold

- A new clock is after its context only while the writer's 32-bit counter has room:
  `Clocks.BuildFromContextAdvances` and `Store.NilContextPutSupersedes` give the exact condition.
- A line of the manifest whose sync fails is reported as not written, and may be on disk
  (internal/storage/manifest/manifest.go:168-173). So a flush that counts as failed can leave its
  table live, and a crash then brings back a version that a complete rollback had hidden:
  `EngineStray.RolledBackComesBack`, against internal/storage/engine/engine.go:546-549.
  `EngineRollback.CrashBringsNothingBackIff` says exactly when a crash brings nothing back, and
  `EngineRollback.RealFailuresStayHidden` that without such a line it never does.
- For the same reason, deleting the file of a merge that could not be registered is not harmless
  (internal/storage/engine/engine.go:646-648): with the line on disk the store does not open again.
  `TableRuns.DeletedMergeDoesNotOpen`; `TableRuns.RestartOpensIff` is the exact condition.
- A compaction whose sources could not be unregistered is said to be safe to go on from
  (internal/storage/engine/engine.go:657-659: a restart loads both, correctly ordered, and a later
  compaction folds them together). It is, if the process picks no other run before it restarts:
  `TableRuns.PrudentRunsReadExactly`. If it does, it need not be: `TableMisread.ImprudentRunMisreads`
  is a run of thirteen flushes, five merges of four tables each and two restarts, with one failed
  manifest line as its only error, after which older layers are read before newer ones.
  `LayerOrder.ListingReadsExactlyIff` is the exact condition on a listing.
- Marking hints as delivered retires what the *join* of the delivered clocks covers, which can be
  more than was delivered (`Hints.JoinRetiresUndelivered`). For versions with an event of their
  own it is not (`Hints.JoinCoversOnlyDelivered`); a Put with a client's context can count an
  event twice (internal/store/datastore.go:163-176). The comment at internal/hints/hints.go:207-208
  states the stronger property for all of them.
- So a handoff can lose a version to such a join: `HandoffMasked.MaskedHintIsLost` is a run, of
  three writes of one node, the last two hinted while the other cannot be reached, after which an
  owner in the base lacks the first and no hint for it is pending. `Handoff.BaseIsAlwaysPlaced` says
  that this is the only way, `Handoff.DottedBaseIsPlaced` when it cannot happen.
- An action planned for a spec that has changed since does not bring the cluster closer to it:
  `PlannerProgress.CountsDownIff` is the exact condition.
- A preference list asked for with factor 0 is the list of all owners, not the empty list
  (`Rings.HashRing.GetPreferenceList`); `Rings.ListIsDistinctOwners` says exactly when a list is no
  longer than asked for.

## Model

| member | source | states |
|---|---|---|
| `Clocks.CompareSnapshots` | internal/vectorclock/vectorclock.go:44-74 | the two-flag loop returns the relation of the pointwise order, with missing entries as 0 |
| `Clocks.LeqIsPointwise` | internal/vectorclock/vectorclock.go:41-43 | comparing only the entries one side holds is comparing every counter |
| `Clocks.RelateIsAntisymmetric` | internal/vectorclock/vectorclock.go:64-73 | Before and After are each other's mirror; Equal and Concurrent are symmetric |
| `Clocks.BuildFromContextAdvances` | internal/vectorclock/vectorclock.go:23-89 | a new event is strictly after its context if and only if the writer's counter is below 2^32-1; then it counts one event of the writer more, and in any case no other node's counter changes |
| `Clocks.JoinIsLeastUpperBound` | internal/versioning/resolve.go:37-50 | the pointwise maximum is the least clock above both |
| `Versions.ResolveItems` | internal/versioning/resolve.go:12-35 | the loop keeps what the incoming version does not supersede, in order, and appends it unless something covers it |
| `Versions.MergeSiblings` | internal/versioning/resolve.go:56-62 | the loop is the left fold of Resolve |
| `Versions.MergeClosedForm` | internal/versioning/resolve.go:12-62 | merging L into X is X without what L supersedes, then the first occurrences of L's clocks that are maximal in both and not in X, in order |
| `Versions.MergeFolded` | internal/versioning/resolve.go:52-62 | folding L into X equals folding the already folded L into X, list for list |
| `Versions.MergeAssociative` | internal/versioning/resolve.go:52-62 | merging is associative, list for list, whatever the lists hold |
| `Versions.MergeKeepsAntichain` | internal/versioning/resolve.go:8-35 | no merge leaves two comparable siblings |
| `Versions.MergeAbsorbed` | internal/versioning/resolve.go:12-62 | merging versions that are all covered changes nothing, in order and choice |
| `Versions.MergeCovers` | internal/versioning/resolve.go:12-62 | a merge covers exactly what its two inputs cover |
| `Versions.MergeHoldsMaximal` | internal/versioning/resolve.go:12-62 | the clocks of a merge are the maximal clocks of both inputs |
| `Versions.MergeCommutesOnClocks` | internal/versioning/resolve.go:52-62 | merging either way round gives the same set of clocks |
| `Versions.MergeIdempotent` | internal/versioning/resolve.go:52-62 | merging a sibling set with itself gives it back |
| `Versions.AntichainHoldsMaximal` | internal/versioning/resolve.go:8-11 | a sibling set of a history that covers it holds exactly its maximal clocks |
| `Versions.UnionVectorClock` | internal/versioning/resolve.go:40-50 | the loop computes the join of the items' clocks, and stores no zero entry |
| `Versions.UnionClockIsLeast` | internal/versioning/resolve.go:37-50 | the union is at or below a clock exactly when every item is |
| `Layers.PutItemsIsNewest` | internal/storage/memtable/memtable.go:95-119 | a write nothing covers goes to the front, before what it leaves |
| `Layers.PutItemsCovered` | internal/storage/memtable/memtable.go:89-94 | a write that is covered leaves a sibling set as it is; a version already there, put again, moves to the front |
| `Layers.PutItemsAntichain` | internal/storage/memtable/memtable.go:51-55 | a memtable's set stays a sibling set |
| `Memtables.MemTable.Put` | internal/storage/memtable/memtable.go:95-119 | the new contents are the old with the key's set resolved; the size is exact; it reports the threshold |
| `Memtables.MemTable.PutBackOlder` | internal/storage/memtable/memtable.go:129-146 | a failed flush's entries are merged behind each key's versions, and nothing else changes |
| `Memtables.MemTable.Replace` | internal/storage/memtable/memtable.go:152-163 | the key's set is replaced verbatim, or removed when the replacement is empty |
| `Memtables.MemTable.Snapshot` | internal/storage/memtable/memtable.go:203-240 | the flat form: keys ascending, each key's versions together and in order |
| `Memtables.TotalSizeUpdate` | internal/storage/memtable/memtable.go:82-87 | changing one key's set changes the total by the difference of the two sets |
| `Memtables.SetSizeIs` | internal/storage/memtable/memtable.go:38-49 | a set counts its key and 64 once for every version, and the length of every value |
| `Compaction.FoldLists` | internal/storage/engine/engine.go:455-477 | the loop over layers is the newest-first fold |
| `Compaction.FoldIsMerge` | internal/storage/engine/engine.go:432-477 | folding layers one by one is one merge of all their versions in order |
| `Compaction.RunReplacedByFold` | internal/storage/compaction/compaction.go:76-128 | a run of layers replaced by its fold reads the same, list for list |
| `Compaction.RunShadowedByFold` | internal/storage/engine/engine.go:625-683 | a run read beside the fold of itself reads the same, list for list |
| `Compaction.MergeTables` | internal/storage/compaction/compaction.go:101-128 | the output's flat form holds, for every key, the fold of the sources in their order |
| `Compaction.CompactionPreservesReads` | internal/storage/engine/engine.go:625-683 | swapping a run for its merge leaves every key's read the same, in order and choice |
| `Compaction.ComputeTier` | internal/storage/compaction/compaction.go:25-32 | the loop gives the tier function |
| `Compaction.TierIsMagnitude` | internal/storage/compaction/compaction.go:25-32 | a tier is the decimal magnitude of a size |
| `Compaction.SelectTier` | internal/storage/compaction/compaction.go:55-74 | the run picked is a maximal run of one tier of at least four tables, no other such run is longer, and no equally long one is newer; none is picked exactly when there is none |
| `Compaction.ReplaceRun` | internal/storage/engine/engine.go:705-725 | finds the run wherever it now is and replaces it, or reports that it is not there |
| `Compaction.SwapIn` | internal/storage/engine/engine.go:663-674 | with flushes prepended meanwhile the run is always found, and reads are unchanged |
| `LayerOrder.ReadIsFlat` | internal/storage/engine/engine.go:455-477 | reading tables one after the other is reading the layers they fold end to end |
| `LayerOrder.SeenFirsts` | internal/storage/compaction/compaction.go:88-98 | a layer read again adds nothing: only the order of first meetings counts |
| `LayerOrder.ExactIff` | internal/storage/engine/engine.go:432-477 | layers read in some order give every history's reads if and only if each is met, and before every older one |
| `LayerOrder.ListingReadsExactlyIff` | internal/storage/engine/engine.go:325-338 | tables that each hold some layers, newest first, read every history right if and only if every layer is held and no older layer is first held by an earlier table than a newer one |
| `TierLists.StrongIsNotAbove` | internal/storage/compaction/compaction.go:48-50 | no run that would be preferred to all below it lies above the run picked |
| `TierLists.LastReachesLowest` | internal/storage/compaction/compaction.go:55-74 | the oldest table of the run picked reaches as far back as any table from it up, so a merge skips no layer |
| `TierLists.TwinAbove` | internal/storage/engine/engine.go:594-598 | a table above the run picked with the run's newest layer holds exactly what the merge will |
| `TierLists.FlushKeepsSound` | internal/storage/engine/engine.go:396-401 | a flush on top keeps the list's invariant |
| `TierLists.ReplaceKeepsSound` | internal/storage/engine/engine.go:663-668 | putting the merge in its run's place keeps it |
| `TierLists.InsertKeepsSound` | internal/storage/engine/engine.go:594-598 | the merge beside its sources, above them, keeps it |
| `TableOrder.IdOrder` | internal/storage/engine/engine.go:685-690 | IDs sort by newest flush and then by merges, for timestamps of one width |
| `TableOrder.CompactedId` | internal/storage/engine/engine.go:691-699 | the ID is the first suffix of the newest source's that no file has |
| `TableLists.MergeIsWhole` | internal/storage/engine/engine.go:638-643 | the merge of a run picked holds one stretch of the layers, without a gap |
| `TableLists.MergeFine` | internal/storage/engine/engine.go:643-668 | the list with the merge registered, and the list with its sources gone, both keep the invariant, IDs included |
| `TableLists.MergeSteady` | internal/storage/engine/engine.go:676-699 | deleting the sources' files frees no ID that would sort a later merge wrongly |
| `TableLists.OrderIsUnique` | internal/storage/engine/engine.go:325-338 | two listings of the same tables, both in order, are lists of the same stretches |
| `TableLists.RestartFine` | internal/storage/engine/engine.go:325-338 | descending ID order is an order that keeps the invariant |
| `TableLists.FineReadsExactly` | internal/storage/engine/engine.go:432-477 | a list that keeps the invariant reads every history right |
| `TableRuns.StepKeeps` | internal/storage/engine/engine.go:384-683 | every flush, compaction step, error, deletion and restart keeps the invariant, in memory and on disk |
| `TableRuns.RunStaysInPlace` | internal/storage/engine/engine.go:669-674 | the run a compaction chose is in memory at one place only until it is swapped |
| `TableRuns.LayersAreFlushes` | internal/storage/engine/engine.go:384-401 | in every run the layers a listing has to read are as many as the flushes that were registered |
| `TableRuns.PrudentRunsReadExactly` | internal/storage/engine/engine.go:584-683 | in every run that picks no run while the merge of an earlier one is registered beside its sources: memory and any restart read every history right, and every live table is one stretch of the layers |
| `TableRuns.RestartOpensIff` | internal/storage/engine/engine.go:325-338 | in every such run, a restart finds the file of every live table if and only if no merge is left registered without its own |
| `TableRuns.DeletedMergeDoesNotOpen` | internal/storage/engine/engine.go:643-650 | after a registration that reported an error although its line is on disk, and with the file deleted, no restart opens the store |
| `TableMisread.ImprudentRunMisreads` | internal/storage/engine/engine.go:656-661 | a run with one imprudent pick that ends in a restart which misreads |
| `SSTables.IsSorted` | internal/storage/sstable/sstable.go:193-195 | checking neighbours decides whether the entries are sorted |
| `SSTables.WriteDataSection` | internal/storage/sstable/sstable.go:137-156 | each index entry points at where its record starts in the bytes written; it fails exactly when some entry cannot be encoded |
| `SSTables.Write` | internal/storage/sstable/sstable.go:186-196 | a table is written exactly from entries that are sorted, not empty and all encodable, and stored |
| `SSTables.Search` | internal/storage/sstable/sstable.go:340-342 | the binary search finds the first index entry at or after the key |
| `SSTables.GetAll` | internal/storage/sstable/sstable.go:332-368 | a lookup through range, filter, index and offsets returns what a linear scan of the entries does |
| `SSTables.KeysOf` | internal/storage/sstable/sstable.go:372-380 | the keys with a version, each once, ascending |
| `SSTables.All` | internal/storage/sstable/sstable.go:397-413 | reading every index entry gives back the entries written |
| `Framing.Scan` | internal/storage/wal/wal.go:350-395 | the replay loop returns the whole, sound records and where they end |
| `Framing.TornBatch` | internal/storage/wal/wal.go:280-310 | after any records, a batch cut at any byte replays as exactly the records inside the cut, and the valid part ends there |
| `Framing.WholeRecordsIsMost` | internal/storage/wal/wal.go:280-288 | the records inside a cut are as many as fit in it |
| `Framing.ValidPartExtends` | internal/storage/wal/wal.go:332-336 | whatever bytes a file held, what is written after its valid part is read after it |
| `Framing.AppendAfterReplay` | internal/storage/wal/wal.go:332-417 | replaying twice gives the same, and a record appended after a replay is read last, for any bytes |
| `Wal.Uint32RoundTrip` | internal/storage/wal/wal.go:258-259 | a length or checksum below 2^32 survives its four big-endian bytes |
| `Wal.BigEndian` | internal/storage/wal/wal.go:258-259 | the most significant byte comes first: encoded numbers compare byte by byte as the numbers do |
| `Wal.RecordsAreFramed` | internal/storage/wal/wal.go:243-261 | length, checksum and payload make a framed record: it reads back, a cut one is torn, and reading looks no further than its end |
| `Wal.ReadFirstIs` | internal/storage/wal/wal.go:355-393 | for any bytes: an entry is read, ending at a byte, exactly when the bytes up to there are a header, as many payload bytes as it claims, with its checksum, and they decode to that entry; an unknown operation is reported exactly when the bytes begin with such a record that names one |
| `Wal.ParsedIsSound` | internal/storage/wal/wal.go:350-395 | for any bytes: what a replay takes is a first part of them that splits into whole records, each with its checksum and decoding to the entry returned, in order, and what follows begins with no such record |
| `Wal.UnsoundRecordEnds` | internal/storage/wal/wal.go:379-393 | after any records, a record of full length with a wrong checksum or a payload that does not decode ends the replay there, whatever follows |
| `Wal.JoinedRecords` | internal/storage/wal/wal.go:280-310 | the encoded entries of a batch, joined, are the entries' records one after another |
| `Wal.File.Append` | internal/storage/wal/wal.go:266-278 | one record is added, or a first part of it when the write fails, or nothing when it cannot be encoded |
| `Wal.File.WriteBatch` | internal/storage/wal/wal.go:289-310 | one write of the records joined, or a first part of it when it fails |
| `Wal.File.AppendEach` | internal/storage/wal/wal.go:280-288 | appending entries one by one writes the bytes of one batch |
| `Wal.File.Replay` | internal/storage/wal/wal.go:337-417 | the file is cut to its longest first part of whole records with right checksums and decodable payloads, and their entries are returned in order; an unknown operation after them is an error and changes nothing |
| `Wal.CrashReplayAppend` | internal/storage/wal/wal.go:323-417 | entries, a batch cut anywhere, a replay and an append: the replays return the entries, the completed records, then the new one |
| `Segments.Log.Rotate` | internal/storage/wal/log.go:200-213 | no entry moves; a segment that cannot be created changes nothing; a failed close still rotates |
| `Segments.Log.DeleteThrough` | internal/storage/wal/log.go:222-240 | what goes is the oldest part of the log, in whole segments numbered at most n, each one removable; it goes on until a number above n, and stops early exactly at the first segment that cannot be removed |
| `Segments.Log.WriteBatch` | internal/storage/wal/log.go:190-194 | entries go after everything the log holds |
| `Segments.OpenLog` | internal/storage/wal/log.go:81-116 | every entry in the directory is returned in segment order and kept, and the new segment comes after them all; it fails exactly when a segment cannot be replayed or the new one not started, and removes nothing that holds entries |
| `GroupCommit.Fill` | internal/storage/engine/write.go:143-160 | a batch is the first request and those queued after it, within both caps unless it is one record, and stops only when full, when the next would not fit, or when none is queued |
| `GroupCommit.Committer.Commit` | internal/storage/engine/write.go:173-218 | a batch is applied, or failed by the log and then all later ones refused, or refused once halted, with one answer per request in order; the batches applied, failed and refused are told apart exactly |
| `GroupCommit.Committer.Run` | internal/storage/engine/write.go:129-167 | the batches concatenate to the accepted requests, carried ones included, each within the caps |
| `GroupCommit.EachAnsweredOnce` | internal/storage/engine/write.go:169-218 | the i-th accepted request gets the i-th answer: applied ones first, then the failed batch, then refused ones |
| `Engine.GetAllCovers` | internal/storage/engine/engine.go:440-477 | a version is at or below a read's answer exactly when some layer covers it |
| `Engine.HistoryIsRecorded` | internal/storage/engine/write.go:173-218 | in every run, the history and what is on disk of a failing batch are functions of the steps alone: the batches acknowledged, in order, and at each crash the first records of a batch that failed, as many as had reached the disk |
| `Engine.HaltedUntilCrash` | internal/storage/engine/write.go:30-38 | after a failed log write no batch is committed or attempted and no memtable is swapped until a restart |
| `Engine.MergedFacts` | internal/storage/compaction/compaction.go:101-128 | a merged table covers its sources and holds only their versions |
| `EngineRefinement.DeletedIsCovered` | internal/storage/engine/engine.go:384-413 | a segment is deleted only when the live tables cover every version in it |
| `EngineRefinement.SurvivesCrash` | internal/storage/engine/engine.go:297-338 | every version written is in a live table or would be replayed, whichever deletions a crash undoes |
| `EngineRefinement.StepKeeps` | internal/storage/engine/write.go:173-301 | every step of the engine keeps the invariant |
| `EngineRefinement.ReadsAreMaximal` | internal/storage/engine/engine.go:440-477 | at every point of every run without rollbacks, a read is a sibling set of versions that the steps so far put under the key, with exactly the maximal clocks of them all |
| `EngineBackground.BackgroundIsInvisible` | internal/storage/engine/engine.go:384-683 | in every run, no step of a flush (put back included), a compaction or the segment cleaner changes what a read returns, in order and choice |
| `EngineBackground.RunStaysInPlace` | internal/storage/engine/engine.go:663-674 | in every run the tables being compacted stay together in memory, so the swap never fails |
| `EngineRollback.ReplayNeverBringsBack` | internal/storage/engine/engine.go:538-549 | in every run, mixing writes and rollbacks, a version read after a crash is covered by one read just before it, or was among the first records, on disk, of the batch that was failing, or is covered by a table left live by a flush that counts as failed |
| `EngineRollback.CrashBringsNothingBackIff` | internal/storage/engine/engine.go:546-549 | at every crash of every run and for every key, nothing comes back if and only if what such tables hold under it was still covered before the crash |
| `EngineRollback.RealFailuresStayHidden` | internal/storage/engine/engine.go:546-549 | in every run in which a flush that failed had not got its table registered, only the failing batch can add to what a read returned before a crash |
| `EngineStray.RolledBackComesBack` | internal/storage/manifest/manifest.go:133-173 | for any version, a run that writes it, flushes it with an error after its line landed, and rolls it back so that a read returns nothing; after a crash a read returns it |
| `EngineRollback.WritesKeepBelow` | internal/storage/engine/engine.go:540-544 | the same writes and replacements applied to two memtables keep one below the other |
| `EngineRollback.RestoreTakesEffectIff` | internal/storage/engine/write.go:267-277 | a read after Restore is exactly the replacement if and only if that is a sibling set covering every other layer's versions |
| `EngineReads.ReadsMissNothing` | internal/storage/engine/engine.go:440-477 | a read that overlaps any steps but a crash is a sibling set of versions that the steps to its end put, covering every write that the steps before it began had put |
| `EngineReads.LaterReadCoversEarlier` | internal/storage/engine/engine.go:432-477 | a read that begins after another ended covers its whole answer, crashes between them included |
| `EngineReads.StepsRaise` | internal/storage/engine/write.go:240-301 | while the process is up every memtable object only gains |
| `Store.NewClock` | internal/store/datastore.go:163-178 | the new clock is one event after the given context, or after the join of everything stored and then after each version of it |
| `Store.NilContextPutSupersedes` | internal/store/datastore.go:158-184 | after a Put without a context any read returns that item alone, however the siblings were spread and whatever ran meanwhile, if and only if the writer's counter had room |
| `Rings.HashRing.Place` | internal/hashring/hashring.go:49-64 | after placing a node every claimed position belongs to its least claimant and is on the ring once |
| `Rings.LabelsDiffer` | internal/hashring/hashring.go:51 | no two virtual nodes are hashed from the same text, dashes and digits in node ids included |
| `Rings.HashRing.AddNode` | internal/hashring/hashring.go:109-115 | the ring is that of the members and the new one |
| `Rings.NewHashRingFromMembers` | internal/hashring/hashring.go:84-102 | the ring of the ids, in any order; an empty or repeated id is an error |
| `Rings.RingIsFunctionOfMembers` | internal/hashring/hashring.go:72-76 | two rings of one member set are equal, however they were built |
| `Rings.HashRing.GetPreferenceList` | internal/hashring/hashring.go:122-158 | the first `factor` distinct owners clockwise from the key, or all of them when there are fewer or factor is 0 |
| `Rings.ListIsDistinctOwners` | internal/hashring/hashring.go:117-158 | a list has no repeats and only owners, is shorter than asked only when it has them all, and is no longer than asked if and only if one was asked for or the ring is empty |
| `Rings.ListIsNearest` | internal/hashring/hashring.go:117-158 | each owner on a list has a position to which every nearer one, clockwise from the key and around the end, belongs to an owner listed before it |
| `Rings.LeavingKeepsOtherLists` | internal/hashring/hashring.go:78-80 | a member not on a key's list leaves without changing it, element for element, collisions included |
| `Merkle.Build` | internal/merkle/merkle.go:145-181 | the leaves are the buckets' hashes in order, and every inner node combines its children |
| `Merkle.Walk` | internal/merkle/merkle.go:217-229 | a subtree's walk appends exactly its differing buckets, in order |
| `Merkle.DivergentBuckets` | internal/merkle/merkle.go:202-210 | exactly the buckets whose leaves differ, ascending |
| `Merkle.EqualSubtrees` | internal/merkle/merkle.go:212-216 | equal hashes mean equal leaves below |
| `AntiEntropy.MissingFrom` | internal/node/antientropy.go:167-182 | the incoming versions nothing held covers, in order |
| `AntiEntropy.NothingMissingIff` | internal/node/antientropy.go:90-99 | nothing is sent exactly when everything is covered |
| `AntiEntropy.ExchangeCoversBoth` | internal/node/antientropy.go:85-94 | whatever else is written to a side after it was read, it ends up covering everything both sides held |
| `AntiEntropy.ExchangeIsMaximal` | internal/node/antientropy.go:93-94 | with nothing else written, a side ends with the maximal clocks of the union |
| `AntiEntropy.SameViewSameVersions` | internal/merkle/merkle.go:61-83 | sets with the same canonical strings are equally long and hold the same versions, down to value, author and tombstone |
| `AntiEntropy.ReconcileKey` | internal/node/antientropy.go:131-159 | each side merges what it lacks of the other's, other keys are untouched, and something is sent exactly when the sides are out of sync |
| `AntiEntropy.ReconcileBucket` | internal/node/antientropy.go:100-161 | every shared key of the bucket is exchanged, and no other key changes |
| `AntiEntropy.RunAntiEntropy` | internal/node/antientropy.go:36-63 | every key both replicate ends with the same clocks on both sides, the maximal ones of the union; other keys are untouched; nothing is sent for keys in sync |
| `Hints.SplitUndoesStore` | internal/hints/hints.go:98-106 | splitting a storage key gives back the target and the key, separators in the key included |
| `Hints.StoreUndoesSplit` | internal/hints/hints.go:102-106 | what was split, stored again, is the same storage key |
| `Hints.StorageKeysDiffer` | internal/hints/hints.go:9-10 | two targets or keys never share a storage key |
| `Hints.MarkerCovers` | internal/hints/hints.go:14-19 | a marker covers a hint exactly when the join does, and no hint covers a marker |
| `Hints.PendingIsExact` | internal/hints/hints.go:151-225 | after any hints and deliveries, what is pending is exactly the maximal added clocks not at or below the join of some delivered batch |
| `Hints.MarkersStay` | internal/hints/hints.go:16-20 | every delivered batch's marker stays covered by a marker |
| `Hints.UnretiredIsPending` | internal/hints/hints.go:203-208 | a hint no delivered join covers is covered by what is pending |
| `Hints.JoinCoversOnlyDelivered` | internal/hints/hints.go:205-214 | for versions with their own event, a join retires only what was delivered |
| `Hints.JoinRetiresUndelivered` | internal/hints/hints.go:205-225 | for any target and key: of three hints stored two are marked delivered; the third, which neither covers, was pending and then is not |
| `Hints.Store.Add` | internal/hints/hints.go:115-127 | refuses exactly an empty target, one with a separator in it, and an item with the marker entry; otherwise one hint is recorded, and other keys read the same |
| `Hints.Store.MarkDelivered` | internal/hints/hints.go:209-225 | one marker is recorded for a delivered batch, nothing for an empty one, and other keys read the same |
| `Hints.Store.Pending` | internal/hints/hints.go:151-177 | one entry for each of the target's keys with something pending, holding all of it, in storage-key order |
| `Quorum.PutAsReplica` | internal/node/coordinate.go:104-197 | once read and written locally and not canceled, the write stands if and only if it and the results that are acks reach W, and is otherwise rolled back or reported as not; it is canceled exactly when the context ends before the results heard decide; the hints, when it stands or is canceled and the node is not closing, are exactly the peers whose result is Unavailable, one for each such result and in order, and none otherwise |
| `Quorum.AwaitAcks` | internal/node/coordinate.go:151-183 | the decision loop ends only at W acks, once W is out of reach, at the end of the results, or canceled; what it counted and found unreachable is that of the results it took |
| `Quorum.DrainReplication` | internal/node/coordinate.go:220-250 | the peers unreachable before the decision and then, one for each and in order, exactly those whose later result is Unavailable, if the write is kept and the node is not closing |
| `Quorum.MissedAreUnavailable` | internal/node/coordinate.go:209-236 | the peers hinted are those at the places of the results that are Unavailable, each once and in order: no other error makes a hint, and every such result does |
| `Quorum.AcksArePlaces` | internal/node/coordinate.go:159-176 | the acks counted are as many as the results that are Ok |
| `Quorum.DecisionIgnoresOrder` | internal/node/coordinate.go:151-197 | the outcome and the set of hinted peers do not depend on the order results arrive in |
| `Quorum.ForwardPut` | internal/node/coordinate.go:271-293 | at most one replica may have applied the write, and it is refused as unavailable only if none did |
| `Quorum.Get` | internal/node/coordinate.go:309-378 | a read is canceled exactly when the context ends before the results heard decide; otherwise it succeeds if and only if the answers, its own set among them, reach R; it then uses exactly those among the results heard, R in all unless its own are enough, and returns their merge: if its own set was a sibling set, a sibling set of their versions with exactly the maximal clocks of them all |
| `Quorum.Gather` | internal/node/coordinate.go:333-368 | the decision loop ends only at R answers, once R is out of reach, at the end of the results, or canceled, and hears no answer beyond R; its merge is that of the answers heard |
| `Quorum.GatheredCovers` | internal/node/coordinate.go:351-361 | the merged answer covers everything in any answer used |
| `Quorum.GatheredIsMaximal` | internal/node/coordinate.go:351-361 | answers gathered onto a sibling set give a sibling set of their versions with exactly the maximal clocks of all of them |
| `QuorumRuns.AcksAreReplicas` | internal/node/coordinate.go:121-176 | W acks counted are W distinct replicas |
| `QuorumRuns.ReadMeetsWrite` | internal/node/coordinate.go:309-378 | enough answers for a read include one from a replica that acked the write, when W + R exceeds N |
| `QuorumRuns.StepKeeps` | internal/node/coordinate.go:80-197 | every step of writes, replication, reads and repairs keeps the invariant |
| `QuorumRuns.ReadsSeeReturnedWrites` | internal/node/coordinate.go:300-378 | in every run without rollbacks, a read's result covers every write that had returned before it began |
| `QuorumRuns.ReadAfterWrite` | internal/node/coordinate.go:80-378 | in every run without rollbacks, stated by its steps alone: a write started and returned before a read starts is covered by what that read returns |
| `QuorumRuns.ReadsAreMaximal` | internal/node/coordinate.go:309-378 | in every such run from replicas holding sibling sets, a read returns a sibling set of the versions answered to it with exactly the maximal clocks of all the answers it counted, which are those the decision loop counts |
| `Handoff.HandoffTargets` | internal/node/handoff.go:140-155 | the loop computes the targets |
| `Handoff.TargetsAre` | internal/node/handoff.go:131-155 | the targets are exactly the new owners other than this node, without the old owners when this node stays one, in list order |
| `Handoff.EveryNewOwnerIsReached` | internal/node/handoff.go:131-155 | every new owner is this node, a target, or an owner before when this node stays one |
| `Handoff.HintPlaces` | internal/node/handoff.go:252-275 | a stored hint places the version, pending or retired by a join |
| `Handoff.PlacedBelow` | internal/node/handoff.go:242-275 | a node that has, or will get, a version has or will get all that it covers |
| `Handoff.CompletedIsPlaced` | internal/node/handoff.go:165-194 | a completed run has placed its target view |
| `Handoff.StepKeeps` | internal/node/handoff.go:95-346 | every step of runs, view changes, hints, deliveries and restarts keeps what is true of all versions: what counts as delivered is held, and what the current run read is placed at the targets it has dealt with |
| `Handoff.StepKeepsArrived` | internal/node/handoff.go:95-346 | every such step keeps what is true of a version that has arrived |
| `Handoff.BaseIsLastCompleted` | internal/node/handoff.go:26-29 | in every run the base is the target of the last run completed since the last restart, or what was on disk then, and what is on disk is that of the last one saved; superseded and canceled runs do not move it |
| `Handoff.ViewsOnlyAdvance` | internal/node/handoff.go:95-130 | from a node whose base is not ahead of its newest view, no run of steps takes the newest view back to an older epoch, and every handoff leads from an older view to a newer one |
| `Handoff.BaseIsAlwaysPlaced` | internal/node/handoff.go:21-29 | from any point of any run at which a version is held here and placed in the base and the base on disk, and the run under way has not read without it (or it is placed in that run's target too): through any chain of completed, superseded and canceled runs and restarts, every owner in the base view has the version, or this node has a hint for it pending, or a hint for it is at or below the join of a batch delivered to that owner which does not cover it |
| `Handoff.DottedBaseIsPlaced` | internal/node/handoff.go:21-29 | with clocks in which every hinted write counts an event of its own, the third case never arises |
| `HandoffMasked.MaskedHintIsLost` | internal/node/hintdelivery.go:36-107 | a run from an empty node, in which every hint is of a write just made after a client's context, for a member of the newest view, and is marked right after such a member took it, and after which only the third case holds |
| `Handoff.LeavingNodePushesDirectly` | internal/node/handoff.go:242-275 | a node outside the view completes only when every owner there holds the version itself, from any point on at which the version has arrived and the run under way has not read without it |
| `Planner.MembersSize` | operator/internal/planner/planner.go:292-305 | the membership of k pods has k members, all of this cluster at their own addresses |
| `Planner.EpochsAreClose` | operator/internal/planner/planner.go:374-384 | at most two epochs, next to each other, exactly when no two pods are more than one apart |
| `Planner.ReadViews` | operator/internal/planner/planner.go:363-390 | the passes over the pods find a foreign member, a conflict, or epochs too far apart, in that order |
| `PlannerGuards.ActsOnlyIfSafe` | operator/internal/planner/planner.go:307-626 | for every observation, reachable or not: the planner acts only if all it checks is so: objects and pods as expected, views agreeing, nobody overdue but a pod being removed, and for each action the pods, handoffs, volumes, drain and rollout it needs, with the epoch and members that follow |
| `PlannerGuards.WaitsAreTrue` | operator/internal/planner/planner.go:307-626 | for every observation: the reason a wait gives is so |
| `PlannerGuards.WaitsForTheFirst` | operator/internal/planner/planner.go:563-600 | a cluster whose pods all reached the membership waits for the first of overdue pods, pod removal, volume removal, handoffs, pods, rollout that is so, and follows the spec exactly when none is |
| `PlannerRuns.PlanIsSensible` | operator/internal/planner/planner.go:307-456 | from every state of every run the plan is no wait for a state the planner cannot explain, and an action planned has the pod, epoch, members and replicas that the cluster is then at the point for, and relies only on what still holds when it is executed later |
| `PlannerHandoffs.ActsOnlyHandedOff` | operator/internal/planner/planner.go:581-592 | in every reachable state, at a cluster that looks converged the planner does anything but wait only when every pod has completed its handoff to the ConfigMap's epoch |
| `PlannerHandoffs.ChangesBeginHandedOff` | operator/internal/planner/planner.go:581-624 | in every run, when a membership change is executed at a settled cluster, every pod had completed its handoff when it was planned, membership and replicas are still those, and each pod still has, or has started again since |
| `PlannerRuns.AllHaveLeft` | operator/internal/planner/planner.go:515-527 | when the leaving pod answers that it drained, every pod holds the membership without it |
| `PlannerRuns.StepKeeps` | operator/internal/planner/planner.go:9-26 | every event of the operator, the pods and the spec keeps the invariant |
| `PlannerRuns.NeverUnexplained` | operator/internal/planner/planner.go:363-456 | no run reaches a membership conflict, an unexplained divergence or a membership nobody wrote |
| `PlannerRuns.TwoEpochsAtMost` | operator/internal/planner/planner.go:382-384 | the pods' views always span at most two neighbouring epochs |
| `PlannerRuns.DropsOnlyDrained` | operator/internal/planner/planner.go:440-453 | the StatefulSet drops one ordinal, the last, only after that pod had drained at the ConfigMap's epoch, and was seen to, at an earlier event of the run, and with every remaining pod holding that membership |
| `PlannerProgress.CountsDownIff` | operator/internal/controller/kvcluster_controller.go:164-186 | in every state of every run, executing an action that changes something leaves exactly one fewer to take if it is right for the spec as it is then, and otherwise no fewer |
| `PlannerProgress.ActionsAddUp` | operator/internal/planner/planner.go:414-626 | from any state of any run with nothing wrong pending, and while the spec stays, the actions executed that change something and those then left add up to those left at the start, template included, whatever the pods do |
| `PlannerProgress.DoneIsAtSpec` | operator/internal/planner/planner.go:563-626 | in every reachable state, a plan of nothing to do means that the cluster is settled at the spec, replicas and template, with no action left and every handoff to its epoch completed |
| `PlannerProgress.FinishedRunsAreExact` | operator/internal/planner/planner.go:9-21 | every run that keeps the spec and comes to a plan of nothing to do has executed exactly the actions left at its start, and the cluster is settled at the spec with every handoff completed |
| `PlannerPaths.AtIsObserved` | operator/internal/controller/observe.go:92-107 | the states the operator can observe at a point are exactly those in which every pod has done its part |
| `PlannerPaths.PlanThere` | operator/internal/planner/planner.go:414-626 | at each point of a change on a cooperative cluster the planner takes exactly the one expected action |
| `PlannerPaths.NextPoint` | operator/internal/planner/planner.go:9-21 | from every state at a point, that action and then events of the pods alone reach the next point |
| `PlannerPaths.TakesExactly` | operator/internal/planner/planner.go:9-21 | from every state at a point there is a run that executes exactly two actions per pod added, three per pod removed and one for a stale template, never waits, and ends with nothing to do and the cluster at the spec |
| `PlannerPaths.CountIsLeft` | operator/internal/planner/planner.go:9-21 | those are exactly the actions left, which every run that comes to an end takes |

## Left out

- gRPC and HTTP, dialing, heartbeats, timeouts and backoff: a remote call is a step or a result that is ok, unreachable or failed.
- JSON, CRC-32, SHA-256, FNV and the Bloom filter: a payload codec that decodes what it encoded, hashes that do not collide where that is needed, a filter that holds of every key written.
- Values are strings; a value's size is its length, where the source takes the length of its encoding.
- The manifest's text: a line is on disk or it is not, whatever was reported; a torn line followed by more lines is not modelled, nor are LiveIDs and the parsing of lines.
- Deletions a crash undoes are the latest ones: a filesystem that undoes an older segment deletion and keeps a newer one is not modelled.
- SSTable footers, Open and the corrupt-file errors of a reader; SnapshotAndClear, Len and Get of the memtable and tables.
- Engine: a flush's SSTable and its manifest line are one step, since a table without its line is not read; a compaction that failed to register its merge although the line is on disk is one that stops after registering it.
- ReplayNeverBringsBack: has a case that the source's comment excludes; `EngineRollback.CrashBringsNothingBackIff` says when it arises.
- Quorum guarantees when the same key is rolled back concurrently: the source gives none.
- Quorum: hints are the peers named to the hint store; one that cannot be stored, which the source logs, is not modelled.
- Handoff: held versions only grow; the rollback of a failed quorum write, which takes a version back from this node or leaves it on others, is not among its steps.
- Handoff after a restart without a HANDOFF file under a changed member list, where the source rebuilds the base from the configuration.
- Membership files, fingerprints and validation: a view is an epoch and members, adopted only when newer.
- merkle's bit test for the bucket count: a bucket count is 4^k by definition here.
- The members already placed are a ghost parameter of `Rings.HashRing.AddNode`; concurrent readers of a published ring are not modelled.
- PrudentRunsReadExactly: goes one way. A run with an imprudent pick may still read right; whether a given listing does is `LayerOrder.ListingReadsExactlyIff`.
- TableOrder: a table's size is any function of the layers it folds; a flush that counts as failed although its line is on disk is a step of `Engine` and not of this one, nor is a live table whose file is there and cannot be read.
- Planner: epochs are unbounded, where the source's are 64-bit; deadlines are booleans of the observation; status text and phases are not modelled.
- PlannerRuns: an observation is taken at one moment, and the action follows later or never; a pod that starts reads the current ConfigMap; of a pod template only whether it is the spec's.
- PlannerPaths: how long the pods take is not bounded, so a run may never come to an end; that one does is a run that exists, not one that is forced.
- Kubernetes rendering, the controller, metrics, logging, the chaos recorder, configuration and identity validation.
