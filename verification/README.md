# KubeBrain's storage backend, modelled and proved in Dafny

KubeBrain keeps Kubernetes objects as versions in an ordered byte-key engine. Every user key has one index
record (revision 0), which is also its lock, and immutable version records. Revisions come from one
allocator; a sequencer puts finished writes back into revision order, feeds the event cache and the
watchers, and hands writes of unknown outcome to a retry queue; compaction deletes old versions while all of
this goes on. The project models these parts and proves what they promise together.

`dafny verify dfyconfig.toml` checks the whole project.

## How the model is layered

1. **Storage and scans.** `Bytes`, `Coder`: internal keys. `Mvcc`: the reference, a plain table of versions and
   what a read at a revision sees. `Scan`, `Snapshot`, `CompactTrace`: the one loop that answers ranges and
   compacts. `Worker`, `Partitions`, `Listing`: the same as the program runs it, with its receiver,
   partitions, retries and limit. `PointRead`: point reads. `CompactBorders`: the ranges a compaction visits.
   `Batch`: the overlay batch of the in-memory engine. `Txn`: create, update, delete and overwrite, batch by batch.
2. **The protocol.** `Protocol` is a state machine with one action per atomic step: deal a revision, commit a
   batch (success, conflict, uncertain and applied, uncertain and not applied, failure), notify into a slot,
   each step of the sequencer, of the retry worker and of any number of compactions, time passing, and every
   step of the watch path. All actions interleave freely. `Invariant`, `Preservation` and `Storing` hold one
   inductive invariant and its proof; `Runs`, `Integrity`, `Sequencing`, `Progress`, `Convergence`, `Carrying`,
   `Expiry` and `Delivery` hold the theorems over whole runs; `Counterexamples` the runs in which a promise fails.
   The fields `hist`, `top`, `expired`, `notices`, `dropped`, `swept` and `born` of the state are history that no
   step reads.
3. **The watch path.** `Ring`: the event cache. `Events`: filters and catch-up batches. `Watch`: hub, buffers and
   watchers as steps. `RetryQueue`, `SequencerLoop`: the linked retry queue, the allocator and the sequencer's
   loop as objects that update their fields.

The layers are joined: `Sweeps` proves that every delete of a scan over the bytes of a snapshot is a delete
the protocol allows, `ByteStore` that the write and delete batches do to the bytes what the protocol's steps
do to the tables, `Rounds` that a round of the sequencer's loop on its objects is a run of the protocol's steps,
`Carrying`, `Delivery` and `Convergence` that the watch path tells clients what the protocol did. `EndToEnd` puts them together, from the bytes of the engine to what a client of list and watch knows.

## Hypotheses

- User key bytes are greater than `$` (`Coder.ValidKey`); `Coder.SmallKeyByteBreaksOrder` shows why. Compacted
  user keys are not empty (`CompactTrace.Compacting`): an empty one cannot be marked as failed.
- Partition borders handed out by the engine decode to user keys or lie inside the records of none
  (`Partitions.GoodBorder`); point reads meet no undecodable record among those of their key (`PointRead.NoStray`).
- Clients do not store the bytes `tombstone` (`Protocol.Regular`); `Counterexamples.TombstoneValueBreaksIndex` shows why.
- The engine commits batches atomically and answers truthfully; an uncertain commit takes effect when it is
  made or never; iterators read the snapshot they were opened on; a plain delete does not compare
  (`Counterexamples.FailedCompareRevivesOldVersion` shows why the last is needed).
- One leader's term, starting from a store whose index records are in order (`Protocol.Init`), with revisions
  above everything stored.
- Revisions stay below 2^64.
- The clock does not run backwards.

Built-in expiry takes old records of `/events/` keys away. The claims about what a store still holds are for every
key that has not lost a record to its age (`expired`): all keys outside `/events/`
(`Integrity.DurableKeysNeverExpire`), and every `/events/` key whose versions are younger than the time to live
(`Expiry.YoungKeysAreKept`). That revisions never go back is proved for all keys.

## Where the code does not keep a promise

- **A retry can be given up.** When the commit of a retry is uncertain and did not take effect, or fails
  otherwise, or the value is empty, the head of the queue is popped all the same, and the new notice carries
  a revision that is not in the store, so its own retry finds nothing to do. The newest version of the key is
  then never announced. `Counterexamples.ConvergenceCanFail` is such a run. `Convergence.ListThenWatchConverges`
  gives the exact condition for every key, `Convergence.DroppedExactlyWhenGivenUp` the steps that break it.
- **A drifted-back revision stalls the sequencer.** `deal` refuses a request that names a revision above the one
  it is dealt, but the revision is spent and nobody notifies it. `Counterexamples.LostRevisionStopsEverything` is
  such a request. `Sequencing.LostRevisionStalls` proves that nothing is committed from there on, and
  `Progress.CatchesUpUnlessNamedAhead` that from every other state everything dealt can still be committed.
- **A notice a whole window ahead stops the program.** `Counterexamples.FullWindowStopsTheProgram` gets there with
  a window of creates dealt before any comes back. `Progress.StopsOnlyBeyondTheWindow` says in which states it can
  happen. A run of the model does not take that step.
- **A list of the current revision can be refused.** The revision is read first and the compact record later;
  `Counterexamples.CurrentRangeCanBeRefused` is a compaction that comes in between, and
  `Integrity.CurrentRangeIsRefusedExactlyWhenOvertaken` the exact condition.
- **The compact record can go down.** The start of a compacting scan overwrites it unconditionally, although
  `setCompactRecord` keeps a greater one. `Counterexamples.LowerCompactionMisleadsRange` is a range read that
  passes the check and misses a version. `Integrity.RecordBoundsSweeps` says exactly in which runs the record stays
  at or above every sweep, which is what the range theorems need.
- The interface comment says that a failed compare-and-swap passes on the unexpected value; the in-memory
  batch passes on the expected one (pkg/storage/memkv/batch.go:85, `Batch.FailedSwapPassesOnTheExpected`).
  The model follows the code.
- In `delete` the check for a newer revision than its own never strikes (`Preservation.DeleteReadsBeforeItsRevision`).

## Model

| member | source | states |
|---|---|---|
| Coder.EncodeObjectKey | pkg/backend/coder/normal.go:42-50 | the buffer filled piece by piece is magic, user key, split byte and big-endian revision |
| Coder.DecodePanics | pkg/backend/coder/normal.go:58-70 | exactly which slices, given by their bytes and those up to their capacity, make `Decode` go out of range; beyond the length only keys shorter than the magic are affected |
| Coder.DecodeInvertsEncode | pkg/backend/coder/normal.go:42-70 | decoding an encoded pair gives the pair back, for every key and 64-bit revision |
| Coder.EncodeInvertsDecode | pkg/backend/coder/normal.go:42-70 | what decodes is the encoding of what it decodes to |
| Coder.EncodeIsOrderEmbedding | pkg/backend/coder/normal.go:25-50 | byte order of internal keys is the order of (user key, revision), and equality is equality |
| Coder.RecordsOfAKeyAreContiguous | pkg/backend/coder/normal.go:29-56 | the records of a user key are one contiguous run that starts with its index record |
| Coder.SmallKeyByteBreaksOrder | pkg/backend/coder/normal.go:29-31 | a key byte below the split byte breaks the order |
| Coder.ParseInvertsIndexBytes | pkg/backend/coder/rev.go:32-47 | parsing the bytes of an index value gives its revision and deletion flag back |
| Coder.IndexIsNotTombstone | pkg/backend/txn.go:178-185 | a deleted index is as long as the tombstone and never equal to it |
| Mvcc.LatestRev | pkg/backend/range.go:92-122 | the result is stored and no revision between it and the bound is |
| Mvcc.ListingIsUnique | pkg/backend/scanner/scanner.go:83-94 | the reference answer of a range is one list: sorted lists with the same visible entries are equal |
| Scan.ReadAnswers | pkg/backend/scanner/scanner.go:389-516 | a read answers with the greatest live entry of every key within its revision, once, in key order |
| Snapshot.ScanIsListing | pkg/backend/scanner/scanner.go:389-516 | over the bytes of a range whose borders split no key, the scan is the reference listing |
| CompactTrace.CompactionIsJustified | pkg/backend/scanner/scanner.go:389-592 | at the moment it is made, every delete of a compacting scan is of a superseded version, a deleted index, a tombstone with everything under it confirmed gone, or a timed-out record of an `/events/` key; for any failing deletes, any key left failed before and any point where the iterator breaks |
| CompactTrace.CompactionIsComplete | pkg/backend/scanner/scanner.go:389-516 | a compacting scan without failures reclaims every superseded version, tombstone, deleted index and timed-out record it passes |
| Worker.LimitedRunIsPrefix | pkg/backend/scanner/scanner.go:416-507 | a run under a limit leaves the first entries of the unlimited run, with the early exit and the deferred last entry |
| Worker.Receiver.Append | pkg/backend/scanner/receiver.go:39-99 | the entry is added at the end, or dropped by a receiver that keeps nothing |
| Worker.Receiver.Merge | pkg/backend/scanner/receiver.go:72-80 | merging is concatenation cut at the limit |
| Worker.Worker.CompactRecord | pkg/backend/scanner/scanner.go:522-564 | one delete call unless the key failed before; an error other than a failed compare marks the key |
| Worker.Worker.Process | pkg/backend/scanner/scanner.go:444-502 | the loop body updates its variables, receiver, trace and failed key as one visit of the fold |
| Worker.Worker.Iterate | pkg/backend/scanner/scanner.go:416-503 | the loop is the fold over the decodable records up to the one that fills the receiver |
| Worker.Worker.Run | pkg/backend/scanner/scanner.go:389-516 | a run leaves the trace, failed key and, if it succeeds, the entries of the fold over what its iterator delivered, and succeeds exactly when the receiver filled or the iterator reached the end |
| Worker.FinishedRunAnswers | pkg/backend/scanner/scanner.go:416-507 | a run that finishes, reading or compacting, leaves the first answers of a complete scan whatever its deletes came back with, even if its iterator broke after the receiver was full |
| Worker.Worker.RunWithBackoffRetry | pkg/backend/scanner/scanner.go:351-387 | it succeeds exactly when one of three runs finishes, then every answer is there once, and each run starts with the key the one before left failed |
| Partitions.AdjustedBorderDoesNotSplit | pkg/backend/scanner/scanner.go:200-225 | a moved border falls between no two records of one user key |
| Partitions.AdjustIsMonotone | pkg/backend/scanner/scanner.go:200-225 | moving borders keeps their order |
| Partitions.AdjustPartitionsBorders | pkg/backend/scanner/scanner.go:202-225 | partitions in any order become, in place, the cut of the range at its moved inner borders |
| Partitions.PartitionedScanIsListing | pkg/backend/scanner/scanner.go:227-304 | the workers' answers in partition order are one unpartitioned scan, and both are the reference listing |
| Listing.ScanPartitions | pkg/backend/scanner/scanner.go:227-304 | reading or compacting, it succeeds exactly when every worker does; the merged receiver then holds the first answers of all in order and otherwise nothing |
| Listing.List | pkg/backend/range.go:125-175 | a limited list is the first entries of the unlimited one and `More` holds exactly when there are more; a limit of 2^63-1 wraps and lists everything; compacted, empty or inverted requests fail |
| EndToEnd.ListSnapshot | pkg/backend/range.go:125-175 | over the bytes of a snapshot an answer is the first page of the reference listing of the requested range, however it was partitioned and however the iterators broke |
| PointRead.PointReadIsView | pkg/backend/range.go:84-122 | the first step of the downward iterator finds the greatest version within the revision (the latest for 0), and the client sees the reference view |
| PointRead.PointReadAgreesWithScan | pkg/backend/range.go:84-122 | a range scan lists an entry exactly when the point read at its revision returns it |
| CompactBorders.PrefixEnd | pkg/backend/util.go:70-83 | the in-place loop computes the end of a prefix |
| CompactBorders.PrefixRange | pkg/backend/util.go:70-83 | the keys from a prefix up to its end are exactly the keys with that prefix |
| CompactBorders.PairsCoverOddly | pkg/backend/compact.go:55-68 | sorted borders taken in pairs cover exactly the points that an odd number of intervals hold |
| CompactBorders.GetCompactBorders | pkg/backend/compact.go:107-127 | the borders are the sorted ends of the intervals of all prefixes, an even number |
| CompactBorders.Ranges | pkg/backend/compact.go:60-66 | the ranges handed to the scanner cover what the borders cover in pairs |
| CompactBorders.CompactionVisitsOddly | pkg/backend/compact.go:107-127 | a record is visited exactly when its key has an odd number of the configured prefixes |
| CompactBorders.CompactionVisitsMainWithoutSkipped | pkg/backend/compact.go:107-127 | with skipped prefixes under the main one and not nested, exactly the main range without the skipped ones is visited |
| Batch.BatchWrite.PutIfNotExist | pkg/storage/memkv/batch.go:52-69 | the overlay stands for the operations so far applied in order, or the first failed compare is kept |
| Batch.BatchWrite.CAS | pkg/storage/memkv/batch.go:72-94 | the same for compare-and-swap |
| Batch.FailedSwapPassesOnTheExpected | pkg/storage/memkv/batch.go:84-87 | a failed compare-and-swap passes on the value it expected, which is not the one it met |
| Batch.BatchWrite.Put | pkg/storage/memkv/batch.go:97-107 | the same for a plain write |
| Batch.BatchWrite.Del | pkg/storage/memkv/batch.go:110-118 | the same for a plain delete |
| Batch.BatchWrite.DelCurrent | pkg/storage/memkv/batch.go:121-134 | the same for a conditional delete, a missing record comparing like an empty value |
| Batch.BatchWrite.Commit | pkg/storage/memkv/batch.go:146-167 | all or nothing: all operations in order, or no change and the first failure, whatever order the overlay is applied in |
| ByteStore.WriteBatchRefines | pkg/backend/txn.go:182-186 | a write batch on the bytes succeeds exactly when the compare on the tables holds and leaves the bytes of the tables after the write |
| ByteStore.DeleteBatchRefines | pkg/backend/scanner/scanner.go:538-564 | a conditional delete goes through exactly when the index is still the snapshot's, and either delete leaves the bytes of the tables without the record |
| Txn.CommitBatch | pkg/backend/creator/naive.go:93-105 | the batch on the in-memory engine does both writes or neither and reports the first failed compare |
| Txn.CommitWrite | pkg/backend/txn.go:253-269 | the batch against the tables: it succeeds exactly when the compare holds, and the engine then holds the written tables |
| Txn.CreateAfterConflict | pkg/backend/creator/naive.go:60-86 | after a conflict a create goes by the index the conflict carries or by the one it reads; it succeeds exactly if that index is missing, or deleted below its revision, and still there |
| Txn.Create | pkg/backend/creator/naive.go:53-91 | a create succeeds exactly over a missing index or a deleted one below its revision, whether conflicts carry the record or not, and then index and version are written |
| Txn.Update | pkg/backend/txn.go:253-269 | an update succeeds exactly when the live index names the client's revision |
| Txn.Delete | pkg/backend/txn.go:149-194 | a delete removes exactly the latest visible version, if the client named it or none and it is below the new revision and still indexed; otherwise it says what is there |
| Txn.Overwrite | pkg/backend/retry/retry.go:222-264 | a retry rewrites exactly the newest version if it is the uncertain one and still indexed, tombstones as tombstones |
| Sweeps.JustifiedIsAllowed | pkg/backend/scanner/scanner.go:444-502 | a delete justified by one partition of the bytes is allowed, for the same reason, by the tables of the whole snapshot |
| Sweeps.SweepRemembers | pkg/backend/scanner/scanner.go:227-304 | whatever interleaves, a sweep's confirmed set holds every delete of all its workers that did not fail |
| Sweeps.WorkerDeletesAreAllowed | pkg/backend/scanner/scanner.go:351-564 | in any interleaving, the next delete of a worker is one the protocol allows, however earlier deletes and runs failed |
| Invariant.InitHasInv | pkg/backend/tso/tso.go:73-76 | a leader's start satisfies the invariant |
| Preservation.DeleteReadsBeforeItsRevision | pkg/backend/txn.go:176-180 | a delete read a version below its own revision, so its last check never strikes |
| Preservation.FillSlotFits | pkg/backend/txn.go:291-295 | a fresh revision inside the window finds its slot empty and no other notice moves |
| Preservation.NextSlotHoldsNextRevision | pkg/backend/backend.go:215-225 | the slot read for the next revision holds that revision |
| Preservation.CommitRevisionTops | pkg/backend/backend.go:228-238 | when a revision becomes committed, the newest versions stay announced, on their way or queued, because enqueueing comes first |
| Preservation.RetryFindsTop | pkg/backend/retry/retry.go:222-230 | an uncertain write that is the newest of its key is what the retry's read finds, so no compaction has removed it |
| Preservation.RetryReadDecides | pkg/backend/retry/retry.go:222-240 | a retry that writes nothing has nothing to repair, or its repair is recorded as given up |
| Preservation.PopTops | pkg/backend/retry/retry.go:217-219 | what is popped is settled: every newest version stays tracked |
| Storing.CompareMeansAbove | pkg/backend/creator/naive.go:77-86 | a batch whose compare holds writes above every revision its key ever had, compacted or not |
| Storing.ClientWriteIsAbove | pkg/backend/txn.go:182-186 | the same for every client write at the point of its commit |
| Storing.RetryCompareHolds | pkg/backend/retry/retry.go:248-263 | while the uncertain write is the newest, the index is exactly what the retry compares with |
| Storing.ClampIsSafe | pkg/backend/compact.go:31-43 | committed revision read first and queue head second, the chosen revision is committed and below everything queued |
| Storing.ClampIsTheGreatestSafe | pkg/backend/compact.go:31-43 | a revision is at or below the chosen one if and only if it is requested, committed and below the queue's head |
| Storing.IndexRewritten | pkg/backend/scanner/scanner.go:471-491 | an index that no longer matches the snapshot carries a greater revision |
| Storing.SweepSparesIndexedVersion | pkg/backend/scanner/scanner.go:457-491 | no delete of a sweep, except for age, hits the version a present index names |
| Storing.SweepVersionGone | pkg/backend/scanner/scanner.go:457-475 | after an allowed delete every version that is gone is covered by a newer one within the revision or is a bare tombstone |
| Storing.StepKeepsInv | pkg/backend/backend.go:208-270 | every action of every component keeps the invariant |
| Storing.RunKeepsInv | pkg/backend/backend.go:208-270 | the invariant holds in every state of every run |
| Runs.RunExtends | pkg/backend/tso/tso.go:51-70 | over every run versions are never changed or forgotten by history, no revision is notified twice, committed and dealt only grow, the log only grows, and new versions of a key are above the committed revision and all its versions |
| Integrity.IndexIntegrity | pkg/backend/txn.go:149-269 | in every reachable state, for every key that did not expire, a present index names the greatest stored version with the matching flag; under an absent one the greatest stored version, if any, is a tombstone |
| Integrity.WritesCompareAndSwap | pkg/backend/txn.go:149-269 | a write that takes effect finds what it was told to expect (nothing, or exactly the named revision) and becomes what clients see |
| Integrity.RevisionsNeverGoBack | pkg/backend/creator/naive.go:77-86 | between any two states of a run, what a key gains lies above everything it ever had, even after deletion and compaction |
| Integrity.StoreAnswersAsHistory | pkg/backend/scanner/scanner.go:389-564 | at or above the swept revision the store answers a read as the full history does |
| Integrity.CompactionIsInvisible | pkg/backend/scanner/scanner.go:389-564 | in every reachable state, so after each single delete, reads and lists at or above the greatest compacted revision are those of the full history at every key that did not expire |
| Integrity.EachDeleteIsInvisible | pkg/backend/scanner/scanner.go:457-491 | one allowed delete changes no read at or above the compaction revision of any key it does not expire |
| Integrity.DurableKeysNeverExpire | pkg/backend/scanner/scanner.go:566-591 | over every run keys outside `/events/` lose no record to age |
| Integrity.CompactionStaysBelowUncertain | pkg/backend/compact.go:31-43 | from its choice to its end a compaction revision is committed and strictly below every write under way, uncertain or being retried |
| Integrity.RecordBoundsSweeps | pkg/backend/scanner/scanner.go:594-604 | the record is at or above every sweep in every state of a run if and only if no sweep of the run begins below an earlier one |
| Integrity.RecordStaysCommitted | pkg/backend/scanner/scanner.go:594-604 | over every run the record stays at or below the committed revision |
| Integrity.CurrentRangeIsRefusedExactlyWhenOvertaken | pkg/backend/range.go:142-146 | a list that takes the committed revision and is checked later is refused if and only if the last compaction recorded in between is above that revision |
| Counterexamples.CurrentRangeCanBeRefused | pkg/backend/scanner/scanner.go:609-624 | a run in which a compaction overtakes a list between its two reads |
| Integrity.RangeSurvivesCompaction | pkg/backend/scanner/scanner.go:227-256 | a range read that passes the check after taking its snapshot answers what history held at its revision, in all interleavings with ordered compactions; at a committed revision that stays so for ever |
| Integrity.LateRangeIsStable | pkg/backend/range.go:142-146 | an answer at a revision not yet committed stays true of a key if and only if the key is not written within that revision later, or is gone at it in both |
| EndToEnd.RangeReadsHistory | pkg/backend/scanner/scanner.go:227-304 | the same from the bytes: the answers of all partitions are in key order and, at every key that had not expired, exactly what history holds |
| EndToEnd.ListHistory | pkg/backend/range.go:125-175 | an answer of `List`, limited or not, is the first page of a list in key order that holds, at every key that had not expired, exactly what history holds at the revision |
| EndToEnd.PointReadsHistory | pkg/backend/range.go:84-122 | a point read over the bytes at or above every compaction answers what history holds at its revision |
| Counterexamples.LowerCompactionMisleadsRange | pkg/backend/scanner/scanner.go:596-604 | a run with a lower compaction after a higher one in which a range passes the check and misses a version |
| Counterexamples.TombstoneValueBreaksIndex | pkg/backend/range.go:84-90 | a client that stores the tombstone's bytes leaves a live index on a tombstone |
| Counterexamples.FailedCompareRevivesOldVersion | pkg/backend/scanner/scanner.go:531-536 | if plain deletes could report a failed compare, a compaction would bring an old version back |
| Sequencing.SlotsAreNeverShared | pkg/backend/txn.go:287-296 | waiting revisions sit in different slots, each with its own notice, in every reachable state |
| Sequencing.NoNoticeIsOverwritten | pkg/backend/txn.go:287-296 | a slot about to be filled is free |
| Sequencing.SequencerTakesTheNextRevision | pkg/backend/backend.go:214-226 | what the sequencer takes is the notice of the revision after the committed one |
| Sequencing.SequencerLosesNothing | pkg/backend/backend.go:208-270 | the output is exactly the valid notices in increasing revision order, none lost or repeated, and the batches sent concatenate to it |
| Sequencing.NextRevisionIsSomewhere | pkg/backend/txn.go:271-297 | while revisions are outstanding the next one is with a client, the retry worker, its slot or the sequencer |
| Sequencing.LostRevisionStalls | pkg/backend/backend.go:190-199 | behind a drifted-back revision nothing is ever committed or announced, in any run |
| Sequencing.LostExactlyWhenNamedAhead | pkg/backend/backend.go:190-206 | a run loses a revision if and only if one of its requests names a revision above the one it is dealt |
| Counterexamples.LostRevisionStopsEverything | pkg/backend/backend.go:195-199 | one update naming revision 2 when 1 is dealt, after which nothing is ever committed or announced |
| Progress.CatchesUpUnlessNamedAhead | pkg/backend/backend.go:190-270 | from every reachable state the committed revision can catch up with everything dealt if and only if no request so far named a revision above the one it was dealt |
| Progress.StopsOnlyBeyondTheWindow | pkg/backend/txn.go:287-297 | a notice can fall outside the window, with nothing more dealt or committed, if and only if a revision that is not lost was dealt a whole window ahead |
| Counterexamples.FullWindowStopsTheProgram | pkg/backend/txn.go:291-294 | a run of as many creates as there are slots, after which a notice can stop the program |
| SequencerLoop.Backend.Deal | pkg/backend/backend.go:190-206 | a fresh revision is spent whether or not the request is refused, and it is refused exactly when the protocol counts the revision as lost |
| SequencerLoop.Tso.Commit | pkg/backend/tso/tso.go:57-70 | the committed revision is set and the dealt one lifted to it if behind |
| SequencerLoop.Backend.Notify | pkg/backend/txn.go:271-297 | a revision inside the window goes into its slot, 0 is dropped, any other stops the program |
| SequencerLoop.Backend.Handle | pkg/backend/backend.go:227-262 | a valid notice is committed and cached; an invalid one is committed, queued first if uncertain |
| SequencerLoop.Backend.Collect | pkg/backend/backend.go:208-270 | one round moves the committed revision over the longest run of waiting revisions short of a full batch; batch, queue, cache and slots are exactly what that run says |
| Rounds.RoundIsARun | pkg/backend/backend.go:208-270 | taking out the notices of consecutive revisions, short of a full batch, is a run of the protocol that changes nothing but the sequencer's own variables |
| Rounds.CollectIsARun | pkg/backend/backend.go:208-270 | a round on the program's objects leads from the protocol state they stand for to the one they then stand for |
| RetryQueue.EventQueue.Push | pkg/backend/retry/queue.go:37-51 | the linked queue gains the event at its end |
| RetryQueue.EventQueue.Pop | pkg/backend/retry/queue.go:53-63 | the linked queue loses its oldest event, both ends cleared with the last one |
| RetryQueue.EventQueue.GetHead | pkg/backend/retry/queue.go:65-69 | the head is the oldest event, absent exactly when the queue is empty |
| RetryQueue.EventQueue.MinRevision | pkg/backend/retry/retry.go:123-129 | the revision of the oldest event, 0 when there is none |
| Convergence.WatchTellsTheAnnounced | pkg/backend/watch.go:37-138 | in every reachable state, the list at a revision with the later events applied is exactly the announced part of history, whatever was uncertain, retried or compacted |
| Convergence.ListThenWatchConverges | pkg/backend/retry/retry.go:161-264 | once all is committed and the retry queue empty, list plus later events is the current list at a key that did not expire if and only if the repair of its newest version was not given up, or that version and the last one told are both deletions |
| Convergence.DroppedExactlyWhenGivenUp | pkg/backend/retry/retry.go:196-219 | a repair counts as given up if and only if some retry of that version reads an empty value, or its commit neither takes effect nor loses to a newer write |
| Convergence.CarefulRunDropsNothing | pkg/backend/retry/retry.go:206-218 | no repair is given up in runs whose retries take effect or lose to a newer write and whose clients write no empty values |
| Convergence.WatcherHoldsTheCurrentList | pkg/backend/watch.go:37-138 | an accepted, never overflowing watcher that has read everything holds, on top of the earlier list, what the store holds of a key of its prefix, under the same exact condition on that key |
| EndToEnd.ClientKnowsTheCurrentState | pkg/backend/watch.go:37-100 | the same with the list read from the bytes of a partitioned snapshot that passed the compaction check |
| Carrying.EventsTellTheirWrites | pkg/backend/backend.go:240-256 | every announced event tells its write: a delete names the live version it removed, any other event the version it stored, for first writes and retries alike |
| Counterexamples.ConvergenceCanFail | pkg/backend/retry/retry.go:196-219 | a run that ends at rest with a key in the list and no event ever announced for it |
| Watch.WindowIsEnough | pkg/backend/watch.go:85-97 | within the cached window the lookup misses no event from the requested revision on |
| Watch.AcceptedExactlyFromTheWindowOn | pkg/backend/watch.go:52-84 | a watch is accepted exactly for no history, from the oldest cached event on, or, over an empty cache, for a revision above the committed one |
| Delivery.AcceptedWatchesAreAfterTheStart | pkg/backend/watch.go:52-84 | over every run an accepted watch asks for no history or for a revision above the one the leader started with, so no event of an earlier term is owed to it |
| Watch.HubActionKeeps | pkg/backend/watcherhub.go:41-92 | subscribing, looking up, broadcasting, consuming and leaving keep every watcher's answer a prefix of its selection |
| Watch.WatchIsExactlyOnce | pkg/backend/watch.go:37-138 | an accepted watcher whose buffer never filled has put out exactly its selection of the log as far as it got, and all of it when nothing is on the way |
| Watch.SelectionIsIncreasing | pkg/backend/watch.go:140-159 | a selection is increasing, so no event is in it twice, and holds exactly the matching events |
| Delivery.WatchersGetEveryEventOnce | pkg/backend/watch.go:37-138 | the same over every run of the whole protocol |
| Ring.Ring.Add | pkg/backend/ring.go:38-46 | the ring holds the last events of everything added |
| Ring.Ring.Reset | pkg/backend/ring.go:60-64 | the ring is empty again |
| Ring.Ring.FindEvents | pkg/backend/ring.go:84-118 | binary search and wrapped copy answer exactly like a lookup in the plain list, flags included |
| Events.FilterByPrefix | pkg/backend/watch.go:140-150 | exactly the events of the prefix, in order |
| Events.FilterByRevision | pkg/backend/watch.go:153-159 | dropping leading older events of an increasing batch drops exactly the older ones |
| Events.Process | pkg/backend/watch.go:126-131 | both filters together select what the watcher is to get |
| Events.CatchUpEvents | pkg/backend/watch.go:102-117 | the batches concatenate to the events and are at most as many as the result channel takes, also above 30000 events |
| Expiry.Scanner.GetTimeoutRevision | pkg/backend/scanner/scanner.go:156-177 | exactly the leading log entries that are old enough are popped and the last one's revision returned, 0 if none or if the engine expires by itself |
| Expiry.Scanner.StartCompaction | pkg/backend/scanner/scanner.go:195-198 | a compaction is logged before the log is searched, so it counts among the entries that may have aged |
| Expiry.LogKeepsAges | pkg/backend/scanner/scanner.go:147-154 | whatever lies within a logged compaction was written by the time it was logged |
| Expiry.TimeoutKeepsAges | pkg/backend/scanner/scanner.go:156-177 | the revision of the last entry popped as old enough bounds only versions at least the time to live old |
| Expiry.WriteKeepsAges | pkg/backend/scanner/scanner.go:566-591 | a new write is above every logged and timed-out revision, so it is no exception to what they say about age |
| Expiry.ExpiryIsSafe | pkg/backend/scanner/scanner.go:566-591 | over every run a version within a sweep's timeout was written at least the time to live ago, and a present index within it belongs to a key all of whose versions are that old |
| Expiry.YoungKeysAreKept | pkg/backend/scanner/scanner.go:566-591 | over every run a key all of whose versions are younger than the time to live has not expired, so everything proved of other keys holds of it |

## Left out

- gRPC and HTTP servers, the etcd shim and proxy, TLS, metrics, options: I/O and message conversion.
- Leader election, follower revision sync and change of leader within a run: lease timing lives in a client library.
- The TiKV and Badger adapters: the storage interface stands for them; only the in-memory batch is modelled.
- Engine-side expiry of records written with a lease: real time outside the program, no event is emitted.
- `RangeStream` and its receiver: partitions interleave on one channel and a rerun can repeat what was sent.
- `Count` and the counter of compacting scans: off by default, and the counter's result is dropped.
- The response messages of `Create`, `Update` and `Delete`: they copy results stated here and add a point read after a conflict.
- Point reads below the compacted revision: they do not look at the compact record, so nothing is claimed there.
- Values that are nil rather than empty slices, which the in-memory batch takes for missing records.
- Waiting times, back-off and cancelled contexts: any step may happen at any time.
- Expiry.ExpiryIsSafe: says nothing about which versions of an expired key stay readable, because expiry deletes index and versions in separate steps.
- Watch.AcceptedExactlyFromTheWindowOn: a revision below the oldest event of a cache that is not full yet is refused by the code although it could be answered; the lemma states the code.
- Watch.WatchIsExactlyOnce: a watcher whose buffer filled is excluded, because the hub drops an item before it removes the watcher.
- Convergence.CarefulRunDropsNothing: a condition on requests and engine answers alone, so only sufficient; the exact one is `Convergence.DroppedExactlyWhenGivenUp`.
- Progress.CatchesUpUnlessNamedAhead: says what can still happen from a state; no fairness of the scheduler is modelled.
- Listing.List: takes the partitioned and the whole snapshot as agreeing; `EndToEnd.ListSnapshot` discharges that from the bytes.
