# holt, verified model

holt is an embedded key-value store: an adaptive radix tree cut into 512 KB blob
frames, a write-ahead log with group commit, a background checkpointer that
writes dirty blobs in dependency order and truncates the log, and atomic batches
over one or several trees. This project models the parts of holt on which
durability and atomicity rest, and proves what they are there for.

`dafny verify dfyconfig.toml` checks everything.

## What is modelled

**Durability protocol** (`RedoLog`, `CheckpointProtocol`, `CheckpointInvariant`,
`CheckpointSteps`, `CrashRecovery`, `CheckpointRun`). Writers under the shared commit gate, the
checkpoint planner, the I/O worker, the log and the blob store as one machine of
twenty-one kinds of steps, interleaved in any order, with failing writes and flushes.
The results hold in every state of every run: crash anywhere, keep any log prefix
that holds the synced records and any surviving image of each blob, and replay
gives exactly the contents after that many whole records, so every key reads as
its last kept operation left it; no surviving image is ahead of the synced log;
truncation never drops a record the store lacks. `CheckpointRun` takes the machine
through one whole turn, from a put to the truncation of its record.

**Checkpoint code** (`BlobStore`, `Waves`, `BufferManager`, `EpochWrites`,
`EpochCommit`, `CheckpointRound`). The I/O worker and the planner as they are
written, with loops over entries, guids and epochs. Other threads run while the
I/O worker picks a wave and between a wave's writes and its flush, and while the
planner waits, merges or flushes the log; every store operation may fail. `calm`
runs are those without failures and interference. `points` records every moment
at which a crash could strike, `faults` and `failures` count what failed, and a
planner's `acts` record what it did. `doomed` is the set of blobs that are queued
for deletion at any time.

**Batches** (`AtomicBatch`, `BatchApply`, `BatchMeaning`, `BatchOracle`,
`BatchReplay`, `DbBatch`, `Database`). The meaning of a batch is the plain sequential one;
preflight with its overlay, the apply loop with its insert runs, the log it
writes and the replay of that log are each tied to it, for one tree and for
several. `BatchMeaning` says key by key what that meaning is: which operation
fails a batch and why, and which one a key's record comes from. `Database` is a
handle whose invariant is that its log replays to its live contents.

**Log** (`Bytes`, `WalOps`, `WalFormat`, `WalRoundTrip`, `WalCodec`,
`WalReader`, `WalDamage`, `LogBytes`, `Journal`, `GroupCommit`). The byte format, the encoders
that patch their buffer and the decoders that move a cursor, the replay scanner
on a log cut at any byte or damaged anywhere, the writer and its group-commit worker, and the
interleaving of submitters, flushes and worker.

**Structures** (`SlotTable`, `BlobFrame`, `RouteCache`, `Gate`, `HybridLatch`).
The allocator inside a frame, the longest-prefix route cache, and two
synchronisation primitives, one atomic operation per step, for any number of
threads.

## Where the code does not do what one would expect

Each of these is stated with a concrete case and with the exact condition.

- A rename whose two keys live in different blobs is not safe against a crash
  between the two blob writes: replay skips a rename whose source is gone
  (`RenameRecovery.RenameRecoversIff`, `RenameRecovery.RenameCanLoseTheValue`).
- A single `rename` to a destination key that is too long erases the source before
  the insert fails; the batch form refuses it beforehand
  (`Database.Database.Rename`, `Database.RenameCanLoseSource`).
- A forced rename of a key onto itself inside a batch does nothing live and gives
  the record a new version in replay (`BatchReplay.VersionsReplayIff`,
  `BatchReplay.SelfRenameChangesVersion`).
- Restoring a deferred batch gives back one flushing reference per blob. When two
  images of a blob are held up, because they are never ready or because a stale
  image comes in an earlier wave, the other reference outlives the batch
  (`Waves.LeakIff`; `EpochCommit.RepeatedGuidLeaks` with blocked images,
  `EpochCommit.StaleChildLeaks` with a child that changed between two epochs).
- A stale image gives up its flushing reference when the wave is retired and once
  more when it is restored. When no image of the blob is held up, the second one
  belongs to another epoch on the blob, if there is one (`Waves.LostIff`,
  `EpochCommit.StaleReleasesTwice`).
- Work ids are taken before the channel send. With synchronous appends sent in
  another order than their ids, the early return of `flush_up_to` can come while an
  accepted record is unsynced (`GroupCommit.EarlyReturnIff` for one run,
  `GroupCommit.BarrierIff` for all, `GroupCommit.BarrierNeedsOrder`). A flush
  through the channel is always a barrier (`GroupCommit.FlushBarrier`).
- `alloc_extent` rounds up in 32-bit arithmetic: above 0xFFFFFFF8 bytes the request
  wraps to zero and succeeds (`BlobFrame.Frame.AllocExtent`,
  `BlobFrame.WrappedExtents`). A build with overflow checks panics there instead.
- `free_node` takes a slot that is free already for a live one when the low byte of
  its next-free index reads as a node type, and no free list is sound afterwards
  (`BlobFrame.Frame.FreeNode`, `BlobFrame.DoubleFreeBreaks`).

## Model

| member | source | states |
|---|---|---|
| RedoLog.ReplayAbsorbs | src/api/tree.rs:2302-2396 | redo is idempotent: replaying records over an image that already holds some of them gives the image after all of them |
| RedoLog.ImageReads | src/api/tree.rs:2302-2396 | after any number of records a key reads as the last operation on it says: value and number of a put, nothing after an erase or without an operation |
| CheckpointSteps.DrainedIsDurable | src/checkpoint/round.rs:145-165 | in a state that passes the truncation gate, each blob's durable image holds the whole log |
| CheckpointSteps.RetireKeepsDirty | src/store/buffer_manager/mod.rs:1348-1371 | where the protocol invariant holds, the compare on retirement removes no dirty mark, so none of a writer that came after the snapshot |
| CheckpointSteps.MarksTheOldest | src/store/buffer_manager/mod.rs:887-912 | a writer marks its blob with the number of its operation and a compaction with the highest there is, the lower of two marks stays, and no other mark changes |
| CheckpointSteps.OnlyNoopsGoUnmarked | src/api/tree.rs:694-771 | a mutation needs no mark exactly when it erased a key that was not there |
| CheckpointSteps.GateAdmitsIff | src/checkpoint/round.rs:145-225 | a round can begin, and the log be truncated, exactly when no writer has mutated anything yet, whoever waits with reserved numbers |
| CrashRecovery.NextKeeps | src/checkpoint/round.rs:178-383 | every step of writers, planner, I/O worker, log and store keeps the protocol invariant |
| CrashRecovery.CrashRecovers | src/checkpoint/io.rs:143-250 | crash in any state of any run, any kept log prefix with the synced records, any surviving image: replay gives exactly the contents after that many whole records, and every key reads with value and number as its last kept operation says |
| CrashRecovery.WalBeforeData | src/checkpoint/round.rs:201-286 | every image a crash may leave holds only whole synced records, and at least the truncated ones |
| CrashRecovery.TruncationIsSafe | src/checkpoint/round.rs:145-165 | whenever a run truncates the log, the durable store already reflects every dropped record |
| CrashRecovery.NothingLost | src/checkpoint/round.rs:221-364 | in every reachable state each blob is durable up to the log or still marked, claimed or being written |
| CrashRecovery.CacheReads | src/api/tree.rs:595-663 | in every reachable state a key that no writer is working on reads from the cache as its last logged operation says |
| CheckpointRun.FullTurn | src/checkpoint/round.rs:178-383 | the machine has a run from a put through mark, record, snapshot, clone, write, flush and truncation, after which the store alone has the value |
| RenameRecovery.RenameRecoversIff | src/api/tree.rs:2341-2371 | a rename, which moves the value under its own number and touches no other key, recovers exactly when both blob writes landed, neither did, or it is forced and the destination's landed |
| RenameRecovery.RenameCanLoseTheValue | src/api/tree.rs:2341-2371 | a concrete crash after which neither key has the value |
| BlobStore.CrashClosed | src/checkpoint/io.rs:257-351 | when every image refers only to flushed blobs that are not being deleted, no subset of landed writes and deletes leaves a dangling reference |
| BlobStore.FlushAnchored | src/checkpoint/io.rs:257-351 | a flush turns such a store into a closed one |
| BlobStore.DeletesClosedIff | src/checkpoint/io.rs:206-232 | deletes are safe at every crash point exactly when no other durable blob refers to a blob being deleted |
| Waves.AcyclicDrains | src/checkpoint/io.rs:257-351 | if children can be ranked below parents, the waves flush every entry |
| Waves.DeferredExactly | src/checkpoint/io.rs:284-290 | the deferred entries are exactly those in a set each of whose members waits for an unsettled child that has no entry outside the set |
| Waves.DeferredCause | src/checkpoint/io.rs:284-290 | every deferred entry starts a path of entries, each waiting for the next, that ends at a child with no entry or comes back to itself |
| Waves.DeferredIffHopeless | src/checkpoint/io.rs:284-290 | with one entry per blob, an entry is deferred exactly when there is such a path |
| Waves.StaleIff | src/checkpoint/io.rs:266-330 | undisturbed waves meet a stale entry exactly when the least set closed under readiness holds one, and otherwise write that set |
| Waves.RunIsLeast | src/checkpoint/io.rs:266-330 | without a stale entry, undisturbed waves write the least set closed under readiness |
| Waves.GivenExactly | src/checkpoint/io.rs:364-370 | references given up against references held: fewer exactly when two entries of a guid are left waiting, one more exactly when one was stale and none is waiting |
| Waves.HeldIff | src/checkpoint/io.rs:266-330 | undisturbed waves leave an entry waiting exactly when it is never ready or only in a later wave than a stale image |
| Waves.LeakIff | src/checkpoint/io.rs:266-370 | for any batch and cache, a reference to a blob is left behind exactly when two of its entries are never ready or only in a later wave than a stale image |
| Waves.BlockedLeaks | src/checkpoint/io.rs:284-290 | over current images only, a reference is left behind exactly when two entries of the blob are blocked, and none is given up too often |
| Waves.LostIff | src/checkpoint/io.rs:266-370 | for any batch and cache, one reference too many is given up exactly when an entry of the blob is stale and none of its entries is held up in that way |
| Waves.RestIsBlocked | src/checkpoint/io.rs:284-290 | each entry left over waits for an unsettled child all of whose entries are left over |
| Waves.CountRemaining | src/checkpoint/io.rs:262-265 | `remaining_by_guid` starts as the number of entries per guid |
| Waves.MarkFlushed | src/checkpoint/io.rs:308-318 | marking one entry keeps `remaining_by_guid`, the durable set and the per-epoch counts equal to their definitions |
| BufferManager.Buffer.RemoveOneFlushing | src/store/buffer_manager/mutation.rs:52-59 | one reference less, for this guid only, never below zero |
| BufferManager.Buffer.MarkDirty | src/store/buffer_manager/mod.rs:887-912 | keeps the lowest mark; no mark without a cached image or for a blob queued for deletion |
| BufferManager.Buffer.MarkForDelete | src/store/buffer_manager/mod.rs:1055-1075 | queues the delete with the lowest number and forgets mark, references and cached image |
| BufferManager.Buffer.RetireWriteThrough | src/store/buffer_manager/mod.rs:1348-1371 | drops one reference, and the dirty mark exactly when it is the drained one and not the structural one |
| BufferManager.Buffer.CheckCurrent | src/store/buffer_manager/mod.rs:1336-1346 | an entry is written exactly when its content version is the cached one; a missing cache image fails the wave |
| BufferManager.Buffer.WriteThroughBatch | src/store/buffer_manager/mod.rs:1297-1334 | on error some writes may be issued and nothing is retired; otherwise exactly the current entries are written and every entry gives up one reference, never below zero; no blob disappears; anchored images keep every crash point safe |
| BufferManager.Buffer.FlushInner | src/store/buffer_manager/mod.rs:1374-1376 | a successful flush makes exactly what was issued durable; a failed one changes nothing known |
| BufferManager.Buffer.RestoreDirty | src/store/buffer_manager/mod.rs:984-1008 | the marks are the old ones and those put back, the lower where both exist, without blobs queued for deletion; each listed guid gives up one reference if it has one |
| BufferManager.Buffer.RestorePendingDeletes | src/store/buffer_manager/mod.rs:1098-1116 | the queue is the old one and what is put back, with the lower of two sequence numbers |
| BufferManager.Buffer.ExecutePendingDelete | src/store/buffer_manager/mod.rs:1193-1195 | removes one blob from the manifest; crash points stay safe if nothing refers to it |
| EpochWrites.ChildrenReady | src/checkpoint/io.rs:333-351 | true exactly when every child is durable in this batch, or outside it, unmarked and in the store |
| EpochWrites.NextWave | src/checkpoint/io.rs:269-282 | a wave holds only unflushed entries whose children are settled; without interference, all of them |
| EpochWrites.MarkWave | src/checkpoint/io.rs:304-323 | exactly the written entries of a wave become flushed, and a stale one is reported |
| EpochWrites.FlushWave | src/checkpoint/io.rs:292-329 | after a wave everything flushed is durable with its newest flushed image, blobs outside the batch look the same, and crash points stay safe unless an image names a doomed blob whose write is outstanding |
| EpochCommit.WriteEntries | src/checkpoint/io.rs:257-331 | terminates; what undisturbed waves write, find stale and give up is determined by batch, cache and settled blobs; deferral is reported exactly when something is left; no blob disappears; crash points stay safe unless an image names a doomed blob whose write is outstanding |
| EpochCommit.CollectEntries | src/checkpoint/io.rs:147-172 | the batch is all entries of all epochs in order; it fails exactly when the children of some image cannot be read |
| EpochCommit.CollectMarks | src/checkpoint/io.rs:353-370 | the mark restored for a guid is that of its last entry |
| EpochCommit.RestoreEntries | src/checkpoint/io.rs:353-370 | every restored entry is marked dirty again or queued for deletion, no other blob gets a mark, and one reference per guid is given back |
| EpochCommit.RestoreAllPending | src/checkpoint/io.rs:372-378 | every pending delete of every epoch is queued again |
| EpochCommit.ExecuteDeletes | src/checkpoint/io.rs:206-226 | each pending delete is executed or queued again, epoch by epoch; crash points stay safe if no image refers to an executed one |
| EpochCommit.RestoreApplied | src/checkpoint/io.rs:397-413 | deletes whose flush failed are queued again |
| EpochCommit.DeletePhase | src/checkpoint/io.rs:206-250 | deletes run on a batch that is wholly durable and touch only pending deletes; an epoch is reported without error exactly when each of its deletes went through and the flush did, and then they are synced; nothing else disappears |
| EpochCommit.CommitEpochBatch | src/checkpoint/io.rs:143-250 | the report is exact: all epochs failed when collecting, writing or flushing failed, all fine when the batch is deferred, and otherwise each fine exactly when its deletes are; on every return path each drained blob is durable with its newest flushed image, deleted by one of the epochs, or marked again; what is reported as flushed is durable or was deleted after; each delete is synced or queued; only pending deletes run, they start from a store that holds every image of the batch, and nothing else disappears; crash points are safe before the deletes if no image names a doomed blob with an outstanding write, and after them if also no image left names a deleted blob; undisturbed, what is flushed, stale and given up is determined by the inputs |
| EpochCommit.WritePhase | src/checkpoint/io.rs:174-203 | the deletes come next exactly on the paths where every image is flushed; on all others everything drained is put back, every epoch is reported as failed after an error and as fine after a deferral, and an error is exactly one failed operation |
| EpochCommit.ImagesReferNot | src/checkpoint/io.rs:206-232 | the images left when the deletes begin name no pending delete if the newest image of each blob in the batch and the images outside it do not; superseded images do not matter |
| EpochCommit.TwoVersionsDefer | src/store/buffer_manager/mod.rs:1336-1346 | a batch with two versions of one blob, none newer than the cache, is never flushed whole, so it deletes nothing |
| EpochCommit.UnlinkingDefers | src/checkpoint/io.rs:143-250 | a parent that drops its child between two coalesced epochs: whatever happens meanwhile, the child stays and its delete is queued again |
| EpochCommit.RunWorker | src/checkpoint/io.rs:98-121 | any sequence of batches with other threads in between: nothing drained by any batch is lost when it ends, each report is as exact as that of one commit, deletes run only on whole batches, and if every batch meets the condition of a commit every crash point of the run is safe |
| EpochCommit.RepeatedGuidLeaks | src/checkpoint/io.rs:364-370 | committing two epochs with the same blocked blob leaves one of its two references behind |
| EpochCommit.StaleReleasesTwice | src/store/buffer_manager/mod.rs:1327-1331 | committing one stale image of a blob on which another epoch holds a reference leaves none |
| EpochCommit.StaleChildLeaks | src/checkpoint/io.rs:364-370 | committing two epochs with a parent and its changed child leaves one reference to the parent behind and loses one to the child |
| CheckpointRound.Planner.MaybeTruncate | src/checkpoint/round.rs:145-165 | truncates exactly when there is work to checkpoint and nothing is in flight, dirty, flushing or pending |
| CheckpointRound.Planner.ReapReady | src/checkpoint/round.rs:80-101 | epochs leave in FIFO order up to the first that still runs; each earlier one is in flight, reported or given back; no mark is lost; it fails exactly on an error, and truncates the log exactly when nothing is left |
| CheckpointRound.Planner.WaitOne | src/checkpoint/round.rs:123-138 | the oldest epoch is reported, or given back when its report never comes; success means a report without error |
| CheckpointRound.Planner.Drain | src/checkpoint/round.rs:110-121 | empties the pipeline; every epoch is reported or given back, it succeeds exactly when all were reported without error, and then the log is truncated unless something is marked, flushing or queued |
| CheckpointRound.Planner.MakeRoom | src/checkpoint/round.rs:103-108 | a round goes on only below the limit of epochs in flight, with every earlier epoch in flight or reported; it fails exactly on an error |
| CheckpointRound.Planner.Snapshot | src/store/buffer_manager/mod.rs:926-951 | takes every mark and every pending delete, adds one reference per drained blob, and leaves out blobs queued for deletion |
| CheckpointRound.Planner.CaptureVersions | src/store/buffer_manager/mod.rs:956-974 | the content version of every drained blob, or an error exactly when one has no cached image |
| CheckpointRound.Planner.CloneVersioned | src/checkpoint/round.rs:385-405 | stale are exactly the drained blobs whose content version has moved, with their own marks; an error exactly when one has left the cache |
| CheckpointRound.Planner.ReturnStale | src/checkpoint/round.rs:287-297 | stale blobs and all deletes go back; what is kept for sending is exactly the rest |
| CheckpointRound.Planner.Dispatch | src/checkpoint/round.rs:287-364 | an epoch is sent exactly when there is something to write, delete, merge or flush, and holds exactly what was not stale; nothing drained is lost |
| CheckpointRound.Planner.Submit | src/checkpoint/round.rs:221-364 | on every path from the snapshot on, each mark and delete that was there is sent or given back; without an error the round is complete |
| CheckpointRound.Planner.Ship | src/checkpoint/round.rs:253-364 | an epoch is sent only after the log was flushed to the watermark of the snapshot that it comes from |
| CheckpointRound.Planner.ShipClones | src/checkpoint/round.rs:278-364 | what the epoch holds is exactly what the versions captured at the snapshot and the cache at the time of the clones leave of it |
| CheckpointRound.Planner.RunRound | src/checkpoint/round.rs:178-383 | a round succeeds exactly when nothing failed, and then it took one snapshot, flushed the log to its watermark, cloned, and sent exactly the marks that were not stale and the deletes, or nothing when nothing was due; no mark and no delete that was there at the start of a round, or that its snapshot took, is lost: it is marked, queued or in an epoch the round sent; every epoch that was in flight is accounted for |
| AtomicBatch.ProjectedRecord | src/api/tree.rs:1131-1136 | the overlay record, or else the live one, is the record of the projected tree |
| AtomicBatch.ProjectedPrefixEmpty | src/api/tree.rs:1138-1157 | overlay and live scan decide emptiness of the prefix in the projected tree |
| AtomicBatch.PreflightOp | src/api/tree.rs:1017-1114 | verdict and overlay follow the sequential meaning of one operation |
| AtomicBatch.PreflightGuardFree | src/api/tree.rs:1116-1129 | the shape-only path gives the verdict of the sequential meaning |
| AtomicBatch.Preflight | src/api/tree.rs:993-1015 | the verdict is that of the first failing operation in sequence, for every live tree and batch; `BatchMeaning.RunFaults` says which that is |
| BatchMeaning.ShapeIff | src/api/tree.rs:1159-1168 | a key and a value fit exactly when the lengths of the terminated key and of the value have a two-byte code |
| BatchMeaning.StepFaults | src/api/tree.rs:1017-1114 | an operation fails with this fault exactly when its guard, source, destination or lengths say so |
| BatchMeaning.RunFaults | src/api/tree.rs:993-1129 | a batch fails exactly when some operation does on the state its predecessors leave, with the fault of the first |
| BatchMeaning.RunReads | src/api/tree.rs:1179-1278 | after a batch every key has the record of its last writer, under the number of that operation, or its old record if no operation wrote it |
| BatchOracle.MatchesModel | fuzz/fuzz_targets/atomic_model.rs:155-231 | batches whose guards name versions read beforehand give the verdict and contents of the version-free reference model |
| BatchApply.SameShapeRunLen | src/api/tree.rs:269-285 | the longest run of inserts with equal key and value lengths |
| BatchApply.Walker.InsertBatch | src/engine/walker/insert.rs:322-371 | applies a non-empty in-order prefix of a run, or fails only where the run fails |
| BatchApply.Walker.ApplyInsertRun | src/api/tree.rs:1281-1334 | however the walker splits the run, the result is the sequential one |
| BatchApply.Walker.ApplyRename | src/api/tree.rs:1336-1391 | succeeds exactly when the sequential rename does, with its result |
| BatchApply.Walker.ApplyOp | src/api/tree.rs:1210-1276 | an operation that preflight let through leaves the sequential result |
| BatchApply.Walker.ApplyBatch | src/api/tree.rs:1179-1278 | after a successful preflight no error exit is taken, values and versions are the projected ones, and the pushed items log the batch |
| BatchApply.ItemsLogEveryOp | src/api/tree.rs:1185-1276 | the pushed items expand to one operation per sequence number in order, despite unlogged assertions and runs |
| BatchApply.EncodedBatchRecordLen | src/api/tree.rs:228-254 | the reserved length is the record size of the pushed items |
| BatchReplay.BatchReplays | src/api/tree.rs:2302-2396 | replaying a committed batch never fails, gives the live values, and versions differ exactly on the restamped keys |
| BatchReplay.VersionsReplayIff | src/api/tree.rs:2341-2371 | replay reproduces every record of a batch exactly when no forced self-rename is left unrewritten |
| BatchReplay.SelfRenameChangesVersion | src/api/tree.rs:2341-2371 | a concrete batch after which replay gives another version |
| BatchReplay.ReplayConcat | src/journal/reader.rs:81-106 | replay of two stretches is replay of the second on the result of the first, with the sequence numbers continued |
| BatchReplay.RenameReplaysOnce | src/api/tree.rs:2341-2371 | a rename that an earlier replay pass carried out is skipped by the next one, exactly unless it is a forced rename of a key onto itself |
| DbBatch.GroupBatchOps | src/api/db.rs:617-644 | one group per tree in order of first appearance with exactly its operations in order; an unknown tree refuses all |
| DbBatch.PreflightGroups | src/api/db.rs:646-655 | checking each group against its live tree gives the verdict of running all groups |
| DbBatch.GroupsAlone | src/api/db.rs:646-681 | groups on different trees do not meet: all commit exactly when each does alone on its live tree, each leaves what it would alone, and the first that fails alone decides |
| DbBatch.ApplyGroups | src/api/db.rs:657-681 | after preflight all groups apply with their own base numbers and push all their items into one record |
| DbBatch.GroupsItemsLog | src/api/db.rs:657-681 | the items of all groups expand to the logs of all groups |
| DbBatch.GroupsReplay | src/api/db.rs:657-681 | replay of the one record gives every tree what its group did live, versions up to the restamped keys |
| Database.Database.PutConditional | src/api/tree.rs:595-663 | put, put_if_absent and compare_and_put mutate exactly when the terminated key and the value are at most 65535 bytes and the condition holds, answer with the matching error or refusal otherwise, store the value under the next number, log exactly then, and keep the log replayable to the live contents |
| Database.Database.DeleteConditional | src/api/tree.rs:694-771 | reports whether it removed the key, logs exactly then, keeps the log replayable |
| Database.Database.Rename | src/api/tree.rs:785-890 | answers and moves the value as its arguments say, logs exactly a mutation, and keeps the log replayable exactly unless the destination is too long, in which case the source is lost |
| Database.RenameCanLoseSource | src/api/tree.rs:785-890 | a concrete rename that loses its source where the batch form refuses |
| Database.Database.Atomic | src/api/tree.rs:944-991 | commits, refuses or fails as the first failing operation says; a committed batch leaves every key as its last writer did, any other changes nothing; consumes one number per logged operation, writes one record, keeps the log replayable |
| Database.Database.AtomicDb | src/api/db.rs:587-615 | the same for batches over several trees under one record |
| WalRoundTrip.OpRoundTrip | src/journal/codec.rs:587-625 | every primitive body decodes to its operation, whatever follows |
| WalRoundTrip.RunRoundTrip | src/journal/codec.rs:639-662 | a compact run decodes to the plain inserts it stands for |
| WalRoundTrip.ItemsRoundTrip | src/journal/codec.rs:606-624 | any mix of items decodes to their flat operations |
| WalRoundTrip.RecordRoundTrip | src/journal/codec.rs:539-572 | any record followed by any bytes decodes to its flat operations, sequence number and exact length |
| WalRoundTrip.CutRecord | src/journal/codec.rs:539-572 | a record cut at any byte is recognised as truncated, never as damaged |
| WalCodec.WriteSingleRecord | src/journal/codec.rs:193-217 | appends exactly the encoded record, with length and checksum patched in |
| WalCodec.BatchEncoder.constructor | src/journal/codec.rs:326-347 | opens a record at the end of the buffer without touching what was there |
| WalCodec.BatchEncoder.PushOp | src/journal/codec.rs:352-359 | adds one item |
| WalCodec.BatchEncoder.PushInsertRun | src/journal/codec.rs:368-408 | adds one run, or a plain insert for a run of one |
| WalCodec.BatchEncoder.Finish | src/journal/codec.rs:436-446 | the buffer gains exactly the encoding of everything pushed |
| WalCodec.BatchEncoder.Drop | src/journal/codec.rs:449-458 | an unfinished encoder restores the buffer |
| WalCodec.Cursor.DecodeInsertRun | src/journal/codec.rs:639-662 | the loop expands a run as the format says, with its four errors |
| WalCodec.Cursor.DecodeBatchBody | src/journal/codec.rs:606-624 | the loop reads inner items until the announced number, as the format says |
| WalCodec.Cursor.DecodeOp | src/journal/codec.rs:587-605 | reads one primitive body and moves exactly past it |
| WalCodec.DecodeRecordBody | src/journal/codec.rs:574-581 | accepts a body only if it is used up |
| WalCodec.DecodeRecordAt | src/journal/codec.rs:539-572 | decides every byte string as the format says, and accepts only bytes that start with the magic, have the announced length and end with the checksum of all before it |
| WalFormat.AcceptsOnlyIntact | src/journal/codec.rs:539-572 | an accepted record has its magic, its whole length and its checksum |
| WalDamage.AcceptsOnlyRecords | src/journal/codec.rs:539-662 | the converse of the round trip: accepted bytes are the frame of some record, spelled as its writer would, up to the value of a force byte |
| WalDamage.RejectsBecause | src/journal/codec.rs:539-572 | which error a record is turned away with before its body is read, for every byte string |
| WalDamage.ItemRejectsBecause | src/journal/codec.rs:606-662 | which error an item of a batch is turned away with: nested, unknown, empty run, run beyond the announced number |
| WalDamage.DamageIsRejected | src/journal/codec.rs:539-572 | a record whose bytes changed behind the length and no longer match the checksum is rejected as damaged, whatever follows |
| WalDamage.DamageEndsReplay | src/journal/reader.rs:63-136 | replay of a log with such a record anywhere is an error at its offset, never a torn tail |
| WalDamage.TornIffShort | src/journal/reader.rs:104-136 | the decoder reports truncation exactly when bytes of the header or of the announced record are missing |
| WalDamage.TornTailIsShort | src/journal/reader.rs:63-136 | replay of any bytes stops without an error only at their end or where a record is cut short |
| WalDamage.RecordBytes | src/journal/codec.rs:193-217 | a record byte by byte: magic, length, number, tag, body, checksum |
| WalDamage.BodyBytes | src/journal/codec.rs:461-517 | the bodies of the three primitive operations byte by byte |
| WalDamage.BatchBytes | src/journal/codec.rs:326-446 | a batch of items byte by byte |
| WalDamage.FileHeaderBytes | src/journal/codec.rs:117-150 | the file header byte by byte |
| WalDamage.OpensIff | src/journal/codec.rs:117-150 | a log is opened exactly when it has 32 bytes that start with the magic and format version 3, and which error it gets otherwise |
| WalReader.FileHeaderRoundTrip | src/journal/codec.rs:117-150 | the file header decodes to itself |
| WalReader.ReplayBytes | src/journal/reader.rs:63-127 | the scanner loop hands out what the format says and keeps the highest sequence number |
| WalReader.HighestIsMaximum | src/journal/reader.rs:89-102 | the reported number is attained and no smaller than any other |
| WalReader.CallAt | src/journal/reader.rs:81-106 | operation `j` of record `i` is handed out in its place, under the record's number plus `j` modulo 2^64, with the record's offset |
| WalReader.CallsCount | src/journal/reader.rs:81-106 | nothing else is handed out |
| WalReader.WholeIsExact | src/journal/reader.rs:104-112 | the last whole record ends inside the cut and the next one does not |
| WalReader.TornTailTheorem | src/journal/reader.rs:63-136 | a log cut at any byte after its header replays without error, hands out exactly the whole records, and reports the start of the torn one |
| LogBytes.ReservationIsExact | src/api/tree.rs:228-254 | the reserved length equals the bytes of the encoded record |
| LogBytes.EncodedDbBatchRecordLen | src/api/db.rs:892-911 | the multi-tree estimate is never less than the bytes of the encoded record |
| LogBytes.CutLogRecovers | src/api/tree.rs:2302-2396 | opening on a cut log gives the state of the records wholly inside the cut: a prefix of history, batches all or nothing |
| Journal.WalWriter.DrainToOs | src/journal/writer.rs:183-191 | moves the buffer to the file; the log's contents stay the same |
| Journal.WalWriter.AppendEncoded | src/journal/writer.rs:167-177 | the log gains exactly the record; it is buffered below 65536 bytes and handed to the system from there on; nothing is synced by it |
| Journal.WalWriter.Flush | src/journal/writer.rs:200-204 | everything appended is synced |
| Journal.WalWriter.Truncate | src/journal/writer.rs:234-245 | only the 32 bytes of the header are left, synced |
| Journal.AfterTruncate | src/journal/writer.rs:234-245 | the log is its header and the appends since the last truncate, in order |
| Journal.Worker.WriteAppendBatch | src/journal/group_commit.rs:419-444 | a batch is appended in order and synced once if any of it asks; the two counters rise to its largest id |
| Journal.Worker.ProcessAppendBatch | src/journal/group_commit.rs:355-417 | whatever run is gathered, commands are handled in channel order and synchronous ones are acknowledged after the sync; a run stops only at 262144 bytes, at another kind of command, at an empty channel or when its time is over; both counters rise exactly to what was written and synced |
| Journal.Worker.HandleNext | src/journal/group_commit.rs:303-352 | backlog before channel: the order of commands is kept in every turn, and both counters are exact |
| Journal.Worker.RunWorker | src/journal/group_commit.rs:283-353 | the log ends as if every command had been handled alone in order |
| GroupCommit.ChannelOrder | src/journal/group_commit.rs:283-444 | in every state of every interleaving, file plus buffer is the header plus the records sent since the last truncate, and the synced part is such a prefix |
| GroupCommit.AckIsDurable | src/journal/group_commit.rs:419-461 | an acknowledged synchronous append is in the synced prefix, in every run |
| GroupCommit.EveryoneIsAnswered | src/journal/group_commit.rs:283-461 | in every run, once all that was sent is handled, every synchronous append is acknowledged and every flush through the channel has returned |
| GroupCommit.WatermarkIsComplete | src/journal/group_commit.rs:157-196 | a watermark read under the exclusive gate covers every accepted record |
| GroupCommit.FlushBarrier | src/journal/group_commit.rs:199-211 | when `flush_up_to` returns, every record up to the watermark is synced: always through the channel, and on the early return for asynchronous or in-order appends |
| GroupCommit.BarrierNeedsOrder | src/journal/group_commit.rs:164-172 | a concrete run of synchronous appends for which it is not |
| GroupCommit.BarrierIff | src/journal/group_commit.rs:199-211 | `flush_up_to` is a barrier in every run exactly when no synchronous append can overtake another |
| GroupCommit.EarlyReturnIff | src/journal/group_commit.rs:199-211 | in any run, an early return of `flush_up_to` is a barrier exactly when no append at or below its watermark is still unsynced in the channel |
| SlotTable.PackRoundTrip | src/layout/slot.rs:81-95 | packing an entry in 32 bits loses nothing; the offset has the low 17 bits |
| SlotTable.NodeSizes | src/layout/node.rs:66-75 | the body sizes of the eight node types, field by field |
| SlotTable.FrameLayout | src/layout/header.rs:12-26 | header, slot table and data area of a frame, and the code space of a slot entry |
| BlobFrame.TiledDisjoint | src/store/blob_frame.rs:337-488 | regions of the data area never overlap |
| BlobFrame.TiledCovers | src/store/blob_frame.rs:337-488 | every byte in use belongs to a region |
| BlobFrame.BodiesDisjoint | src/store/blob_frame.rs:337-488 | bodies of different slots, live or freed, never overlap |
| BlobFrame.Frame.constructor | src/store/blob_frame.rs:224-246 | a fresh frame holds the empty-root sentinel in slot 1 and satisfies the allocator invariant |
| BlobFrame.Frame.Bump | src/store/blob_frame.rs:394-424 | succeeds exactly while fewer than 10240 slots are taken and the body fits a page of 524288 bytes; only Blob bodies may use the reserved tail of 128; which error otherwise |
| BlobFrame.Frame.TakeFree | src/store/blob_frame.rs:352-388 | pops the head of a free list for a body of the same size, leaving all other slots alone |
| BlobFrame.Frame.AllocNode | src/store/blob_frame.rs:337-424 | takes the head of its own list, then of the other list of that size, then a new slot; keeps tiling, exact acyclic free lists and the Blob count; a Blob is granted while slots remain and no Blob has used the tail |
| BlobFrame.Frame.FreeNode | src/store/blob_frame.rs:430-461 | a slot is accepted exactly when the low byte of its tag names a node type, and becomes the head of that list; the allocator invariant survives exactly unless the slot was free already, and then no assignment of lists fits |
| BlobFrame.PushTwice | src/store/blob_frame.rs:444-461 | pushing a slot that is on a list puts it on two lists or makes a list cyclic |
| BlobFrame.DoubleFreeBreaks | src/store/blob_frame.rs:430-461 | a concrete double free after which no assignment of lists fits |
| BlobFrame.Frame.AllocExtent | src/store/blob_frame.rs:466-488 | an aligned extent at the cursor, clear of the reserved tail; it covers the request exactly up to 0xFFFFFFF8 bytes |
| BlobFrame.WrappedExtents | src/store/blob_frame.rs:466-488 | two requests of 0xFFFFFFF9 bytes are granted the same offset |
| RouteCache.LongestIsMaximal | src/engine/route_cache.rs:109-135 | no longer prefix of the key has a route |
| RouteCache.NextLongest | src/engine/route_cache.rs:138-159 | removing the longest match exposes the next longest |
| RouteCache.RememberPrefixLen | src/engine/route_cache.rs:304-309 | binary search keeps the lengths strictly descending and adds the new one |
| RouteCache.RebuildPrefixLengths | src/engine/route_cache.rs:296-302 | exactly the lengths of the cached prefixes, descending |
| RouteCache.RouteCache.Lookup | src/engine/route_cache.rs:109-135 | the longest cached prefix of the key, or none |
| RouteCache.RouteCache.Invalidate | src/engine/route_cache.rs:138-159 | removes exactly the route the caller saw, if it is still that one |
| RouteCache.RouteCache.RefreshParentVersion | src/engine/route_cache.rs:162-183 | changes only the parent version of a route that still matches |
| RouteCache.RouteCache.HasDominatingPrefix | src/engine/route_cache.rs:244-265 | whether a shorter prefix already serves the same crossing |
| RouteCache.RouteCache.PruneDominatedPrefixes | src/engine/route_cache.rs:267-294 | removes exactly the longer routes of the same crossing |
| RouteCache.RouteCache.Learn | src/engine/route_cache.rs:189-241 | overwrites, skips or adds; a new route leaves no longer one of its crossing; a cache of 16384 routes that nothing else makes room in gives up exactly the one under the cursor, which moves on by one; prefixes above 96 bytes are ignored; keeps order, lengths and capacity |
| RouteCache.RouteCache.Insert | src/engine/route_cache.rs:229-240 | adds a route at the end, or exactly in place of the one under the cursor when the cache is full |
| Gate.GateIsSafe | src/concurrency/gate.rs:36-82 | in every interleaving the word is the owner's write bit plus the number of shared holders, and an exclusive holder is alone |
| Gate.CountFallsWhileOwned | src/concurrency/gate.rs:53-74 | once the write bit is set the count never rises |
| Gate.ExitLosesNoEntrant | src/concurrency/gate.rs:80-82 | the store of zero on exit erases nobody's entry |
| Gate.EntersWhenFree | src/concurrency/gate.rs:36-82 | undisturbed, a thread gets in shared whenever the write bit is clear and exclusively when nobody is in, and is refused while the bit is set |
| HybridLatch.ModesExclude | src/concurrency/hybrid_latch.rs:90-136 | a writer excludes shared holders and other writers |
| HybridLatch.VersionFixesContent | src/concurrency/hybrid_latch.rs:130-136 | two writer-free moments with the same version hold the same content |
| HybridLatch.ValidatedReadIsAtomic | src/concurrency/hybrid_latch.rs:57-80 | a true validate means no writer held the latch between the flag checks and everything read is one content |
| HybridLatch.WriterGetsIn | src/concurrency/hybrid_latch.rs:115-136 | undisturbed, a writer gets in when nobody holds the latch and leaves it with the next version and its content |
| HybridLatch.ReaderGetsIn | src/concurrency/hybrid_latch.rs:90-113 | undisturbed, a shared holder gets in and out while there is no writer |
| HybridLatch.OptimisticReadSucceeds | src/concurrency/hybrid_latch.rs:57-80 | an undisturbed optimistic read without a writer is validated with the content it saw |

## Left out

- Tree walkers, node splits, spillover, merge and range scans: the batch walker is used through its contract only.
- Blob deletes and blob creation in the crash machine: keys belong to fixed blobs there; references between blobs are in `EpochCommit`.
- Torn blob frames: a blob image lands whole or not at all.
- The commit gate in the crash machine: a writer that has its sequence numbers and has mutated nothing is never kept off by a snapshot, inside the gate or not, so the machine has more runs than the code.
- Renames in the crash machine: a rename half of whose blobs landed does not always replay; `RenameRecovery` says when it does.
- Reopening a log with a torn tail and appending to it; sequence numbers after truncation and reopening.
- The manual checkpoint path and its failure handling.
- File errors in the log writer, and errors raised by the replay callback.
- Weak memory orderings, and wrap-around of version counters and of the gate's count.
- CRC-32: any function from bytes to 32-bit values.
- Tree catalog lifecycle, statistics, configuration, key-path helpers, foreign interfaces and SIMD.
- BlobFrame.Frame.FreeNode: the gap-space statistic is not modelled.
- WalReader.ReplayBytes: the callback never fails.
- Journal.Worker.RunWorker: the stop command and the record-buffer pool are not modelled; the channel is what will be received, and the time windows may close at any moment.
- EpochCommit.CommitEpochBatch: per-epoch totals of the reports are reduced to success or failure; the restored mark of a repeated guid is that of its last entry, not the lowest; other threads do not run inside the version check, the restores and the deletes.
- BufferManager.Buffer.WriteThroughBatch: a cached blob whose latch a writer holds counts as one with a newer version; entries without a content version (the manual checkpoint) are not modelled.
- BufferManager.Buffer.Race: while a batch runs, content versions only rise and no uncached blob is loaded.
- CheckpointRound.Planner.RunRound: the merge pass is arbitrary activity of other threads, and these remove no mark without queueing a delete (`CheckpointSteps.RetireKeepsDirty`); counters and timings are not modelled.
- Database.Database.PutConditional: single-threaded; the endpoint locks and gates that serialise callers are not modelled here.
- RouteCache.RouteCache.Learn: after an overwrite in place longer routes of the same crossing may remain, as in the code.
