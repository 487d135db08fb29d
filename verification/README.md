# A verified model of datax

datax is a distributed SQL store: a keyspace cut into ranges, each range a raft
group with a replicated log and a multi-version state machine, transactions
with intents and a commit record, and clients that route requests by cached
range descriptors. This project models the protocols that make that correct
and proves what they promise, for every input and every run. Where the code
does not keep a promise its comments make, the model follows the code: there
is a run or an input that shows it, and a proof of what does hold, with the
exact condition where one exists.

Each file is one module. Code that changes objects step by step is a class
with `modifies` clauses, a loop is a method with invariants, and concurrent
code is a state machine: a `State`, a `Step`, the guard `Enabled`, the effect
`Do`, an invariant kept by every step, and theorems about `After(st, steps)`
for every `steps` that `Runs`.

| file | what it models |
|---|---|
| `Hlc`, `Keys`, `Spans`, `Mvcc` | timestamps, keys, key spans, one key's versions |
| `Latch`, `TsCache`, `Serving` | span latches, the read timestamp cache, and the leader's serving path built on both |
| `TxnRecord`, `ParallelCommit`, `Atomicity`, `CommitGaps` | the transaction record, parallel commit with status recovery, and where its promises end |
| `Topology`, `Meta` | splits, merges and replica changes by generation; the addressing records |
| `GroupPromise`, `PromiseGaps`, `FollowerReads` | closed timestamps off the log, and reads below a closed timestamp |
| `SplitStore`, `RaftLog`, `Scheduler` | crash recovery with two engines, the raft log's storage, the raft and apply workers |
| `Gc` | garbage collection of versions |
| `Scan`, `Routing`, `FanOut` | the client: stitched scans, the range cache, parallel sub-batches |
| `Numeric` | PostgreSQL's binary NUMERIC |

Timestamps are natural numbers and keys are reals, the ranks of the source's
readings and byte strings: `Hlc.RankReflectsOrder` and `Keys.RankOrder` prove
that the ranks order exactly as the originals do, `Hlc.NextIsLeastAbove` and
`Keys.NextIsSuccessor` that successors are successors. Clocks, networks,
routing answers and replies are parameters or free choices of a step.

## Where the code and its comments part

- `PrefixEnd` is described as the smallest key above every key with the
  prefix. For a key of 0xff bytes it returns `MaxKey`, which is not above
  them (`Keys.OnesHaveNoEnd`).
- A caller whose context ends leaves its proposal behind and releases the
  latch. A read served after that can be overtaken by the write
  (`Serving.AbandonmentBreaksStability`). A read is safe exactly when, at the
  moment it is served, the unapplied log holds no such proposal beneath it
  (`Serving.ServedReadsStableIff`).
- Status recovery takes any intent of the transaction on a key for the
  in-flight write. A key locked or written by an earlier statement can commit
  without its last write (`CommitGaps.CommittedIsCompleteIff`).
- A parallel commit that reports an error is meant to make the record's fate
  explicit first; the abort may be lost and recovery may commit. An error is
  the truth exactly when the staging request was never sent, was answered with
  a timestamp conflict, or failed and was not to create the record
  (`CommitGaps.ErrorMeansUncommittedIff`).
- A write sent again after an ambiguous reply may land above the timestamp
  recovery settled on, and so may the write of a key that carried an intent
  before, so that resolution moves a version down; no other write does
  (`CommitGaps.ResolutionMovesDownIff`). `FollowerReads.ResolutionChangesReadIff`
  says exactly which reads below notice.
- `Txn.Restart` keeps the transaction id while its record may be staged, and
  `evalRecoverTxn` does not compare staged timestamps, so a verdict on the
  first staging can abort the acknowledged second one. A restart is harmless
  exactly when an error reported at that point would be the truth, as above
  (`CommitGaps.AgreementIff`). `RunTxn` does not use `Restart`.
- The group promise of closed timestamps rests on rules the code does not
  enforce: cache checks only while awake, no sleep between the halves of a
  registration, and awake promises that either never enrol a range or, if they
  did not, wait until raft's log is on disk. `PromiseGaps.PromisesHoldIff`
  proves exactly which are needed.
- `drainApply` waits so that no entry is applied past queued ones. It also
  returns true when the run it waited for failed and dropped them; an entry
  that shares a Ready with a configuration change is then applied past them
  (`Scheduler.FailedRunLeavesGap`, `Scheduler.AppliedInOrderIff`).
- Applied-sequence samples are described as one per spacing of the log. There
  can be two: only samples two places apart are that far apart
  (`SplitStore.NotedMeans`).
- A crash between a snapshot's flush and its log reset is called harmless
  because it leaves a longer log. It can leave a log that ends before the
  applied index (`SplitStore.LogReachesApplied`).
- A garbage collection pass is proposed in chunks. A pass that stops between a
  tombstone and the version under it brings that version back
  (`Gc.CutBringsBack`, `Gc.ChunkCutPreservesIff`).
- A stale `/meta` put delivered after a delete finds nothing to compare with
  and returns an outdated record (`Meta.LatePutReturns`,
  `Meta.OutdatedRecordIff`).

## Model

| member | source | states |
|---|---|---|
| Hlc.RankReflectsOrder | pkg/util/hlc/hlc.go:14-28 | The rank of a reading orders and identifies readings exactly as wall time and logical ticks do. |
| Hlc.NextIsLeastAbove | pkg/util/hlc/hlc.go:31-49 | Next carries into the wall time and is the least reading strictly above; Forward is the maximum. |
| Keys.RankOrder | pkg/keys/keys.go:29-38 | The rank of a byte string orders and identifies keys exactly as bytes.Compare does. |
| Keys.LessIsTotalOrder | pkg/keys/keys.go:32-34 | Less is a strict total order. |
| Keys.NextIsSuccessor | pkg/keys/keys.go:38 | Nothing lies strictly between a key and its Next. |
| Keys.PrefixEnd | pkg/keys/keys.go:40-51 | A key has the prefix if and only if it lies in [k, end), unless k is all 0xff; then end is MaxKey. |
| Keys.OnesHaveNoEnd | pkg/keys/keys.go:40-51 | For a key of 0xff bytes MaxKey is not above every key with the prefix, against the comment. |
| Keys.MetaKeyOrder | pkg/keys/keys.go:237-242 | The records at or after the successor of k's meta key are exactly those of ranges ending beyond k, in the order of their end keys. |
| Spans.OverlapIsCommonKey | pkg/kvserver/latch.go:44-63 | The overlap test is symmetric, sees every common key, and for proper spans reports nothing else. |
| Latches.ConflictIsSymmetric | pkg/kvserver/latch.go:185-224 | Conflict between latches does not depend on which one is held. |
| Latches.LatchManager.FindConflict | pkg/kvserver/latch.go:185-224 | The two indexes answer as a scan of every span of every holder: nil if and only if no holder conflicts, else one that does. |
| Latches.LatchManager.Insert | pkg/kvserver/latch.go:146-157 | Adds the latch; the point index keeps counting each holder under a key as often as its spans name it, and no two holders conflict. |
| Latches.LatchManager.Remove | pkg/kvserver/latch.go:159-183 | Removes exactly this latch from the holders and from both indexes. |
| Latches.LatchManager.TryAcquire | pkg/kvserver/latch.go:112-144 | One round of Acquire takes all spans or none, and takes them if and only if no holder conflicts. |
| Latches.LatchManager.Release | pkg/kvserver/latch.go:97-110 | Releasing twice is releasing once. |
| TsCaches.RejectionIsPermanent | pkg/kvserver/tscache.go:44-78 | A write the cache rejected stays rejected, whatever is recorded or folded later. |
| TsCaches.FaithfulDecides | pkg/kvserver/tscache.go:80-99 | Entries that stand for a history, merged per key and stripped of attribution as record does, decide every write as the full history does. |
| TsCaches.TsCache.Bump | pkg/kvserver/tscache.go:103-139 | Every read recorded enters the history the cache answers for; the floor never drops and a full generation is rotated out. |
| TsCaches.TsCache.Rotate | pkg/kvserver/tscache.go:121-139 | Folding the older generation into the floor loses no read. |
| TsCaches.TsCache.MaxRead | pkg/kvserver/tscache.go:121-139 | The new floor is the highest read of the dropped generation, or the old floor. |
| TsCaches.TsCache.AllowsWrite | pkg/kvserver/tscache.go:142-179 | Allowed if and only if above the floor and clear of every overlapping read ever recorded; the returned bound is tight, and any writer just above it is allowed. |
| Serving.StepKeeps | pkg/kvserver/replica.go:1152-1321 | Every step of the serving path, in any interleaving, keeps latch exclusion, the cache's memory of served reads and the promises made. |
| Serving.NoWriteUnderRead | pkg/kvserver/latch.go:13-35 | While a read holds its latch no write to its spans is admitted, proposed or waiting to apply. |
| Serving.ServedReadsStableIff | pkg/kvserver/replica.go:1152-1321 | In whatever run follows, no write of another transaction lands at or below the read, if and only if the log still to be applied when it is served holds no abandoned proposal that meets its spans beneath it. |
| Serving.ReadsStableUnabandoned | pkg/kvserver/replica.go:1152-1321 | Without abandoned proposals every served read is stable. |
| Serving.AbandonmentBreaksStability | pkg/kvserver/replica.go:879-933 | The run in which an abandoned write applies beneath a read served after it. |
| Serving.CloseDrains | pkg/kvserver/closedts.go:354-376 | Holding the whole-range latch means no write is under way. |
| Serving.ClosedTimestampsHold | pkg/kvserver/closedts.go:32-50 | Over every run, leader changes included, every write after a closed-timestamp command in the log is above it. |
| Mvcc.VisibleBelow | pkg/storage/mvcc.go:156-270 | What is visible at t depends only on the versions at or below t. |
| Gc.Enumerate | pkg/kvserver/gc.go:216-291 | The single pass with a survivor flag lists exactly the garbage the position-by-position definition names. |
| Gc.PassIsPerKey | pkg/kvserver/gc.go:221-291 | What a pass deletes of a key depends on that key alone. |
| Gc.IntentsUntouched | pkg/kvserver/gc.go:221-291 | A key that carried an intent when the pass looked loses nothing, whatever it holds when the deletion applies. |
| Gc.PassPreservesReads | pkg/kvserver/gc.go:180-291 | Deleting everything a pass enumerated, from the chain the later command meets, leaves every read at or above the threshold as it was. |
| Gc.PassIsComplete | pkg/kvserver/gc.go:216-291 | A version kept at or below the threshold is live and is what a read there shows: no more could go. |
| Gc.ChunkCutPreservesIff | pkg/kvserver/gc.go:180-209 | After a pass cut at any version, applied to the chain it then meets, reads are preserved if and only if the cut does not expose a live version under a deleted tombstone. |
| Gc.CutBringsBack | pkg/kvserver/gc.go:180-209 | On any key and threshold, a tombstone over a live version, cut between the two: the deleted value is visible again. |
| TxnRecords.FinalIsForever | pkg/kvserver/txn.go:90-163 | No sequence of requests changes a finalized record, its timestamp included. |
| TxnRecords.BystandersLeaveStaging | pkg/kvserver/txn.go:258-340 | No push, however old or high-ranking, and no heartbeat changes a staged record. |
| TxnRecords.CommitNeedsEquality | pkg/kvserver/txn.go:90-163 | A record reaches STAGING or COMMITTED only with equal read and write timestamps and through a request that commits. |
| TxnRecords.RecordCell.CreateTxnRecord | pkg/kvserver/txn.go:49-88 | Creation judges the GC threshold and an existing record as specified, overwrites one that is not final, and changes nothing when it fails. |
| TxnRecords.RecordCell.EvalEndTxn | pkg/kvserver/txn.go:90-163 | The finalizing evaluation, every branch, against the specification the lemmas above are about. |
| TxnRecords.RecordCell.EvalHeartbeatTxn | pkg/kvserver/txn.go:235-263 | Only a pending record changes: its heartbeat moves forward and its wait edge is replaced. |
| TxnRecords.RecordCell.EvalPushTxn | pkg/kvserver/txn.go:258-340 | The push evaluation: expiry, force, priority and the poisoning of a missing record. |
| TxnRecords.RecordCell.EvalRecoverTxn | pkg/kvserver/txn.go:343-371 | Recovery decides a staged record only. |
| ParallelCommit.StepKeeps | pkg/kvclient/txn.go:1289-1475 | Every step of coordinator, leaders, pushers and recoverers keeps the protocol's invariant; requests may be evaluated late and again, writes may be abandoned in the log, and the coordinator may restart before anything was staged. |
| ParallelCommit.LookDooms | pkg/kvclient/txn.go:1427-1475 | A prevention read that finds a key missing means the commit at the staged timestamp can never complete. |
| ParallelCommit.DeadStays | pkg/kvclient/txn.go:1427-1475 | Once doomed, a key stays so through every step, resends included. |
| ParallelCommit.AcknowledgedNeverAborted | pkg/kvclient/txn.go:1363-1425 | In every run whose restarts precede a successful staging, an acknowledged implicit commit has its record staged or committed at the acknowledged timestamp. |
| ParallelCommit.ConfirmedIsCommitted | pkg/kvclient/txn.go:1363-1425 | A commit acknowledged after its writes were forwarded is committed at the timestamp the client was told. |
| ParallelCommit.AbortedNeverAcknowledged | pkg/kvclient/txn.go:1427-1475 | Once recovery or anyone else aborted the record, no continuation of the run acknowledges the commit. |
| ParallelCommit.HarmlessNeverCommits | pkg/kvclient/txn.go:1325-1361 | A coordinator that gave up with its staging request unsent or answered with a timestamp conflict is never committed or staged behind its back. |
| Atomicity.CommittedIsComplete | pkg/kvclient/txn.go:1427-1475 | In every run, a committed record means that the write of every in-flight key landed that carried no intent before. |
| Atomicity.ResolutionNeverMovesDown | pkg/storage/mvcc.go:876-918 | A write of a key without an earlier intent, sent once, has landed at or below the timestamp its transaction committed at, and so lies its intent. |
| Atomicity.LandsBelowCommit | pkg/storage/mvcc.go:876-918 | Whenever in the run such a write lands, its timestamp is at or below the one the transaction commits at. |
| CommitGaps.LockedKeysCommitUnwritten | pkg/kvclient/txn.go:1427-1475 | Every unhindered commit has a run that commits it with only the writes to keys without an earlier intent landed. |
| CommitGaps.CommittedIsCompleteIff | pkg/kvclient/txn.go:1427-1475 | A committed record vouches for a key's write in every run if and only if the key carried no intent of the transaction before. |
| CommitGaps.ErrorDoesNotMeanAborted | pkg/kvclient/txn.go:1346-1361 | From every unhindered start and for every other report, a run in which the client was told of an error and recovery commits. |
| CommitGaps.ErrorMeansUncommittedIff | pkg/kvclient/txn.go:1325-1361 | An error means not committed, in every continuation, if and only if what the coordinator knows of its staging request rules a commit out: never sent, a timestamp conflict, or a failure without record creation. |
| CommitGaps.ResendCanMoveDown | pkg/kvclient/txn.go:766-782 | From every unhindered start and for every fresh key, a run that sends only this key again and ends with its intent above the committed timestamp. |
| CommitGaps.LockedKeyMovesDown | pkg/kvclient/txn.go:1427-1475 | From every unhindered start and for every key with an earlier intent, the same without sending anything again. |
| CommitGaps.ResolutionMovesDownIff | pkg/kvclient/txn.go:766-782 | Over all runs that send at most the given keys again, the intent on a key of a committed transaction is at or below its commit timestamp if and only if the key is not among them and carried no intent before. |
| CommitGaps.RestartBreaksAgreement | pkg/kvclient/txn.go:1536-1548 | From every unhindered start and for every report that does not rule a commit out, a run whose one restart in place happens with that report in hand and lets a verdict on the first staging abort the acknowledged second one. |
| CommitGaps.RestartsAgree | pkg/kvclient/txn.go:1536-1548 | In every run whose restarts in place happen with reports that rule a commit out, an acknowledged commit has its record staged or committed at the acknowledged timestamp. |
| CommitGaps.AgreementIff | pkg/kvclient/txn.go:1536-1548 | For any set of reports at which restarts in place are allowed: agreement holds in every such run if and only if each of these reports rules a commit out. |
| Topology.RangeStore.ApplySplit | pkg/kvserver/split.go:131-178 | A split applies exactly when built from the current generation, and then installs both sides. |
| Topology.RangeStore.ApplyMerge | pkg/kvserver/merge.go:390-451 | A merge applies, is refused as stale, or is fatal, exactly as the generations of the two sides say. |
| Topology.RangeStore.ApplyChange | pkg/kvserver/apply.go:81-106 | A replica change applies when built from the current generation or already adopted. |
| Topology.AcceptedSplit | pkg/kvserver/split.go:54-65 | In every reachable state an accepted split was built from the live descriptor and its right id was never used. |
| Topology.AcceptedMerge | pkg/kvserver/merge.go:249-298 | An accepted merge joins two live neighbours as they are now. |
| Topology.AcceptedChange | pkg/kvserver/replicate.go:65-132 | An accepted change differs from the live descriptor in membership only. |
| Topology.KeyspacePartition | pkg/kvserver/merge.go:249-298 | In every run, with changes delivered in any order and any number of times, the live ranges partition the keyspace. |
| Topology.MergeNeverFatal | pkg/kvserver/merge.go:390-451 | The fatal branches of a merge's application are unreachable. |
| Topology.GenerationMonotone | pkg/kvserver/split.go:170-178 | Between any two points of a run the generation covering a key never falls, and rises if the descriptor changed. |
| Topology.LaterIsNewer | pkg/kvserver/split.go:170-178 | Generations order all descriptors that ever covered a common key, and one adopted later is newer. |
| Topology.SeenChangeIsAdopted | pkg/kvserver/replicate.go:134-177 | A range seen at the produced generation with the produced membership has adopted that very change. |
| Meta.MetaRange.UpdateMeta | pkg/kvserver/apply.go:734-759 | The record changes exactly when the update applies to what is stored at its end key. |
| Meta.PutsLeaveNewest | pkg/kvserver/apply.go:761-769 | Puts leave at each end key the newest descriptor delivered for it. |
| Meta.PutOrderIrrelevant | pkg/kvserver/split.go:94-128 | The order and the repetition of puts do not matter. |
| Meta.LiveRangesAddressed | pkg/kvserver/merge.go:345-380 | Once its put is delivered, in any order among all puts of a run, each live range's record is at its end key. |
| Meta.DeleteSparesLater | pkg/kvserver/apply.go:761-769 | The delete a merge sends never removes a record adopted after that merge. |
| Meta.OutdatedRecordIff | pkg/kvserver/apply.go:761-769 | For any puts of a run before and after a merge's delete, the record left at that end key is not a live range's if and only if some put stands there and none of a live range does. |
| Meta.LatePutReturns | pkg/kvserver/apply.go:761-769 | From every start and for every key, a split and a merge there whose two batches of updates arrive in the other order, which brings back the absorbed half's record. |
| GroupPromise.KeptStays | pkg/kvserver/quiesce.go:215-258 | A promise the leader keeps is kept by every later step. |
| GroupPromise.GroupPromisesHold | pkg/kvserver/closedts.go:109-282 | Under the four rules, in every run and wherever a wake falls, abandoned proposals included, no write at or below what the follower adopted is unapplied there, proposed or still admissible. |
| PromiseGaps.SleepingCheckBreaksPromise | pkg/kvserver/closedts.go:109-174 | From every start, a cache check made while the range sleeps breaks the promise although the other rules hold. |
| PromiseGaps.EnrolmentBreaksPromise | pkg/kvserver/closedts.go:238-331 | From every start, a side promise of an awake range enrols it at the follower, and the next group promise breaks. |
| PromiseGaps.TornRegistrationBreaksPromise | pkg/kvserver/closedts.go:176-236 | From every start, an index read before the range is seen asleep does not cover a write that came between. |
| PromiseGaps.AbandonedWriteBreaksPromise | pkg/kvserver/closedts.go:284-326 | An awake promise whose index is read while an abandoned write is not yet on disk does not cover that write. |
| PromiseGaps.PromisesHoldIff | pkg/kvserver/closedts.go:109-326 | From every start and for every choice of rules, all runs that obey them keep every promise if and only if the choice holds the first two and, as awake promises enrol or not, the third or the fourth. |
| FollowerReads.CommandKeepsRead | pkg/storage/mvcc.go:300-392 | A read that got an answer gets the same one after any command that leaves the past up to t alone. |
| FollowerReads.FollowerReadsStable | pkg/kvserver/closedts.go:391-425 | For every run of the serving path and every key, a follower read at or below an applied closed timestamp returns the same at every later log position. |
| FollowerReads.BackedIsLater | pkg/storage/mvcc.go:876-918 | In a log whose writes and verdicts come from such runs no resolution moves a version down. |
| FollowerReads.FollowerReadsStableTogether | pkg/kvserver/closedts.go:391-425 | The same with resolution and collection taken from the commit protocol and the collector: one protocol run for each transaction, whose landings at the key are the log's writes in order and whose commit timestamp its resolutions carry; passes at or below the read that follow one another in chunks exposing nothing. |
| FollowerReads.ResolutionChangesReadIff | pkg/storage/mvcc.go:876-918 | A commit resolution of an intent above the read changes its answer if and only if it lands at or below the read with no other version between, and moves a value that differs from what was visible. |
| SplitStore.DurableIsFlushed | pkg/kvserver/raftengine.go:129-153 | The durable index is that of a flushed sample, never falls, and no flushed sample is above it. |
| SplitStore.AppliedSeqs.NoteAppliedSeq | pkg/kvserver/raftengine.go:92-120 | The newest sample is exact and the others are old ones; samples ascend, and any two places apart stay a spacing apart. |
| SplitStore.NotedMeans | pkg/kvserver/raftengine.go:92-120 | A later sample replaces the newest exactly when it is within a spacing of the one before that; order and spacing are kept. |
| SplitStore.SamplesAreFew | pkg/kvserver/raftengine.go:92-120 | So the list holds at most two samples for each spacing of the log it spans. |
| SplitStore.AppliedSeqs.DurableAppliedLocked | pkg/kvserver/raftengine.go:122-153 | The loop returns the specified index and drops exactly the covered samples. |
| SplitStore.CrashRefinement | pkg/kvserver/apply.go:229-303 | After any run, crashes included, the log starts at or below the applied index, holds every index above its start, and the state is the replay of the log up to the applied index. |
| SplitStore.ReplayRebuilds | pkg/kvserver/apply.go:47-55 | From there replay never misses an entry and reaches the state every replica has at that index. |
| SplitStore.LogReachesApplied | pkg/kvserver/catchup.go:202-264 | While no reset was torn the log reaches the applied index, and a crash leaves it so if and only if it tears none: keeps the snapshot's state while the log ends before it. |
| SplitStore.TornResetLeavesGap | pkg/kvserver/catchup.go:229-248 | A run of four steps that leaves a state past the end of the log. |
| RaftLog.RaftStorage.Append | pkg/kvserver/raft_storage.go:245-277 | Putting the entries and deleting the divergent suffix is the conflicting-suffix rule of section 5.3 of the Raft paper. |
| RaftLog.RaftStorage.StageTruncate | pkg/kvserver/raft_storage.go:279-302 | A stale truncation is a no-op, one past the end fails, any other cuts the front and keeps the term. |
| RaftLog.RaftStorage.ResetToSnapshot | pkg/kvserver/raft_storage.go:322-330 | The log is empty behind the snapshot and the applied index does not fall. |
| RaftLog.RaftStorage.Term | pkg/kvserver/raft_storage.go:157-183 | The term at the base, compacted, unavailable, or of the entry, exactly as the index lies. |
| RaftLog.RaftStorage.Entries | pkg/kvserver/raft_storage.go:121-155 | Each error exactly in its case, else the longest non-empty run from lo on that fits the size cap. |
| RaftLog.CommittedStays | pkg/kvserver/raft_storage.go:245-330 | Over any sequence of changes raft can order, while the commit index rises, what remains of the committed log has the terms and entries it had; of appended entries only that they match it one by one and reach as far is assumed. |
| RaftLog.CommittedStaysThroughout | pkg/kvserver/raft_storage.go:245-330 | The same between any two points of a run, for whatever was committed at the first. |
| Scheduler.OneAtATime | pkg/kvserver/scheduler.go:212-270 | In every run no replica is in two passes nor in two apply runs, and each queue holds it at most once. |
| Scheduler.FlagsNeverLost | pkg/kvserver/scheduler.go:137-160 | A raised flag of a replica in service is on its way to a pass, or waits behind apply work that is queued or running. |
| Scheduler.AppliedInOrderIff | pkg/kvserver/scheduler.go:374-484 | In every run a replica applied exactly a prefix of its log, in order, if and only if no pass applied an entry itself after a run it waited for failed or was skipped. |
| Scheduler.FailedRunLeavesGap | pkg/kvserver/replica.go:658-697 | The run in which a command that shares a Ready with a configuration change is applied past the entry at which an apply run failed; the change itself then fails on the stopped group. |
| Scan.MvccScan | pkg/storage/mvcc.go:509-550 | The page is a beginning of the span's rows and ends early exactly when it holds max rows or the byte target, no sooner. |
| Scan.MvccReverseScan | pkg/storage/mvcc.go:615-655 | The same from the largest key down, the resume key being exclusive. |
| Scan.SendScan | pkg/kvclient/db.go:693-757 | However boundaries move and pages end, the stitched rows are the first rows of one scan over the span, the resume key leaves exactly the others, and it gives up if and only if regrouped more than 30 times. |
| Scan.LastSegment | pkg/kvclient/db.go:766-788 | The walk finds a last segment that ends at the current end and starts at the span's start or a boundary. |
| Scan.SendReverseScan | pkg/kvclient/db.go:759-832 | The same backwards. |
| Scan.DownIsReverse | pkg/kvclient/db.go:759-832 | The reverse scan's rows are the forward scan's backwards. |
| Routing.RangeCache.Lookup | pkg/kvclient/rangecache.go:33-47 | The binary search finds the covering descriptor exactly when one is cached, and only otherwise does the remembered meta descriptor answer. |
| Routing.RangeCache.InsertOne | pkg/kvclient/rangecache.go:50-81 | Afterwards the descriptor or a fresher one of its range is cached, nothing overlaps, and what did not overlap stays. |
| Routing.RangeCache.Insert | pkg/kvclient/rangecache.go:50-81 | A sequence of insertions keeps the cache disjoint and sorted by end key, and invents nothing. |
| Routing.RangeCache.Evict | pkg/kvclient/rangecache.go:83-93 | Exactly one descriptor of the range goes, if there is one. |
| Routing.FirstBeyondCovers | pkg/kvclient/db.go:612-670 | Of the ranges ending beyond a key, the one that ends first holds it. |
| Routing.MetaScanFinds | pkg/kvclient/db.go:612-670 | The first record at or after the successor of the key's meta key is that of the range holding the key, in the order of the bytes themselves. |
| FanOut.Partition | pkg/kvclient/db.go:386-420 | Every position is in exactly one group, that of the range its key was routed to, and each range has one group. |
| FanOut.Sender.SendGroup | pkg/kvclient/db.go:464-486 | Responses are placed at their own positions, the timestamp is the maximum so far, and the creation flag goes with the anchor only. |
| FanOut.Sender.AnchorGroup | pkg/kvclient/db.go:488-500 | The index of a group that writes the anchor, or -1 if none does or the record exists. |
| FanOut.Sender.Wave | pkg/kvclient/db.go:542-575 | What is left to retry and what succeeded make up the batch, each request once. |
| FanOut.Sender.SendParallel | pkg/kvclient/db.go:426-585 | On success each request was answered once, at its index, with the highest timestamp any sub-batch reported; in every case the anchor's sub-batch succeeded before any other went out; it reports a failure if and only if a sub-batch was refused, and otherwise gives up if and only if more than 30 waves had to be routed again. |
| Numeric.EncodePGNumeric | pkg/pgwire/numeric.go:29-94 | The padding, grouping and trimming loops compute the specified encoding, errors included. |
| Numeric.DecodePGNumeric | pkg/pgwire/numeric.go:96-158 | The decoding loops compute the specified text, for any bytes, groups above 9999 included. |
| Numeric.RoundTrip | pkg/pgwire/numeric.go:9-14 | Every string that encodes decodes again, to its normal form. |
| Numeric.UnchangedIffCanonical | pkg/pgwire/numeric.go:29-43 | An accepted string comes back unchanged if and only if it is canonical. |
| Numeric.EmptyIsZero | pkg/pgwire/numeric.go:59-74 | Trimming leaves no group exactly for zero. |
| Numeric.TextComesBack | pkg/pgwire/numeric.go:97-158 | The text of the trimmed groups is the decimal's normal form, whatever its length, weight and scale. |

## Left out

- Latches.LatchManager.TryAcquire: one round under the mutex; waiting for the holder found and fairness are not modelled.
- Serving: assumes, as the source's comments do, that a new leader's cache floor is at or above everything served or promised before it and that it applies the inherited log first; a lease or read-index proof of that is not part of this model.
- Serving: one range; the frozen state of a merging range and write stalls are not modelled.
- GroupPromise.GroupPromisesHold: one range, one follower and one leadership term, from a logged promise on, over an ordered lossless channel; the rules are hypotheses, and PromiseGaps.PromisesHoldIff shows which are needed. A logged promise is one step.
- FollowerReads.FollowerReadsStable: that resolution does not move a version down and that collection stays below t and exposes nothing are hypotheses; FollowerReads.FollowerReadsStableTogether has neither.
- FollowerReads.FollowerReadsStableTogether: every transaction that writes the key does so in its last batch only, which is sent once for that key. Keys of the last batch that are sent again or were written before can move down, by CommitGaps.ResolutionMovesDownIff; keys written by earlier statements only are not covered. Passes do not interleave.
- RaftLog.CommittedStays: log matching and leader completeness are raft's part and appear as conditions on each appended entry.
- RaftLog.RaftStorage.Append: asks, as raft guarantees, for consecutive entries that start above the base and leave no hole.
- RaftLog.RaftStorage.ResetToSnapshot: includes the wipe of the log that its callers stage.
- Topology: one logical copy of each range; that replicas apply the same log is raft's part. The wait for the right side's subsume and the snapshot hand-over of replicas are not modelled.
- Scheduler: workers are unlimited and members of a pass group end one by one; group sizes, `stopReplica` called from within a pass, and ticks are not modelled.
- SplitStore: engine contents are the commands consumed; log migration, orphan sweeps and the timed flush are not modelled.
- Scan.SendScan: keys are integers, of which only the order and the successor are used; intents met by a scan, locking reads and errors other than regrouping are not modelled.
- Scan.SendReverseScan: as for the forward scan.
- FanOut.Sender.SendParallel: the sends of a wave are taken one after another; they meet only in a mutex-guarded maximum and disjoint positions.
- Gc.Enumerate: the row-expiry predicate, the collection of transaction records and of their intents are not modelled.
- TxnRecords: one-phase commit, the collection of records and the poisoning that follows it are not modelled.
- ParallelCommit: savepoints, read refresh, deadlock detection, uncertainty intervals and a transaction's earlier statements are not modelled beyond the intents they leave.
- Numeric: NaN, rejected by the sign check, has no text.
- etcd's raft library, the storage engine's encodings, SQL, the wire protocol apart from NUMERIC, authentication, load-based splitting, node liveness and the command line are not part of this model.
