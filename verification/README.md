# Verified models of Zebra's consensus core

Zebra is a Zcash full node. This project models four of its parts in Dafny and proves what they promise over every
input and every run:

- **Checkpoint verification.** Blocks arrive in any order and are queued by height. When the queue reaches a
  checkpoint, the verifier walks back from the checkpoint hash along parent hashes, accepts the matching blocks and
  refuses the others. `CheckpointModel` is the step function, with panics as an explicit outcome;
  `CheckpointInvariants`, `CheckpointTickets`, `CheckpointSafety`, `CheckpointReplies`, `CheckpointAnswers`,
  `CheckpointLists`, `CheckpointCompleteness`, `CheckpointNoise` and `CheckpointStall` prove its properties over runs,
  and `CheckpointVerifier` is the mutating object with its loops, proved equal to the step function.
- **The chain history tree.** A Merkle mountain range that is pruned to its peaks after every push. `Mmr` defines the
  full tree over a list of leaves; `HistoryTree` holds the `u32` peak loop and the pruned tree object, proved to
  represent the full tree.
- **The batch worker protocol.** `BatchModel` is a state machine of clients, semaphore, channel and worker whose
  steps interleave freely; `BatchInvariants`, `BatchTrace`, `BatchTimer`, `BatchProgress`, `BatchTermination`,
  `BatchCapacity` and `BatchEnd` prove its properties over all interleavings, and `BatchService` is the mutating code,
  with the state that clients and worker share in one object, each method proved to be a run of protocol steps.
- **Value accounting.** `Amount`, `ValueBalances` and `Transactions` are checked arithmetic with early failure;
  `UtxoPool` ties the transparent pool to the set of unspent outputs, `BlockTotals` and `Supply` bound issuance, and
  `SpentUtxos` is the two-pass lookup of spent outputs.

`dafny verify dfyconfig.toml` checks everything.

## Findings

- The remaining transaction value can be refused although all pools and the total are in range, because a running
  total leaves the range. `RemainingIs` gives the exact condition and `RemainingCanOverflow` an input.
- With `max_batches` of zero the worker starts with no select branch enabled; `SelectNeverStuck` is the equivalence.
- A failed worker can start its timer again, although failing stops it: exactly when no weight is pending and it
  answers a request with the error (`FailedTimerArmed`, `FailedWorkerRearms`).
- Once that timer has elapsed, the worker never looks at its messages again: the select statement tries the timer
  branch first, and that branch returns at once and leaves the timer in place. The comment in `failed` that the loop
  drains all pending requests does not hold then; the model follows the code. `AnswerableExactly` is the exact
  condition, and `StarvationNeedsTwo` says which configurations can get there.
- The peak loop is correct for every valid tree size but `u32::MAX`, where `size + 1` overflows (`PeakPositions`,
  `SizeFitsU32`).
- Blocks above a checkpoint can delay it. The walk starts at the highest checkpoint that the queue reaches, and when it
  breaks there, nothing below is verified until the next call, although every block needed for it is queued.
  `StallingRun` is an input and `ProcessReachesExactly` the exact condition; processing again, or sending a block again,
  always gets there (`SettleReaches`, `ResendingReaches`).
- The limit on signature operations is checked on a 32-bit counter that wraps without overflow checks. `SigopLimit`
  is the exact condition and `SigopCounterWraps` an input; a block is far too small to hold that many operations.
- The checkpoint verifier relies on a good list. `SafeListsExactly` says which lists are good, and `BadListPanics` is a
  call that panics with a bad one.

## Model

| member | source | states |
|---|---|---|
| `CheckpointSafety.OkAnswersFormOneChain` | zebra-consensus/src/checkpoint.rs:777-931 | for every run of calls without a reset that does not panic, and with no assumption about blocks or checkpoints, the blocks answered `Ok` form, in answer order, one gap-free hash-linked chain from the starting point to the current progress, with the listed hash at each checkpoint height |
| `CheckpointReplies.ResetStartsNewChain` | zebra-consensus/src/checkpoint.rs:369-375 | the `Ok` answers of a call with a reset and of all later calls without one form one gap-free hash-linked chain that continues the tip of the reset, or the genesis parent hash without a tip; a reset to the last checkpoint or above ends all `Ok` answers |
| `CheckpointReplies.ResetReplies` | zebra-consensus/src/checkpoint.rs:1091-1107 | whatever the progress was, a reset to a tip below the last checkpoint makes heights up to the tip already verified and every height above it open again; without a tip every height is open; with a tip at or above the last checkpoint the call is refused as finished |
| `CheckpointReplies.CallReplies` | zebra-consensus/src/checkpoint.rs:511-708 | the exact reply to every call without a reset: no height, above the last checkpoint, already verified, failed checks, no room among four blocks, finished, or accepted; a rejected call changes neither queue nor answers |
| `CheckpointAnswers.AnswersReachTheirCalls` | zebra-consensus/src/checkpoint.rs:649-708 | in every run, resets included, each answer goes to an accepted call that sent its block and says what happened: `Ok` has that block's hash, a newer request has its height and hash, a side chain block has another hash than the listed one or the parent of a block sent for the next height; a drop adds only errors |
| `CheckpointAnswers.AnswerIsForItsCall` | zebra-consensus/src/checkpoint.rs:649-708 | the answer with the ticket of an accepted call is about the block of that call, also after a drop |
| `CheckpointAnswers.DropOnlyRefuses` | zebra-consensus/src/checkpoint.rs:944-958 | a drop keeps all earlier answers, tells every queued block and nobody else that the verifier was dropped, in height order, and adds no `Ok` |
| `CheckpointAnswers.ChainSurvivesDrop` | zebra-consensus/src/checkpoint.rs:944-958 | after any run without a reset and a drop, the `Ok` answers still form one linked chain |
| `CheckpointAnswers.ProcessAnswers` | zebra-consensus/src/checkpoint.rs:719-931 | a processing step answers only queued blocks, each `Ok` with its own hash or with the hash that was expected at its height, and queues nothing new |
| `CheckpointAnswers.EnqueueAnswers` | zebra-consensus/src/checkpoint.rs:649-708 | queueing answers at most an older request for the same block, queues the new one, and leaves all others in their places |
| `CheckpointSafety.RunNeverPanics` | zebra-consensus/src/checkpoint.rs:719-930 | if reset tips and the checkpoints above the lowest of them lie on one chain and a hash fixes its parent hash, no assertion fires in any run of calls and resets, whatever blocks arrive, and only blocks off that chain are refused as side chain blocks |
| `CheckpointLists.SafeListsExactly` | zebra-consensus/src/checkpoint.rs:719-893 | for every parent function, every list and every tip or none, a verifier started there survives every run of blocks with honest parents if and only if the checkpoints above the start lie on the chain that the highest one commits to and that chain has the start |
| `CheckpointLists.SurvivorIsGrounded` | zebra-consensus/src/checkpoint.rs:719-893 | the failing half: delivering that chain above the start, the lowest block last, panics unless the start and every checkpoint above it are on it |
| `CheckpointSafety.BadListPanics` | zebra-consensus/src/checkpoint.rs:882-887 | with two named checkpoints and a tip at the first, a named block at the second whose parent is not the tip makes the call panic |
| `CheckpointSafety.TrueBlockSurvivesFailure` | zebra-consensus/src/checkpoint.rs:839-879 | after a failed walk every queued block of the chain is still queued, with the same ticket |
| `CheckpointSafety.TrueBlockSurvivesSuccess` | zebra-consensus/src/checkpoint.rs:893-901 | a successful walk answers `Ok` to every queued block of the chain in its range and keeps the others queued |
| `CheckpointSafety.WalkStaysOnChain` | zebra-consensus/src/checkpoint.rs:831-848 | walking down from a hash of the chain stays on it, never meets a wrong checkpoint, keeps only its blocks and refuses only others |
| `CheckpointSafety.WalkLinks` | zebra-consensus/src/checkpoint.rs:831-848 | a walk that reaches the bottom has found a linked chain up to the expected hash, whatever is queued |
| `CheckpointSafety.ProcessExtends` | zebra-consensus/src/checkpoint.rs:777-931 | one processing step extends the chain of `Ok` answers by exactly the verified range, or not at all |
| `CheckpointCompleteness.AnyOrderCompletes` | zebra-consensus/src/checkpoint.rs:777-931 | each block of the chain up to a checkpoint delivered exactly once, in any order: progress ends at that checkpoint, the queue is empty, each block is answered `Ok`, and there is one answer per delivered block and no other |
| `CheckpointNoise.NoiseDoesNotStop` | zebra-consensus/src/checkpoint.rs:649-931 | the blocks of the chain up to a checkpoint, each at least once, in any order and mixed with blocks off the chain, at most three different checked ones per height, and none above the checkpoint unless it is the last one: progress ends at that checkpoint, the queue is empty and each block of the chain is answered `Ok` |
| `CheckpointStall.ArrivalsSettle` | zebra-consensus/src/checkpoint.rs:649-931 | the same with blocks at any height: processing until nothing is left to do ends at the checkpoint or above, with each block of the chain up to it answered `Ok` |
| `CheckpointStall.ProcessReachesExactly` | zebra-consensus/src/checkpoint.rs:777-931 | with all blocks of the chain up to a checkpoint queued, one processing step reaches it if and only if those from there up to the target are queued as well; otherwise progress and these blocks stay |
| `CheckpointStall.StallingRun` | zebra-consensus/src/checkpoint.rs:839-879 | a run of three calls that meets all conditions for a checkpoint and stops below it, with the blocks of the chain still queued |
| `CheckpointStall.SettleReaches` | zebra-consensus/src/checkpoint.rs:777-931 | with all blocks of the chain up to a checkpoint queued, processing again until nothing is left to do always reaches it |
| `CheckpointStall.SettleAnswers` | zebra-consensus/src/checkpoint.rs:777-931 | and answers `Ok` to every block of the chain that was queued below it |
| `CheckpointStall.ResendingReaches` | zebra-consensus/src/checkpoint.rs:649-931 | sending one of these blocks again, at most once more than blocks are queued, reaches the checkpoint too |
| `CheckpointNoise.HandoffAmongNoise` | zebra-consensus/src/router.rs:202-224 | the same through the router: any honest requests that include each block of the chain up to the handoff height, with at most three different checked blocks off the chain per height, take the checkpoint verifier to exactly that height |
| `CheckpointCompleteness.GaplessHandoff` | zebra-consensus/src/router.rs:202-224 | with any mix of proposals and higher blocks, the requests that reach the checkpoint verifier take it to exactly the handoff height; a block with a height goes to the semantic verifier if and only if it is above that |
| `CheckpointCompleteness.RoutedCalls` | zebra-consensus/src/router.rs:202-224 | exactly the commit requests with a height up to the handoff height reach the checkpoint verifier |
| `CheckpointCompleteness.MinHeightFrom` | zebra-consensus/src/router.rs:404-417 | the lowest checkpoint from a height on, if there is one |
| `CheckpointCompleteness.HandoffHeight` | zebra-consensus/src/router.rs:404-417 | the handoff height is a checkpoint; with `checkpoint_sync` none is above it, without it is the first one from the mandatory height on; it fails exactly if there is none |
| `CheckpointCompleteness.RoutesExactly` | zebra-consensus/src/router.rs:202-224 | proposals up to the handoff height are rejected, other blocks up to it are checkpointed, and exactly the others go to the semantic verifier |
| `CheckpointTickets.TicketsAreLinear` | zebra-consensus/src/checkpoint.rs:649-708 | in every run, resets included, each issued ticket is either queued once or answered once, no other ticket exists, and after drop each has exactly one answer |
| `CheckpointTickets.ProcessConserves` | zebra-consensus/src/checkpoint.rs:777-931 | one processing step neither loses nor duplicates a ticket, on success and on failure |
| `CheckpointTickets.WalkConserves` | zebra-consensus/src/checkpoint.rs:719-768 | the walk moves every ticket to the remaining queue, the kept blocks or the refusals, once |
| `CheckpointTickets.ProcessShrinksQueue` | zebra-consensus/src/checkpoint.rs:777-931 | each step that finds a target removes at least one block from the queue |
| `CheckpointTickets.Settle` | zebra-consensus/src/checkpoint.rs:777-931 | processing again and again with no new input terminates, in a state that waits for blocks |
| `CheckpointInvariants.SuccessfulProcess` | zebra-consensus/src/checkpoint.rs:893-930 | on success progress strictly increases to the old target, exactly that range leaves the queue, and no further target is available |
| `CheckpointInvariants.FailedProcess` | zebra-consensus/src/checkpoint.rs:839-879 | on failure progress stays, only refused blocks leave the queue, matching blocks are queued again and the target drops below the broken height |
| `CheckpointInvariants.CallValid` | zebra-consensus/src/checkpoint.rs:1091-1110 | every call keeps the invariants: no height holds more than four blocks, an empty list, two equal hashes, or a block of another height |
| `CheckpointInvariants.RestoreAfterBreak` | zebra-consensus/src/checkpoint.rs:849-859 | requeuing after a broken walk restores exactly the kept blocks, one per height |
| `CheckpointInvariants.ContiguousEndIs` | zebra-consensus/src/checkpoint.rs:437-462 | the end of the contiguous queue range is unique: all heights below it are queued and the next one is not |
| `CheckpointInvariants.NoTargetLeft` | zebra-consensus/src/checkpoint.rs:922-930 | after success no checkpoint above the new progress is covered by the queue |
| `CheckpointInvariants.TargetDrops` | zebra-consensus/src/checkpoint.rs:867-876 | after a failure the next target is below the height that had no matching block |
| `CheckpointModel.MaxHeightIn` | zebra-chain/src/parameters/checkpoint/list.rs:201-206 | the highest checkpoint of a range, if it has one |
| `CheckpointVerifier.Verifier.constructor` | zebra-consensus/src/checkpoint.rs:260-302 | the object starts in the state the specification starts in |
| `CheckpointVerifier.Verifier.ResetProgress` | zebra-consensus/src/checkpoint.rs:369-375 | after a reset the progress and tip hash are those of the given tip, as for a new verifier, and queue, answers and tickets are untouched; with `ResetReplies` and `ResetStartsNewChain` |
| `CheckpointVerifier.Verifier.TargetCheckpointHeight` | zebra-consensus/src/checkpoint.rs:412-482 | the loop over queued heights computes the specified target |
| `CheckpointVerifier.Verifier.QueueBlock` | zebra-consensus/src/checkpoint.rs:649-708 | replaces a duplicate and answers the older one, rejects at a full height, or appends, as specified |
| `CheckpointVerifier.Verifier.ProcessHeight` | zebra-consensus/src/checkpoint.rs:714-768 | panics exactly at a checkpoint with another hash; otherwise the loop over one height finds the first matching block and refuses all others, in queue order |
| `CheckpointVerifier.Verifier.WalkRange` | zebra-consensus/src/checkpoint.rs:831-848 | the backward loop is the recursive walk: same end, with the panic at a checkpoint it does not meet, and otherwise same queue, same kept blocks, same refusals |
| `CheckpointVerifier.Verifier.RequeueBlocks` | zebra-consensus/src/checkpoint.rs:849-859 | the loop puts kept blocks back in height order |
| `CheckpointVerifier.Verifier.AcceptBlocks` | zebra-consensus/src/checkpoint.rs:893-898 | the loop answers kept blocks `Ok` in height order |
| `CheckpointVerifier.Verifier.UpdateProgress` | zebra-consensus/src/checkpoint.rs:542-580 | progress and tip after a verified height |
| `CheckpointVerifier.Verifier.ProcessCheckpointRange` | zebra-consensus/src/checkpoint.rs:777-931 | the in-place method panics exactly when the specified step does, computes that step otherwise, and its other assertions always hold |
| `CheckpointVerifier.Verifier.Call` | zebra-consensus/src/checkpoint.rs:1091-1110 | reset, queueing and processing in place panic exactly when the specified call does, and otherwise are that call and keep the invariants; `CallReplies` and `ResetReplies` say what it answers |
| `CheckpointVerifier.Verifier.Drop` | zebra-consensus/src/checkpoint.rs:944-958 | every queued block and nobody else is answered that the verifier was dropped, in height order; earlier answers stay and the queue is empty |
| `Mmr.SizeFormula` | zebra-chain/src/history_tree.rs:374-380 | a tree with n leaves has 2n - popcount(n) nodes |
| `Mmr.RootLeaves` | zebra-chain/src/history_tree.rs:457-463 | the root over a list of leaves has exactly these leaves, in order |
| `Mmr.RootCommits` | zebra-chain/src/history_tree.rs:457-463 | two leaf lists have the same root if and only if they are the same list |
| `Mmr.RootShape` | zebra-chain/src/history_tree.rs:457-463 | the root is a perfect tree, or such a root joined with the perfect tree of the lowest bit of the leaf count |
| `Mmr.BaggedTreesEqual` | zebra-chain/src/history_tree.rs:457-463 | the leaves and that shape fix the tree |
| `Mmr.AppendLeaf` | zebra-chain/src/history_tree.rs:301-318 | appending a leaf by joining equal peaks gives the peaks of the longer leaf list and exactly the new nodes, in storage order |
| `Mmr.PeakAtPosition` | zebra-chain/src/history_tree.rs:374-419 | each peak of the full tree is stored at its computed position |
| `Mmr.PositionsAfterAppend` | zebra-chain/src/history_tree.rs:421-422 | every peak after a push was a peak before it or is one of the new nodes |
| `HistoryTree.PeakPositions` | zebra-chain/src/history_tree.rs:374-419 | for every valid size: some `u32` operation overflows exactly for `u32::MAX`; otherwise the loop terminates and collects exactly the positions of the perfect subtrees |
| `HistoryTree.SizeFitsU32` | zebra-chain/src/history_tree.rs:374-380 | the valid sizes below `u32::MAX` are exactly those of fewer than 2^31 leaves, and 2^31 leaves give `u32::MAX` |
| `HistoryTree.PeakMapInOrder` | zebra-chain/src/history_tree.rs:421-454 | the stored peaks, read in key order, are the peaks of the full tree |
| `HistoryTree.RetainPeaks` | zebra-chain/src/history_tree.rs:421-422 | retaining the collected positions leaves exactly the peaks of the longer range |
| `HistoryTree.NonEmptyHistoryTree.FromParts` | zebra-chain/src/history_tree.rs:180-239 | a new tree represents its one block |
| `HistoryTree.NonEmptyHistoryTree.FromCache` | zebra-chain/src/history_tree.rs:86-155 | a tree rebuilt from saved size, peaks and height represents the same leaves, so it has the same root |
| `HistoryTree.NonEmptyHistoryTree.Clone` | zebra-chain/src/history_tree.rs:486-529 | a clone represents the same leaves with the same inner tree |
| `HistoryTree.NonEmptyHistoryTree.PushFromParts` | zebra-chain/src/history_tree.rs:274-327 | a push represents one more leaf, or only the new block at an upgrade activation; every push changes the root |
| `HistoryTree.NonEmptyHistoryTree.InsertEntries` | zebra-chain/src/history_tree.rs:319-323 | the new nodes are stored behind the old ones at consecutive positions, and the old peaks stay |
| `HistoryTree.NonEmptyHistoryTree.Prune` | zebra-chain/src/history_tree.rs:351-454 | pruning keeps exactly the peaks of the full tree, and the rebuilt inner tree is the full tree in run-time form |
| `HistoryTree.NonEmptyHistoryTree.Root` | zebra-chain/src/history_tree.rs:457-463 | the root of the pruned tree has exactly the leaves the tree represents, in order, in the shape their number gives |
| `HistoryTree.HistoryTree.constructor` | zebra-chain/src/history_tree.rs:531-534 | a new tree represents the empty chain |
| `HistoryTree.HistoryTree.PushFromParts` | zebra-chain/src/history_tree.rs:598-632 | for every chain from height 0 the tree is empty before Heartwood and then holds the full tree over all blocks since the current upgrade activated, one leaf per height |
| `HistoryTree.HistoryTree.Root` | zebra-chain/src/history_tree.rs:635-637 | the root after any chain has exactly the blocks since the current upgrade as its leaves, in order, and exists exactly from Heartwood on |
| `BatchInvariants.RunningBatchesBounded` | tower-batch-control/src/worker.rs:168-192 | in every interleaving the running batches never exceed the number given to `pair`, which is not clamped here, although the timer branch does not test it |
| `BatchInvariants.UnfinishedFlushesBounded` | tower-batch-control/src/worker.rs:168-192 | the running batches are exactly the flushes that have not finished, so the inner service never has more unfinished flushes than that number |
| `BatchInvariants.PermitsConserved` | tower-batch-control/src/service.rs:172-189 | in every interleaving available, held, queued and in-process permits add up to the weight times the batches given to `pair`, the weight at least 1 and the batches from 1 to 64, so the unbounded channel is bounded |
| `BatchCapacity.FreshHandlesReady` | tower-batch-control/src/service.rs:172-189 | of any number of handles of a fresh service polled in turn, exactly that many are ready and all others are pending |
| `BatchInvariants.AnsweredOnceInOrder` | tower-batch-control/src/worker.rs:364-381 | in every interleaving accepted messages are answered at most once, in order of acceptance, and exactly once when the worker is gone |
| `BatchInvariants.OneErrorForAll` | tower-batch-control/src/worker.rs:298-347 | once an error is exposed, every error answer and every client that finds the channel or semaphore closed gets that error; before, nothing is closed |
| `BatchInvariants.RunInv` | tower-batch-control/src/worker.rs:197-335 | every reachable state meets the joint invariant of errors, permits, messages and running batches |
| `BatchInvariants.SelectNeverStuck` | tower-batch-control/src/worker.rs:204-235 | some select branch is enabled in every reachable state if and only if `pair` was given at least one batch |
| `BatchTimer.FailedTimerArmed` | tower-batch-control/src/worker.rs:245-335 | in every reachable state a failed worker at its select statement has its timer armed if and only if no weight is pending and it has answered a request with the error |
| `BatchProgress.FailedWorkerRearms` | tower-batch-control/src/worker.rs:168-281 | a run to such a state for every configuration that allows a batch; when the timer elapses, the timer branch changes nothing |
| `BatchTrace.InnerServiceSeesBatches` | tower-batch-control/src/worker.rs:137-187 | with weights of at least one, the inner service sees the answered requests in order, cut by flushes into non-empty batches below the limit before their last request; without a failure these are all answered requests and the timer is armed exactly when weight is pending |
| `BatchTrace.CutCovers` | tower-batch-control/src/worker.rs:168-187 | the flushed batches and the open one together are exactly the items sent to the service |
| `BatchProgress.AnswerableExactly` | tower-batch-control/src/worker.rs:197-290 | from a reachable state every accepted request can be answered without dropping the worker if and only if none is queued or the worker has not both failed and reached its select statement with an elapsed timer |
| `BatchTermination.SmoothRunsAnswer` | tower-batch-control/src/worker.rs:197-290 | from any other state, every run of worker steps and successes of the service that change something is bounded by a rank, and when no such step is left every accepted request has its answer, without a new failure |
| `BatchProgress.EveryRequestCanBeAnswered` | tower-batch-control/src/worker.rs:197-290 | the succeeding half: from any other state there is such a run, and its answers are responses if nothing had failed |
| `BatchEnd.EndsExactlyUnused` | tower-batch-control/src/worker.rs:282-286 | a worker that has not failed can end by its own steps and successes of the inner service if and only if all handles are gone; every request accepted before has its response then |
| `BatchEnd.ExitRun` | tower-batch-control/src/worker.rs:282-286 | looking for the end of an empty channel ends the worker if the channel is closed or has no handle, and changes nothing otherwise |
| `BatchProgress.StarvedForEver` | tower-batch-control/src/worker.rs:203-235 | the failing half: a failed worker with an elapsed timer answers nothing more in any run that does not drop it, because the timer branch is tried before the message branch |
| `BatchProgress.StarvationNeedsTwo` | tower-batch-control/src/worker.rs:203-290 | some run leaves a queued request unanswered in this way if and only if the configuration has at least two permits |
| `BatchService.Batch.constructor` | tower-batch-control/src/service.rs:158-209 | the object starts in the initial protocol state, with the weight clamped to at least 1, the worker's batch limit as given, and as many permits as the weight times the batches clamped to 1 to 64 |
| `BatchService.Batch.Fail` | tower-batch-control/src/worker.rs:298-335 | the first failure is exposed, closes channel and semaphore and stops the timer; later ones change nothing |
| `BatchService.Batch.ProcessReq` | tower-batch-control/src/worker.rs:137-162 | the request is answered by the response, the old failure or the new one |
| `BatchService.Batch.FlushService` | tower-batch-control/src/worker.rs:168-187 | a ready service gets the flush and the batch is reset; a failed worker skips it |
| `BatchService.Batch.FinishBatch` | tower-batch-control/src/worker.rs:207-221 | the branch for a finished batch is a run of protocol steps |
| `BatchService.Batch.ExpireTimer` | tower-batch-control/src/worker.rs:223-233 | the timer branch is a run of protocol steps |
| `BatchService.Batch.ReceiveMessage` | tower-batch-control/src/worker.rs:235-281 | the message branch, with its flush or timer start, is a run of protocol steps |
| `BatchService.Batch.Drop` | tower-batch-control/src/worker.rs:364-381 | dropping the worker is a run of protocol steps that answers every queued request, in order, with the exposed error |
| `BatchService.Batch.PollReady` | tower-batch-control/src/service.rs:281-315 | polling is a run of protocol steps: ready exactly with a permit, failed only with the exposed error, pending only when no permit is left |
| `BatchService.Batch.Call` | tower-batch-control/src/service.rs:317-342 | the request and its permit are queued, or the call fails with the exposed error |
| `BatchService.MessageRun` | tower-batch-control/src/worker.rs:235-281 | the interleavable steps of the message branch, taken together, have the effect of the sequential code |
| `BatchService.FlushRun` | tower-batch-control/src/worker.rs:168-187 | the interleavable steps of a flush, taken together, have the effect of the sequential code |
| `BatchService.FailRun` | tower-batch-control/src/worker.rs:298-335 | the publication steps of a failure, taken together, publish it at once |
| `BatchService.DrainRun` | tower-batch-control/src/worker.rs:376-381 | draining answers what is queued, in order, and ends the worker |
| `BatchService.PollRun` | tower-batch-control/src/service.rs:281-315 | the interleavable steps of polling, taken together, have the effect of the sequential code |
| `Amount.FoldIs` | zebra-chain/src/amount.rs:425-441 | a sum succeeds exactly when every running total is in range, and is then the total |
| `Amount.FoldFails` | zebra-chain/src/amount.rs:425-441 | a failed sum reports the first running total out of range and the number of items left |
| `Amount.NonNegSum` | zebra-chain/src/amount.rs:425-441 | for non-negative amounts a sum succeeds exactly when the total is at most the maximum |
| `Amount.BytesRoundTrip` | zebra-chain/src/amount.rs:109-122 | encoding and decoding give back every amount the constraint allows |
| `Amount.BytesRoundTripBack` | zebra-chain/src/amount.rs:109-122 | eight bytes that decode re-encode to themselves |
| `Amount.BytesAreLittleEndian` | zebra-chain/src/amount.rs:109-122 | byte k of an amount is its digit of weight 256^k, in the two's complement if it is negative |
| `Amount.RangesAre` | zebra-chain/src/amount.rs:558-610 | the allowed ranges as numbers of zatoshi |
| `ValueBalances.ConstrainIs` | zebra-chain/src/value_balance.rs:165-177 | a balance meets a constraint exactly when every pool does; the error names a pool that does not, and its value |
| `ValueBalances.FoldBalancesIs` | zebra-chain/src/value_balance.rs:588-597 | a sum of balances succeeds exactly when no item is an error and every running total of every pool is in range, and is then the pool-wise total |
| `ValueBalances.RemainingIs` | zebra-chain/src/value_balance.rs:193-204 | the remaining value is the total of the five pools, and is refused exactly when it is out of range or a running total is |
| `ValueBalances.RemainingCanOverflow` | zebra-chain/src/value_balance.rs:193-204 | a balance with all pools and the total in range is refused because of a running total |
| `ValueBalances.PoolChangeIs` | zebra-chain/src/value_balance.rs:312-322 | a pool change is accepted exactly when no pool becomes negative or exceeds the maximum, and the error names such a pool |
| `ValueBalances.RecordRoundTrip` | zebra-chain/src/value_balance.rs:356-447 | every non-negative balance is read back from its 48-byte record |
| `ValueBalances.RecordRoundTripBack` | zebra-chain/src/value_balance.rs:380-447 | every accepted record re-encodes to itself padded with zeros to 48 bytes |
| `ValueBalances.RecordLayout` | zebra-chain/src/value_balance.rs:356-374 | a record has eight little-endian bytes per pool, in the order of the pools |
| `ValueBalances.RecordErrors` | zebra-chain/src/value_balance.rs:380-447 | a record of a known length is refused if and only if some pool's bytes are out of range, and the error names the first such pool |
| `ValueBalances.RecordLengths` | zebra-chain/src/value_balance.rs:384-387 | a record is unparsable exactly when its length is not 32, 40 or 48 |
| `Transactions.TransparentIs` | zebra-chain/src/transaction.rs:1240-1265 | the transparent balance exists exactly when inputs and outputs each total at most the maximum; the final subtraction never fails |
| `Transactions.SproutIs` | zebra-chain/src/transaction.rs:1371-1420 | the Sprout balance exists exactly when every running total of the JoinSplits is in range, is what they move in less what they move out, and touches no other pool |
| `Transactions.BalanceIs` | zebra-chain/src/transaction.rs:1574-1610 | a transaction has a balance exactly when inputs, outputs and JoinSplit running totals are in range; each pool holds its own part and the deferred pool is zero |
| `Transactions.PoolChange` | zebra-chain/src/block.rs:254-274 | a block has a pool change exactly when every transaction has a balance and all running totals fit; each pool changes by minus its total, and setting the deferred amount never replaces a non-zero value |
| `Transactions.BlockConserves` | zebra-chain/src/block.rs:254-274 | the five transaction pools together change by minus what all transactions leave over |
| `UtxoPool.CounterAgreesWithSet` | zebra-chain/src/value_balance.rs:298-322 | over every run of accepted and rejected blocks the transparent pool is the sum of the unspent outputs, and no pool is negative |
| `UtxoPool.EmptyChainAgrees` | zebra-chain/src/value_balance.rs:151-161 | the empty chain with zero pools is a chain to start from |
| `UtxoPool.CommitAgrees` | zebra-chain/src/value_balance.rs:298-322 | a block that spends unspent outputs is rejected for its transparent pool only above the maximum, never as negative; it has no transparent balance only if one transaction overflows or a running total falls below minus the maximum |
| `UtxoPool.CommitExactly` | zebra-chain/src/value_balance.rs:298-322 | a block whose spends apply is committed if and only if each transaction has a balance, every running total of every pool is in range and every pool ends from zero to the maximum; each pool then changes by its own total |
| `UtxoPool.ApplyTxExactly` | zebra-state/src/service/check/utxo.rs:38-97 | a transaction applies if and only if its inputs spend different unspent outputs and its own outputs are new; exactly the spent outputs go and exactly its own, numbered from 0, come |
| `UtxoPool.SpendExactly` | zebra-state/src/service/check/utxo.rs:38-97 | spending in turn succeeds if and only if the inputs spend different unspent outputs, and removes exactly those |
| `UtxoPool.CreateExactly` | zebra-chain/src/transparent/utxo.rs:233-256 | creating in turn adds exactly the outputs of the transaction, each at its own index |
| `UtxoPool.DeferredPoolIs` | zebra-chain/src/block.rs:254-274 | over every run of blocks the deferred pool changes by exactly what the committed blocks say |
| `UtxoPool.FoldTransparent` | zebra-chain/src/block.rs:254-274 | running totals of the transparent pool never exceed the sum of the unspent outputs before the block |
| `Transactions.BalanceErrors` | zebra-chain/src/transaction.rs:1240-1265 | a transaction fails in its transparent pool only if its inputs or its outputs exceed the maximum |
| `UtxoPool.TransparentChange` | zebra-chain/src/transaction.rs:1240-1265 | the transparent pool change of a block is the change of the sum of the unspent outputs, outputs created and spent in the block included |
| `BlockTotals.SumResponses` | zebra-consensus/src/block.rs:301-324 | the loop gives the 32-bit signature operation count and a fee total that is `Ok` and exact if and only if it is at most the maximum |
| `BlockTotals.CheckTotals` | zebra-consensus/src/block.rs:302-350 | the verdict is that on the mathematical totals |
| `BlockTotals.VerdictIgnoresOrder` | zebra-consensus/src/block.rs:302-350 | any two completion orders of the same results get the same verdict |
| `BlockTotals.SigopLimit` | zebra-consensus/src/block.rs:328-334 | too many signature operations exactly above 20,000 on the 32-bit counter; an accepted block is within the limit if and only if its operations fit in 32 bits |
| `BlockTotals.SigopCounterWraps` | zebra-consensus/src/block.rs:318-334 | two responses of 2^31 operations each are accepted |
| `BlockTotals.FeeLimit` | zebra-consensus/src/block.rs:336-341 | summing the fees fails exactly when they exceed the maximum and the signature operations are within their limit |
| `Supply.MinerFeesIs` | zebra-consensus/src/block/check.rs:308-365 | a coinbase transaction is accepted exactly when no total leaves its range and it takes at most, from NU6 exactly, subsidy plus fees |
| `Supply.FeesAreRemainders` | zebra-consensus/src/transaction.rs:581-595 | the collected fees are exactly what all transactions but the coinbase leave over |
| `Supply.FeeExactly` | zebra-consensus/src/transaction.rs:581-595 | a transaction other than the coinbase pays a fee if and only if its sums stay in range and it leaves over an amount from zero to the maximum, which is the fee |
| `Supply.BlockIssuance` | zebra-consensus/src/block.rs:302-350 | a verified block adds at most its subsidy to all pools together, and exactly its subsidy from NU6 |
| `Supply.SupplyIsIssued` | zebra-chain/src/value_balance.rs:312-322 | over every run of blocks the value in all pools is at most the starting value plus the subsidies of the committed blocks, and exactly that from NU6 |
| `Supply.SubsidyBlockExtends` | zebra-consensus/src/block/check.rs:308-365 | a block that only pays its subsidy to one output extends every chain with room for it |
| `SpentUtxos.FirstPass` | zebra-consensus/src/transaction.rs:721-767 | it fails if and only if the chain's reply for some input is an error, with the error of the first; else every input that the block or the chain resolves has its slot and map entry, and the others are listed in order |
| `SpentUtxos.LookUp` | zebra-consensus/src/transaction.rs:721-762 | one input: nothing for a coinbase input, the block's own output if known, else the awaited output, else the best chain's output, else left to the mempool; a failed reply is its error |
| `SpentUtxos.AskMempool` | zebra-consensus/src/transaction.rs:769-797 | one input left over: the mempool's output at the next height and not from a coinbase, or the error of its reply |
| `SpentUtxos.OneOutcome` | zebra-consensus/src/transaction.rs:721-797 | every input that spends an output has one source, or an error in one of the two passes, never both |
| `SpentUtxos.SecondPass` | zebra-consensus/src/transaction.rs:769-800 | it fails if and only if the mempool's reply for some listed input is an error or there is no mempool to ask, with the error of the first; else every input that spends an output has its slot and map entry |
| `SpentUtxos.SpentOutputs` | zebra-consensus/src/transaction.rs:695-811 | the lookup succeeds if and only if every input that spends an output has a source among the known outputs, the chain's replies and the mempool's; outputs are then those of the sources in input order, the map has exactly the spent outpoints, known ones with the known output, and the mempool list has exactly the unknown inputs that the best chain lacks, in order; an error is that of the first failing input of the first failing pass |
| `SpentUtxos.OneOutputPerInput` | zebra-consensus/src/transaction.rs:804-811 | without coinbase inputs there is one output per input, the one that input spends |

## Left out

- Proof of work, Equihash, Merkle root, script, signature and proof checks: a block either passes its checks or not.
- The commit task behind the checkpoint verifier's `call`, and the state and mempool services: only their replies and a reset with the state tip appear, as parameters.
- Hash functions: a hash is an opaque value, and where a result needs it, a hash is assumed to fix its parent hash.
- `zcash_history` node contents, hashing and errors, and the tree versions: a node is a free term, and the root joins the peaks from the left.
- History trees started in the middle of an upgrade: the leaf count from the activation block holds for trees grown from height 0.
- `try_extend`, serialisation of trees and the `from_block` wrappers: they add no branching.
- HistoryTree.PeakPositions: what a build without overflow checks does after the overflow at `u32::MAX` is not modelled.
- HistoryTree.NonEmptyHistoryTree.PushFromParts: fewer than 2^31 leaves, which block heights guarantee for trees grown from height 0; the next height is required because the code asserts it.
- HistoryTree.NonEmptyHistoryTree.FromCache: stated for a size and peaks that were saved from a tree; other data is an error of the foreign tree.
- BatchService.Batch.Call: the handle must hold a permit, because the code panics otherwise.
- Cancelling the batch worker while it holds an unanswered request: its response channel is then dropped; only cancellation at the other await points is modelled.
- The join handle that `poll_ready` looks at first, panics inside the worker, and wake-ups.
- Batches that have finished but whose result the worker has not taken: a batch finishes when its result is taken.
- Durations: the batch timer may elapse at any time while it is armed.
- CheckpointLists.SafeListsExactly: for runs without a reset; `RunNeverPanics` covers resets on the chain.
- CheckpointNoise.NoiseDoesNotStop: heights above the checkpoint are excluded unless it is the last one; with them the property fails, and `StallingRun`, `ProcessReachesExactly` and `ArrivalsSettle` say how, when exactly, and what holds instead.
- `usize` overflow of batch weights and permit counts: they are unbounded here.
- BlockTotals.SumResponses: the signature operation counter wraps at 2^32, as in a release build; a build with overflow checks panics instead.
- Coinbase maturity and the rule that coinbase outputs are spent to shielded pools.
- Lock scripts, note commitments and nullifiers: transactions have only what value accounting reads.
- Transaction versions: absent JoinSplits are an empty list, absent shielded bundles a zero balance.
- UtxoPool.CounterAgreesWithSet: outpoints that a block creates are new among the unspent outputs and within the block, which unique transaction hashes provide.
- Supply.SupplyIsIssued: covers blocks that pass the semantic verifier; blocks below the last checkpoint are not checked against their subsidy.
- How the block subsidy and the deferred amount are computed from the height.
- SpentUtxos.SpentOutputs: the reply each query would get is a parameter; the wait for it is not modelled.
- Metrics, tracing, progress bars, error display and misbehaviour scores.
- Networking, RPC, mempool storage, state storage, `tower-fallback` and the tooling of the repository.
