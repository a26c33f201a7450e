# Aligned: batching, inclusion and aggregation, verified

Aligned verifies proofs in batches. A batcher queues proofs, cuts the queue into batches, commits to every batch
with a Merkle root and creates a task for the root on chain. Operators verify the items of a batch in parallel and
sign its root. An aggregator collects the signatures and answers the task on chain. A contract keeps the state of
every root and answers inclusion queries of clients. This project models those programs in Dafny and proves what
holds over all of their inputs, runs and schedules. Where a property one would expect of the code is false, the code
is modelled as it is and the exact condition is proved, with an input or a family of inputs that shows the failure.

| file | program |
|---|---|
| `ByteStrings.dfy`, `Json.dfy` | bytes, digests, 32-bit words, sizes of serialised data |
| `Merkle.dfy`, `Commitment.dfy` | commitments, batch trees, inclusion proofs |
| `Greedy.dfy`, `Split.dfy`, `Batcher.dfy`, `FlushLoop.dfy` | the batcher's queue, one handler at a time |
| `BatcherRuns.dfy` | any number of the batcher's handlers, interleaved over its two mutexes |
| `ServiceManager.dfy`, `Inclusion.dfy`, `Quorum.dfy` | the contract, accepted inclusion queries, signer sets |
| `Aggregator.dfy`, `AggregatorRuns.dfy` | the aggregator's handlers, alone and interleaved, with the contract they write to |
| `ParallelVerify.dfy` | the operator's goroutines for one batch |
| `Halo2Blob.dfy` | the Halo2-KZG parameter blob: writer, two parsers, the call into the verifier library |
| `ERC20.dfy` | the mock token |

Programs that change state are classes and methods, proved against functions on values; the lemmas are about those
functions. Concurrent programs are step relations: a result about them holds for every finite sequence of enabled
steps, so for every interleaving.

## How to read the results

* **Hashing.** Keccak-256 is a function parameter from byte strings to 32 bytes. No such function is injective, so
  the results do not assume it is: they ask that it has no collision among the finitely many inputs the two sides
  of the statement hash (`Merkle.Separates`, `ByteStrings.NoCollision`). An injective hash would satisfy this.
  `Commitment.CommitBinds` also asks that none of the inputs hashes to zero, which stands for an absent field.
* **Trees.** The tree builder and the on-chain verifier are library code outside the repository and are defined here
  as assumptions. The builder pads to a power of two with the last leaf and lists siblings from leaf to root. The
  verifier folds 32-byte siblings, reads the index's parity at each level and halves the index, and reverts on a
  length that is no multiple of 32. `Merkle.ThreeLeaves` spells out a small tree.
* **Sizes.** `Split` and `Greedy` are about any item type and size. The batcher uses them with the size of an entry's
  compact JSON text (section 5 of RFC 8259); `Json.BatchTextSize` is the link between a list's text and its items',
  and `Json.SizeIs` gives an item's size in digits and punctuation.
* **Batcher.** The optimality of greedy batching fails when messages arrive after a turn that cleared the whole
  queue. `Greedy.FewestIff` is the exact statement: the batches exceed the fewest pieces possible by the number of
  batches that would have gone whole into the room their predecessors leave, and that number is read off the batches
  in one pass. `FlushLoop.RunIsFewestIff` and `BatcherRuns.AllHandlersFewestIff` state it for one handler and for all,
  `FlushLoop.ClearThenArrivals` decides it for two lots from their sizes alone. The guard against batches below two
  entries looks at the queue only: `Split.BatchOfTwoIff` says when a flushed batch has two, and `Split.TextExceedsIff`
  when its text is over the limit. An entry over the limit blocks the queue for good, under any interleaving
  (`BatcherRuns.NothingPastOversized`). The flush loop does not always end: `FlushLoop.GoesOnIff` says exactly when it
  is still going, whatever becomes of its batches, `FlushLoop.OversizedGoesOnIff` and `FlushLoop.TwoEntriesLoopIff`
  give such queues. A turn that makes no progress takes an empty batch. Whether the tree builder accepts one is not
  known here; if it refuses, the loop ends in a panic there (`FlushLoop.LongRunHasEmptyBatch`).
* **Contract.** `VerifiesIff` and `AcceptedAfterRunIff` decide verification and acceptance over whole runs from the
  transactions alone. With a block number that is a multiple of 2^32 a task is announced but not stored
  (`AnnouncesIff`, `CreationSticksIff`). The threshold's product is a checked 96-bit product, so with a very large
  total stake even a fully signed response reverts (`FullySignedAcceptedIff`).
* **Aggregator.** The signature service is assumed to answer initialised tasks only. A send without an error means
  that its transaction was mined; its receipt's status is not looked at in the source, so it may have reverted.
* **Operator.** A verifier may panic on the Go side or behind the foreign call. On the Go side `wg.Done` is deferred,
  so a panicking worker counts as done before the process goes down; behind the foreign call a panic aborts the process
  at once. `ParallelVerify.SuccessMeansVerifiedIff` is the exact condition for a returned success to mean that every
  item verifies. Without panics the outcome is the same on every schedule.
* **Halo2 blob.** On every blob the batcher's parser accepts the operator has the same three byte strings. Their
  verdicts agree exactly when a section is not read, the public input is not canonical, or the proof and the public
  input fit 4096 bytes each: the Go side declares 8192 for a proof, the Rust side behind it 4096.
  `Halo2Blob.ProofTooLong` is such a disagreement.

## Model

| member | source | states |
|---|---|---|
| Merkle.FoldsToRootIff | contracts/src/core/AlignedLayerServiceManager.sol:135-150 | a leaf, a path and an index fold to a tree's root if and only if the path is the one of the leaf the index selects modulo the tree's width and the leaf is that leaf, for all path lengths and indices; leaf inputs are told from the 64-byte inner ones by their length |
| Merkle.FoldSound | batcher/aligned-batcher-lib/src/types/mod.rs:90-105 | soundness alone: a fold that reaches the root has one sibling a level and the leaf at the clamped index |
| Merkle.ProofFolds | batcher/aligned-batcher-lib/src/types/mod.rs:118-134 | the path handed out for any entry of any tree folds to the tree's root |
| Merkle.SiblingsFold | batcher/aligned-batcher-lib/src/types/mod.rs:100-105 | folding a node with its siblings gives its ancestor at every level, not only at the root |
| Merkle.FoldReadsLowBits | contracts/src/core/AlignedLayerServiceManager.sol:144-150 | the verifier reads as many low bits of the index as the path is long, and nothing else of it |
| Merkle.ShortPathPinsNode | contracts/src/core/AlignedLayerServiceManager.sol:142-150 | a path no longer than the tree that folds to the root starts at the node of its level with the index's low bits, and its siblings are that node's |
| Merkle.LongPathCollides | batcher/aligned-batcher-lib/src/types/mod.rs:90-105 | a path longer than the tree that folds to the root yields a 64-byte input with a leaf's hash |
| Merkle.OneLevel | contracts/src/core/AlignedLayerServiceManager.sol:144-150 | one level of the fold: an even index has the sibling on the right, an odd one on the left |
| Merkle.ProcessInclusionProof | contracts/src/core/AlignedLayerServiceManager.sol:144-150 | the verifier's loop computes the fold of the proof's 32-byte chunks and reverts on other lengths |
| Merkle.ChunksOfFlatten | batcher/aligned/src/main.rs:168-174 | the client's flattened path is cut back into the same siblings |
| Merkle.FlattenOfChunks | batcher/aligned/src/main.rs:168-174 | proof bytes of a whole number of siblings are the flattening of their chunks |
| Commitment.ToCommitment | batcher/aligned-batcher-lib/src/types/mod.rs:42-81 | field by field: the hash of the proof, of the public input or zero, of the program code if there is one, else of the key if there is one, else zero, and the address |
| Commitment.CommitBinds | batcher/aligned-batcher-lib/src/types/mod.rs:42-81 | two commitments are equal if and only if proof, public input and address are, and the codes where both have one, the keys where neither has, or the code of one and the key of the other; the system and a key beside a code are not bound |
| Commitment.HashData | batcher/aligned-batcher-lib/src/types/mod.rs:90-98 | a leaf is the hash of the commitment's four fields in order, 116 bytes |
| Commitment.HashNewParent | batcher/aligned-batcher-lib/src/types/mod.rs:100-105 | a parent is the hash of its children, left first |
| Commitment.LeafBytesInjective | contracts/src/core/AlignedLayerServiceManager.sol:135-140 | the packed leaf determines the commitment |
| Json.SizeIs | batcher/aligned-batcher/src/lib.rs:254 | an item's serialised size is 150 bytes, its system's name, and the arrays' decimal digits, commas and brackets, four for an absent one |
| Json.BatchTextSize | batcher/aligned-batcher/src/lib.rs:246 | the serialised queue has the items' sizes plus one byte an item plus one, or two bytes when empty |
| Greedy.FitIsLongest | batcher/aligned-batcher/src/lib.rs:251-260 | a prefix stays within the limit if and only if it is no longer than the one the accumulation finds |
| Greedy.GreedyBound | batcher/aligned-batcher/src/lib.rs:249-268 | batches cut as the batcher cuts them are at most as many as the pieces of any division within the limit plus the clears followed by more batches |
| Split.NotReadyIff | batcher/aligned-batcher/src/lib.rs:226-239 | nothing is flushed exactly from a queue below two, or below the minimum at a block before the last recorded one plus the interval |
| Split.SplitLoop | batcher/aligned-batcher/src/lib.rs:251-259 | the accumulation loop returns the longest fitting prefix, and zero when it never exceeds the limit |
| Split.SplitCharacterised | batcher/aligned-batcher/src/lib.rs:246-262 | the split's prefix is the longest within the limit, its text exceeds the limit by at most one byte an item and one more, and it is empty exactly when the first item is too big or the items fit but their list does not |
| Split.ClearCharacterised | batcher/aligned-batcher/src/lib.rs:246-268 | the whole queue goes exactly when its text fits, and every other flush leaves something behind |
| Split.BatchOfTwoIff | batcher/aligned-batcher/src/lib.rs:224-262 | although shorter queues wait, a flushed batch has two entries if and only if the whole text fits, or the first two entries fit and all of them together do not |
| Split.TextExceedsIff | operator/pkg/s3.go:22-25 | a flushed batch's text exceeds the limit, with which operators refuse to download it, if and only if the queue has a prefix that fits, that the next entry would overfill, and whose brackets and commas no longer fit |
| Split.ExcessIsReached | batcher/aligned-batcher/src/lib.rs:249-262 | the greatest excess, a byte an entry and one more, is reached for every number of entries |
| Split.DecisionIsTight | batcher/aligned-batcher/src/lib.rs:226-268 | every decision divides the queue and takes a batch that the next entry would push over the limit, unless it clears the queue |
| Batcher.SerializedSize | batcher/aligned-batcher/src/lib.rs:241-246 | the size compared with the limit is that of the list of the entries' data |
| Batcher.Batcher.HandleMessage | batcher/aligned-batcher/src/lib.rs:163-192 | an entry is queued exactly when its proof is within the size limit and pre-verification lets it pass |
| Batcher.Batcher.AddToBatch | batcher/aligned-batcher/src/lib.rs:195-206 | an entry is appended with the commitment of its own data |
| Batcher.Batcher.IsBatchReady | batcher/aligned-batcher/src/lib.rs:218-269 | not ready exactly by the two guards, and then nothing changes; otherwise what it returns and leaves is the decision's |
| Batcher.Batcher.FinalizeBatch | batcher/aligned-batcher/src/lib.rs:274-316 | the batch is submitted, the block recorded and every client of the batch answered in order, or nothing of it |
| Batcher.Batcher.SendBatchInclusionDataResponses | batcher/aligned-batcher/src/lib.rs:386-412 | every entry's connection gets, in batch order, that entry's commitment, index and path |
| Batcher.Batcher.TakeTurn | batcher/aligned-batcher/src/lib.rs:335-338 | one turn of the flush loop after any arrivals |
| Batcher.Batcher.HandleNewBlock | batcher/aligned-batcher/src/lib.rs:334-340 | a whole handler run refines the function the flush-loop results are about, and it submits and answers exactly the batches it finalised, in order |
| Batcher.FirstResponsesAt | batcher/aligned-batcher/src/lib.rs:386-412 | the response at a position carries that entry's connection and commitment, the position, the batch's root and the position's path |
| FlushLoop.RunConserves | batcher/aligned-batcher/src/lib.rs:334-340 | over a handler run the batches cut and the queue left are the first queue and the arrivals, in order |
| FlushLoop.RunIsGreedy | batcher/aligned-batcher/src/lib.rs:249-268 | with arrivals between turns the run's non-empty batches are at most the pieces of any division plus the clears followed by more |
| FlushLoop.QuietRunIsOptimal | batcher/aligned-batcher/src/lib.rs:334-340 | without arrivals no division of what was flushed within the limit has fewer pieces |
| Greedy.FewestIff | batcher/aligned-batcher/src/lib.rs:249-268 | batches cut as the batcher cuts them exceed the best division by exactly the swallowed ones, so they are the fewest possible if and only if none is swallowed |
| FlushLoop.RunIsFewestIff | batcher/aligned-batcher/src/lib.rs:334-340 | a handler run with any arrivals is optimal if and only if no batch would have gone whole into the room left before it, and otherwise exceeds the best division by the number of such batches |
| FlushLoop.ClearThenArrivals | batcher/aligned-batcher/src/lib.rs:264-268 | two lots of any size, each cleared, the second arriving after the first: the two batches are the fewest possible if and only if all entries together exceed the limit |
| FlushLoop.ProgressIff | batcher/aligned-batcher/src/lib.rs:249-262 | a turn fails to shorten the queue exactly in the two no-progress states |
| FlushLoop.GoesOnIff | batcher/aligned-batcher/src/lib.rs:334-340 | a loop without arrivals is still going after more turns than there were entries, whatever its batches' outcomes, if and only if the queue is ready, what greedy packing leaves of it is ready at the block just recorded, and every batch was finalised |
| FlushLoop.HowRunsStop | batcher/aligned-batcher/src/lib.rs:334-340 | any run, with any arrivals and outcomes, stops on a queue that is not ready at the last block recorded, at a dropped batch with all before it finalised, or not at all with all finalised |
| FlushLoop.OversizedGoesOnIff | batcher/aligned-batcher/src/lib.rs:249-262 | with an entry over the limit and two entries and the minimum from it on, a run with any arrivals goes on if and only if no batch is dropped |
| FlushLoop.TwoEntriesLoopIff | batcher/aligned-batcher/src/lib.rs:246-262 | with a minimum of at most two, two entries loop if and only if the first is over the limit or they fit it and their list does not |
| FlushLoop.LongRunHasEmptyBatch | batcher/aligned-batcher/src/lib.rs:335-338 | a loop without arrivals that goes on for more turns than there were entries has finalised an empty batch |
| FlushLoop.StuckForEver | batcher/aligned-batcher/src/lib.rs:310-340 | a ready queue without progress at its own block keeps every later turn from ending the loop |
| BatcherRuns.EveryMessageInOnePlace | batcher/aligned-batcher/src/lib.rs:195-316 | under any interleaving the pushes are one entry a message, with that message's data, commitment and connection, and a finished message has one place: in the queue, or in one batch that is in flight, answered or dropped and only one of them |
| BatcherRuns.EveryEntryInOnePlace | batcher/aligned-batcher/src/lib.rs:195-316 | under any interleaving of pushes and handlers the batches cut and the queue are the pushes in order, each batch is in exactly one of in flight, answered and dropped, a task in flight carries the batch of its position, and the answers sent are those of the answered batches |
| BatcherRuns.MessageIsQueued | batcher/aligned-batcher/src/lib.rs:200-204 | a message handled without interruption puts its entry at the end of the queue and changes nothing else |
| BatcherRuns.TurnDecides | batcher/aligned-batcher/src/lib.rs:218-269 | a turn's steps up to its decision: by the two guards the handler ends and nothing changes, otherwise the decision's batch is in flight; both mutexes are free again |
| BatcherRuns.TurnSubmits | batcher/aligned-batcher/src/lib.rs:305-316 | the steps after it: block recorded, every client of the batch answered, and the handler back for its next turn |
| BatcherRuns.TurnDrops | batcher/aligned-batcher/src/lib.rs:299-308 | a stream error or a failed upload ends the handler and drops the batch, with block and answers as they were |
| BatcherRuns.AllHandlersFewestIff | batcher/aligned-batcher/src/lib.rs:117-137 | the batches of all handlers together are the fewest possible if and only if none is swallowed, and exceed them by the swallowed ones |
| BatcherRuns.AllHandlersAreGreedy | batcher/aligned-batcher/src/lib.rs:117-137 | the greedy bound for the batches of all handlers together |
| BatcherRuns.NothingPastOversized | batcher/aligned-batcher/src/lib.rs:249-262 | under any interleaving no handler ever batches an entry over the limit or anything behind it |
| BatcherRuns.SomeTaskCanStep | batcher/aligned-batcher/src/lib.rs:218-311 | no deadlock: while a task is unfinished some task can step |
| BatcherRuns.LockOrder | batcher/aligned-batcher/src/lib.rs:219-222 | whoever holds the block's mutex never waits for the queue's |
| BatcherRuns.LocksMatchCode | batcher/aligned-batcher/src/lib.rs:200-311 | each mutex is held by exactly the task that stands between its lock and its release |
| BatcherRuns.ResponsesAreSound | batcher/aligned-batcher/src/lib.rs:386-412 | every answer sent belongs to an entry of an answered batch whose commitments are those of pushed data |
| ServiceManager.AlignedLayerServiceManager.CreateNewTask | contracts/src/core/AlignedLayerServiceManager.sol:56-73 | succeeds exactly when the root has no task; then the task is stored with the block cut to 32 bits and not responded, and announced with that block; else nothing changes |
| ServiceManager.AlignedLayerServiceManager.RespondToTask | contracts/src/core/AlignedLayerServiceManager.sol:75-116 | succeeds exactly when there is a task that is not responded and at least 67% of a stake whose product fits 96 bits has signed; then only the flag changes and the event is emitted; else nothing changes, the early flag undone |
| ServiceManager.AlignedLayerServiceManager.VerifyBatchInclusion | contracts/src/core/AlignedLayerServiceManager.sol:118-151 | the answer is false before a response, else whether the packed leaf folds to the root |
| ServiceManager.StatusIsPermanent | contracts/src/core/AlignedLayerServiceManager.sol:60-94 | no later transactions change a non-zero creation block or clear the responded flag |
| ServiceManager.AcceptedForever | contracts/src/core/AlignedLayerServiceManager.sol:127-150 | an accepted inclusion query stays accepted |
| ServiceManager.VerifiesIff | contracts/src/core/AlignedLayerServiceManager.sol:75-116 | over any run from deployment, from the transactions alone: a transaction verifies a root if and only if it is a response with enough stake, some earlier creation of the root stuck, and no such response came after one before it |
| ServiceManager.RespondedIff | contracts/src/core/AlignedLayerServiceManager.sol:60-115 | over any run from deployment a root is stored as responded if and only if its verification has been emitted |
| ServiceManager.StoredBlockIs | contracts/src/core/AlignedLayerServiceManager.sol:65-70 | a root's stored block is, for ever, that of the first creation that sticks |
| ServiceManager.AcceptedQueryWasVerified | contracts/src/core/AlignedLayerServiceManager.sol:127-150 | an accepted inclusion query rests on a creation that sticks and a later verification by a response with enough stake |
| ServiceManager.RunSafety | contracts/src/core/AlignedLayerServiceManager.sol:56-116 | from deployment on a root is verified at most once, after its announcement, with at least 67% of the stake signed |
| ServiceManager.VerifiedAfterNewBatch | contracts/src/core/AlignedLayerServiceManager.sol:84-87 | a verified root was announced earlier in the run with a non-zero block |
| ServiceManager.VerifiedAtMostOnce | contracts/src/core/AlignedLayerServiceManager.sol:90-94 | after a root's verification no transaction verifies it again, from any state |
| ServiceManager.AnnouncesIff | contracts/src/core/AlignedLayerServiceManager.sol:60-72 | over any run from a root without a task, a transaction announces the root if and only if it creates it and no earlier creation of it was in a block that is not a multiple of 2^32, and with its own block cut to 32 bits |
| ServiceManager.AnnouncedTwice | contracts/src/core/AlignedLayerServiceManager.sol:60-72 | from any state, a root is announced twice only if the first block number was a multiple of 2^32 |
| ServiceManager.CreationSticksIff | contracts/src/core/AlignedLayerServiceManager.sol:60-72 | a root just created can be created again exactly when the block number is a multiple of 2^32 |
| ServiceManager.FullySignedAcceptedIff | contracts/src/core/AlignedLayerServiceManager.sol:108-113 | some signed part of the stake, the whole of it for one, is accepted exactly when 67 times the total stake fits 96 bits |
| Inclusion.AcceptedIff | contracts/src/core/AlignedLayerServiceManager.sol:118-151 | the contract accepts a commitment, proof and index for a batch's root if and only if the root has been responded to, the proof is the path at the index modulo the width, and the commitment is the batch's entry there, the last one for padding |
| Inclusion.AcceptedAfterRunIff | contracts/src/core/AlignedLayerServiceManager.sol:118-151 | the same over any run from deployment: accepted if and only if a creation of the root that sticks was followed by a response with enough stake, and entry and path are the batch's |
| Inclusion.InclusionComplete | batcher/aligned/src/main.rs:166-196 | the answer to any entry of any batch, flattened and sent to the contract, is accepted exactly when the root has been responded to |
| Inclusion.AcceptedDataIsInBatch | batcher/aligned-batcher-lib/src/types/mod.rs:42-105 | data whose commitment is accepted agrees with the data of an entry of the batch in everything committed to |
| Inclusion.SentResponseIsAccepted | batcher/aligned-batcher/src/lib.rs:386-412 | in every reachable state of the batcher an answer sent for a responded root is accepted by the contract, then and after any later transactions |
| Quorum.QuorumsIntersect | contracts/src/core/AlignedLayerServiceManager.sol:108-113 | two signer sets that pass the threshold share at least 34% of the stake, more than a third when there is any |
| Quorum.IntersectionIsTight | contracts/src/core/AlignedLayerServiceManager.sol:23-24 | stakes for which the overlap is exactly 34% |
| Quorum.VerifiedRootsShareSigner | contracts/src/core/AlignedLayerServiceManager.sol:96-115 | any two roots verified in a run over the same stakes, not all zero, were signed by a common operator with stake |
| Aggregator.CachesStayInverse | aggregator/internal/pkg/aggregator.go:274-292 | the two maps stay inverse bijections on an initial segment of the indices, however many tasks are added |
| Aggregator.NeverOverwritten | aggregator/internal/pkg/aggregator.go:274-292 | no assigned index ever changes its root and no known root its index |
| Aggregator.RefusedIff | aggregator/internal/pkg/aggregator.go:275-288 | a root is refused exactly when it is known or all 2^32 indices are in use |
| Aggregator.Aggregator.AddNewTask | aggregator/internal/pkg/aggregator.go:266-306 | both maps, the counter and the initialisation change together or not at all, and the mutex is free again unless the process ends |
| Aggregator.Aggregator.ProcessOperatorSignedTaskResponse | aggregator/internal/pkg/server.go:49-116 | the tries end at the first at which the root is known; the service is called exactly when there is one, with the index the maps give it, initialised; the mutex is free at the end and between tries, and the reply is zero only for a call that ended in time |
| Aggregator.Aggregator.HandleBlsAggServiceResponse | aggregator/internal/pkg/aggregator.go:178-234 | one to five sends, all of the root stored for an initialised index and of the zero root for any other, until the first without an error |
| AggregatorRuns.CallsAreSettled | aggregator/internal/pkg/server.go:57-98 | in every interleaving the signature service is called only with an index and a root that the maps agree on and whose task has been initialised |
| AggregatorRuns.CallWasSettledWhenMade | aggregator/internal/pkg/server.go:84-98 | the same at the moment of the call, also when the handler that spawned it has timed out |
| AggregatorRuns.RightRootIsSent | aggregator/internal/pkg/aggregator.go:204-228 | every root sent is the one stored for the response's index, never the zero default, at most five times a response |
| AggregatorRuns.MapsAreInverse | aggregator/internal/pkg/aggregator.go:270-303 | between additions the maps are inverse and exactly the indices in them are initialised |
| AggregatorRuns.NothingOverwritten | aggregator/internal/pkg/aggregator.go:274-292 | over any continuation of any interleaving no entry of either map changes |
| AggregatorRuns.RefusedIff | aggregator/internal/pkg/aggregator.go:274-292 | in every interleaving the indices in use are an initial segment, and an addition at its checks is refused exactly when its root is known or all 2^32 are in use |
| AggregatorRuns.LocksBalance | aggregator/internal/pkg/server.go:57-113 | every handler releases the mutex as often as it acquires it, holds none between tries, and unlocks only a mutex it holds |
| AggregatorRuns.LocksAreBounded | aggregator/internal/pkg/server.go:57-68 | no handler locks the mutex more often than the tries it has |
| AggregatorRuns.EveryHandlerEnds | aggregator/internal/pkg/server.go:49-116 | in every interleaving a thread takes at most 153 steps, and until it ends it can step or waits for a mutex whose holder can |
| AggregatorRuns.HolderCanStep | aggregator/internal/pkg/server.go:81-113 | no deadlock: the mutex's holder can always go on |
| AggregatorRuns.ContractIsSafe | aggregator/internal/pkg/aggregator.go:216-228 | under the aggregator's repeated sends and any other callers a root is verified at most once, after its announcement, above the threshold |
| AggregatorRuns.AdditionRefused | aggregator/internal/pkg/aggregator.go:270-288 | a refused addition writes nothing and gives the mutex back |
| AggregatorRuns.TryMisses | aggregator/internal/pkg/server.go:57-68 | a try that does not find the root gives the mutex back and is followed by another, unless it was the fiftieth |
| AggregatorRuns.TryFinds | aggregator/internal/pkg/server.go:57-113 | a try that finds it calls the service with the index the maps give it, under the mutex, and replies 0 only for a call that ended |
| AggregatorRuns.ResponseReads | aggregator/internal/pkg/aggregator.go:204-208 | a response handler reads the root stored for its index and holds no mutex when it sends |
| AggregatorRuns.SendIs | aggregator/internal/pkg/aggregator.go:216-228 | a send is of the handler's root and, if mined, reaches the contract; a failed one is followed by another unless it was the fifth, a successful one by none |
| AggregatorRuns.AdditionIsAddTask | aggregator/internal/pkg/aggregator.go:270-303 | the steps from lock to unlock together are the one-step addition |
| ParallelVerify.ChannelIsUsedWell | operator/pkg/operator.go:180-196 | on every schedule no send blocks or follows the close, no counter goes negative and the channel is closed once |
| ParallelVerify.EachSendsOnce | operator/pkg/operator.go:184-190 | a worker sends exactly once, its own item's verdict, and the channel keeps the order of the sends |
| ParallelVerify.EveryRunEnds | operator/pkg/operator.go:180-203 | all goroutines together take at most five steps an item and three more, also after an early failure return |
| ParallelVerify.ReturnIsTheVerdict | operator/pkg/operator.go:197-203 | on every schedule on which the reader returns it returns success if and only if no item is rejected, and then none aborts |
| ParallelVerify.EveryRunStops | operator/pkg/operator.go:180-203 | a run that can go no further has crashed exactly when some verifier panics or aborts, and otherwise every goroutine has ended and success was returned if and only if all items verify |
| ParallelVerify.SuccessMeansVerifiedIff | operator/pkg/operator.go:184-203 | on all schedules success means that all items verify exactly when no verifier panics on the Go side or some item is rejected or aborts |
| ParallelVerify.SuccessReachableIff | operator/pkg/operator.go:184-203 | some schedule lets the reader return exactly when nothing aborts or something is rejected, and return success exactly when nothing aborts and nothing is rejected |
| ParallelVerify.MeasureDecreases | operator/pkg/operator.go:184-203 | every step of every goroutine lowers the measure |
| Halo2Blob.WriteParams | task_sender/test_examples/halo2_kzg/src/main.rs:172-183 | the file is three little-endian lengths and the three sections |
| Halo2Blob.FillBuffers | batcher/aligned-batcher/src/halo2/kzg/mod.rs:27-54 | the batcher's buffers hold the sections with zeros behind them, or the slicing panics |
| Halo2Blob.PrepareCall | operator/pkg/operator.go:287-336 | the arrays and lengths the operator passes on, or a panic, with 32-bit offsets and bounds against the capacity |
| Halo2Blob.BatcherParsesIff | batcher/aligned-batcher/src/halo2/kzg/mod.rs:27-54 | the batcher parses exactly the blobs that fit and that their header describes to the byte |
| Halo2Blob.OperatorParsesIff | operator/pkg/operator.go:294-324 | the operator parses exactly the blobs whose first two sections end inside them without wrapping, into the header's cuts, whatever lies behind the slice |
| Halo2Blob.ParsersAgree | operator/pkg/operator.go:294-324 | what the batcher parses the operator parses into the same three strings; the converse needs lengths that fit and a rest as long as announced |
| Halo2Blob.WrittenBlobIsRead | task_sender/test_examples/halo2_kzg/src/main.rs:172-183 | round trip: both parsers read back what was written when it fits, and the batcher refuses every written blob that does not |
| Halo2Blob.WriteInstances | task_sender/test_examples/halo2_kzg/src/main.rs:159-163 | the public-input file is the instances' encodings in order |
| Halo2Blob.ReadFr | operator/halo2kzg/lib/src/lib.rs:80-104 | the loop reads an element from every 32 bytes, drops a shorter rest and panics on a non-canonical one |
| Halo2Blob.InstancesOfReprs | batcher/aligned-batcher/src/halo2/kzg/mod.rs:85-109 | round trip of the public inputs, also with up to 31 bytes behind them |
| Halo2Blob.ReprsOfInstances | batcher/aligned-batcher/src/halo2/kzg/mod.rs:85-109 | bytes that are read are the encodings of what was read, up to the short rest |
| Halo2Blob.BlobLayout | task_sender/test_examples/halo2_kzg/src/main.rs:172-183 | where the three lengths and the three sections stand in a written file |
| Halo2Blob.BatcherVerdictIff | batcher/aligned-batcher/src/halo2/kzg/mod.rs:56-82 | accepts exactly what the library opens, reads and proves on the padded buffers, rejects what it does not, and panics exactly on a public input that is reached and not canonical |
| Halo2Blob.OperatorVerdictIff | operator/halo2kzg/lib/src/lib.rs:36-78 | accepts exactly what the library opens, reads and proves on the sections themselves within the two 4096-byte limits, rejects what it does not, and aborts exactly on a public input or proof that is reached and over them, or not canonical |
| Halo2Blob.OperatorVerdictIs | operator/halo2kzg/lib/src/lib.rs:36-78 | on a blob the batcher parses the operator's verdict is the library's nested checks on the written sections |
| Halo2Blob.FfiAcceptsIff | operator/halo2kzg/lib/src/lib.rs:36-78 | whatever it is passed, the foreign call accepts exactly when all five lengths are within the arrays and the library opens, reads and proves the fronts of them |
| Halo2Blob.VerdictsAgreeIff | operator/halo2kzg/lib/src/lib.rs:36-78 | for every item with a parsed blob the two sides agree if and only if a section is not read, the public input is not canonical, or both lengths are at most 4096; where they do not the operator aborts |
| Halo2Blob.ProofTooLong | operator/halo2kzg/halo2kzg.go:10-26 | a library, and on every blob that fits a proof of 4097 bytes, which the batcher accepts and on which the operator aborts |
| Halo2Blob.PaddingMatters | batcher/aligned-batcher/src/halo2/kzg/mod.rs:56-62 | a library that tells padded sections from plain ones, so that the batcher accepts what the operator rejects |
| ERC20.NothingWraps | contracts/src/core/ERC20Mock.sol:147-220 | every successful transaction moves the amount in exact integers, a transfer to oneself changing nothing |
| ERC20.SupplyIsConserved | contracts/src/core/ERC20Mock.sol:147-220 | over every sequence of transactions the balances sum to the supply, the zero address holds nothing, and the event log accounts for every balance |
| ERC20.EveryRunIsConserved | contracts/src/core/ERC20Mock.sol:42-220 | the same from deployment on, with the supply below 2^256 and every balance what the log paid it net |
| ERC20.ERC20Mock.TransferBetween | contracts/src/core/ERC20Mock.sol:147-171 | when it succeeds, what it moves, and the whole new state |
| ERC20.ERC20Mock.Mint | contracts/src/core/ERC20Mock.sol:182-192 | the checked supply and the unchecked balance rise together, or nothing changes |
| ERC20.ERC20Mock.Burn | contracts/src/core/ERC20Mock.sol:204-220 | supply and balance fall together without wrapping, or nothing changes |
| ERC20.ERC20Mock.TransferFrom | contracts/src/core/ERC20Mock.sol:124-131 | a transfer for which the caller's allowance is not looked at |

## Left out

- Network, storage, configuration, logging, metrics and timing: messages, blocks, S3 results, send errors and timeouts are choices of the environment, retries are counted. The client's loop that receives and saves its answers is not modelled.
- What becomes of a submitted task: the batcher only logs a failed creation (batcher/aligned-batcher/src/lib.rs:359-362), so a submitted batch may have no task on chain.
- The `wait_for_verification` path of `finalize_batch` (batcher/aligned-batcher/src/lib.rs:318-327): its only call passes false.
- FlushLoop.NeverEndsIff: takes every batch to be finalised, the empty ones too, as `FlushLoop.LoopEndsIff` and `FlushLoop.OversizedEntryNeverEnds` do; `FlushLoop.GoesOnIff` and `FlushLoop.OversizedGoesOnIff` do not.
- Batcher.Batcher.FinalizeBatch: a stream error and a panic while building the tree, serialising or uploading are one outcome, `Dropped`; what the tree library does with an empty or one-entry batch is not known here, so it is left to that choice and to the tree definition.
- Batcher.Batcher.HandleNewBlock: the source's loop has no bound; the method runs for as many turns as it is given, and `FlushLoop.LoopEndsIff` says how many are enough.
- Split.DecisionIsTight: the sum of block numbers wraps as in a release build; a debug build would panic on it.
- Commitment.ToCommitment: the debug assertion that a program comes with SP1 is not modelled.
- Whether a signed root is the root of the batch an operator verified: the operator does not recompute it (operator/pkg/operator.go:168-204).
- BLS signatures: the contract's signature check is an abstract outcome, for `Quorum` the stakes of a set of signers.
- Aggregator responses that carry an error: the handler returns at once (aggregator/internal/pkg/aggregator.go:179-182). The wallet mutex guards one call and is not modelled.
- Aggregator.Aggregator.ProcessOperatorSignedTaskResponse: run alone, so what others add between tries is a parameter; `AggregatorRuns` has the interleavings.
- ParallelVerify.EveryRunStops: verifiers are assumed to return, panic or abort, a panic that reaches the foreign call's border to take the process down at once, and every goroutine to be scheduled in the end.
- Halo2Blob.VerdictsAgreeIff: assumes that the library reads the parsed sections alike with and without zeros behind them, which is how the two sides differ and which `Halo2Blob.PaddingMatters` shows to be needed, and lengths below 2^32, from which on the operator's lengths wrap.
- Halo2Blob.InstancesOfReprs: the field's encoding is a parameter with its two inverse laws.
- The Halo2-IPA twins of the KZG files, the other verifiers, the proving-system name tables, the FFI wrappers the operator does not use, generated bindings, scripts, the explorer and the docs.
- The token's allowance functions: `approve` stores nothing and nothing reads an allowance.
