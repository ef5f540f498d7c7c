# Verified model of the vendored HyperSDK

The contract-call layer of this repository rests on a vendored blockchain SDK under `hypersdk/`. This
project models the parts of it where several pieces of state, two loops, or bytes and values must agree,
and proves that they do, or exactly when they do. To verify: `dafny verify dfyconfig.toml` (Dafny 4.11).

## What is modelled

**The consensus VM** (`SnowChain`, `SnowState`, `SnowInvariant`, `SnowSteps`, `SnowSync`, `SnowRuns`,
`SnowSmallCache`, `SnowVM`). Blocks are parsed, built, verified, accepted, processed by an asynchronous
accepter behind a queue of sixteen, and rejected. A VM may be in state sync, where blocks are verified
vacuously and are executed once it is over. `SnowState` is the state machine; Accept is cut into the steps
between which the accepter can run. `SnowVM` holds the classes whose methods update their fields as the source
does, each proved to take one step of the machine. `SnowInvariant` lists what every state satisfies, clause by
clause; `SnowSteps` and `SnowSync` prove that every step keeps it; `SnowRuns` draws the conclusions for every
interleaving and every restart: what a verified block carries, in which order and on which parent AcceptBlock
runs, which cache size is enough, what health means, and that lookups refine a plain map.

**The codecs** (`Bytes`, `Canoto`, `WireBytes`, `TxMessages`, `Transaction`, `ResultMessages`,
`BlockMessages`). A message type is a schema with a printer and a storing function. For every lawful one, a
byte string is read as a value exactly when it is what the value is written as (`Canoto.DecodeInvertsEncode`),
and the base, the transaction, the result, the block results and the block are shown lawful. Each of them is
also laid out byte by byte, tags and all, and read from exactly those bytes. The reading loops, size
computations and writers are methods on a consuming reader and an appending writer, proved against that. A
transaction recovers what its signer signed by cutting the auth field off its raw bytes.

**Executing** (`Fees`, `TxExecution`, `Schedules`, `Interleavings`, `Executor`). The executor takes tasks with
the keys they declare and starts each one when nothing it waits for is left. Every run of it keeps
conflicting tasks apart and in order, never gets stuck, and gives the results and the store of running the
tasks one by one in the order in which they were submitted, however they overlap.

**Building and processing** (`Building`, `BuildJournal`, `BlockBuilder`, `BuildLosses`). The processor consumes
units in block order and runs the transactions in any schedule; the builder runs them as the executor
finishes them and packs what fits. The builder's output is what the processor computes for its block. A
journal files every streamed transaction exactly once, with its fate and the reason for it, and says how the
build ends, what is in the block and what is handed back; `BuildLosses` says when a build loses what it packed.

**The chain index** (`ChainIndex`, `ChainIndexRuns`). Three maps in one key-value database, over real
big-endian byte keys, with a sliding window, unsigned window arithmetic and a startup sweep.

**The indexer** (`Indexer`, `IndexerRuns`). Three in-memory caches over a window of executed blocks, their
database, rebuilding, and redelivery.

**Crash bookkeeping** (`CrashHeights`). Three persisted heights written at different points of accepting.

**Arithmetic** (`LargestSet`, `StateKeys`, `FeeUnits`, `FeeEstimate`, `SigBatch`). The greedy selection with
its in-place compaction, the fee estimate against the charge, and signature batching.

Where a specification function stands beside a method, the method's `ensures` ties the two, and the lemmas
named below say what the function promises. What an operation answers, and when, is said in plain terms by
the lemmas named `Answers` and `Means`.

## Where the code does not do what it seems to

Each of these is proved of the code as it is, with the exact condition where there is one.

- `hypersdk/fees/set.go:86` looks for a mark at position i where i + j is meant. The list returned is then
  only the part before the first item that was passed over, although the sum covers all that were taken
  (`LargestSet.Compact`, `ReturnedSumIsShort`, `MiddleRejected`). It sums to less than that exactly when a
  nonzero item fits after one that did not (`ShortExactlyWhen`); nothing is missing exactly when all items
  together stay within the limit (`AllReturnedExactlyWhen`). The intended compaction is `CompactAll`.
- `hypersdk/chainindex/chain_index.go:123-126` returns an error when the height to expire is missing. That
  happens exactly when a restart enlarges a bounded window below the chain's height
  (`ChainIndexRuns.GrownWindowFails`, `GrownWindowExample`), and exactly when a block more than a window above
  the tip is accepted, as a state-sync target is (`JumpFails`, `JumpFailsExample`).
- `hypersdk/snow/statesync.go:133` registers its health check under a fixed name, so in one process
  FinishStateSync succeeds at most once; it also fails when a processing block's parent is nowhere to be found
  (`SnowSync.FinishSyncSucceeds`, `SnowRuns.FinishesOncePerProcess`).
- `hypersdk/snow/config.go:27` makes the size of the accepted cache a setting. Below eighteen, the accepter
  can fall back to a block read from disk and hand AcceptBlock an empty parent (`SnowRuns.EighteenSuffice`);
  `SnowSmallCache.SmallCacheLosesParent` gives the run, for every such size.
- `hypersdk/chain/transaction.go:423-450` estimates the bandwidth with a fixed allowance for framing, so with
  many or large actions it can fall short; `FeeEstimate.BandwidthCoveredWhen` says exactly when, and
  `LargeTxFallsShort` gives a transaction.
- `hypersdk/chain/builder.go:242-247` drops a transaction whose keys cannot be fetched: it is neither included
  nor handed back (`BlockBuilder.Assembly.RunTask`, `BuildJournal.DropsAreEarned`).
- `hypersdk/chain/builder.go:357-360` hands back only what was not packed, before it is known that there will
  be a block. When one of the chain's own entries cannot be written then (`builder.go:399-407`), or the root,
  the view or the bytes of the block cannot be computed (`builder.go:412-434`), the packed transactions are in
  no block and are not handed back either. `BuildLosses.LossIsExactly` gives the exact condition, `LoseEraser`
  a transaction that is lost, and `HeaderSurvives` a check that rules the first case out: no streamed
  transaction declares one of the chain's own keys for more than reading.

## Assumptions

- A block is named by its hash and hashing is injective: the name fixes parent, height and embedded context.
  VerifyBlock and AcceptBlock are partial functions whose results keep the name of their block; a block that
  verifies is one above its parent.
- The engine's contract is `SnowSteps.MayVerify`, `MayAccept`, `MayReject` and the other `May` predicates:
  Verify is called on an undecided block that is not processing yet and whose parent is processing or last
  accepted, Accept on a processing child of the last accepted block. A block is built while ready, on a
  verified preference, and its output is the one verifying it would give. State sync starts with nothing in
  flight on a block of the accepted chain and ends with the two forms of one accepted block. A failed
  FinishStateSync and a panic of the accepter end the process. Reject does not happen in the middle of an
  Accept or of FinishStateSync. Subscribers do not fail.
- Which entries a least-recently-used cache evicts is up to the environment.
- The primitive readers and writers come from a library that is not part of this repository: varints as in the
  section "Base 128 Varints" of the Protocol Buffers encoding specification, accepted only in their shortest
  form, and tags as in its section "Message Structure"; the base's timestamp is a zigzag varint and the
  block's a little-endian word. A length that overflows fails like a short buffer.
- Action, auth and context parsers print back what they parse and parse back what they print.
- Enqueueing a task is one step of the executor, as its locks make it; the counter of a task's dependencies is
  modelled as the set of what it waits for, and the maximum it is preset to is never reached. A key declared
  for reading only is shared. The mempool streams no transaction twice in one batch. A view commits as a whole
  or vanishes. Actions and the balance handler see only declared keys and change only keys declared for more
  than reading.
- The accepted chain has one block per height with its own ID; for the indexer, no transaction occurs twice
  and no two blocks share an ID.
- Clocks, the mempool's stream, repeats found by the replay window, unreadable keys, finishing orders and
  schedules are parameters of the methods, over which every statement quantifies.

## Model

| member | source | states |
|---|---|---|
| SnowChain.OutputOf | hypersdk/snow/block.go:153-162 | the output of a block, VerifyBlock folded along its ancestors from genesis, is an output of that very block |
| SnowChain.AcceptedOf | hypersdk/snow/block.go:166-175 | the accepted form, AcceptBlock folded the same way, is of that very block |
| SnowChain.ReprocessOneIsFold | hypersdk/snow/chain_index.go:107-127 | one turn of re-processing takes a block carrying both folds to the block indexed one height above, again carrying both folds |
| SnowChain.ReprocessIsFold | hypersdk/snow/chain_index.go:101-130 | re-processing notifies every height above the start once, in order, each with its own accepted fold, and ends on the target carrying both folds |
| SnowChain.ReprocessAnswers | hypersdk/snow/chain_index.go:107-127 | it succeeds exactly when every height above the start up to the goal is indexed and its block is valid and accepted by the chain |
| SnowChain.ReprocessedAnswers | hypersdk/snow/chain_index.go:101-130 | with its guard, exactly when besides the target does not lie below the start |
| SnowChain.Reprocess | hypersdk/snow/chain_index.go:101-130 | the loop, its guard on height and ID included, is the specified re-processing, and ends because the output height closes in on the target |
| SnowChain.PushAges | hypersdk/snow/vm.go:374-381 | a key pushed into a bounded queue is the newest, every other ages by one, and only the oldest of a full queue goes |
| SnowChain.PutKeepsValid | hypersdk/snow/vm.go:374-381 | storing into a bounded first-in first-out cache keeps it valid, holds the entry, and invents no other |
| SnowVM.StatefulBlock.NewInputBlock | hypersdk/snow/block.go:90-104 | a block holding only its input is neither verified nor accepted |
| SnowVM.StatefulBlock.NewVerifiedBlock | hypersdk/snow/block.go:107-124 | a built block is verified and not accepted |
| SnowVM.StatefulBlock.NewAcceptedBlock | hypersdk/snow/block.go:128-142 | a re-processed block is verified and accepted |
| SnowVM.VM.constructor | hypersdk/snow/chain_index.go:73-87 | a new VM on the indexed tip is in the state the machine starts in: both caches hold the tip, it is preferred, and it is last processed when it was executed |
| SnowVM.VM.MakeConsensusIndex | hypersdk/snow/chain_index.go:56-90 | takes the tip from the index and re-processes up to it when a start state is given; it yields the specified start state exactly when the cache has room and the re-processing succeeds |
| SnowVM.VM.GetBlock | hypersdk/snow/vm.go:396-421 | looks among the processing blocks, then in the cache by ID, then on disk, where a fresh block with only its input comes from |
| SnowVM.VM.GetBlockByHeight | hypersdk/snow/vm.go:425-448 | looks at the last accepted block, the cache by height and the disk, then by ID |
| SnowVM.VM.ParseBlock | hypersdk/snow/vm.go:451-474 | returns the very object that is processing, else the cached accepted one, else a new block for one on disk, else the parsed one, and only then caches a new block |
| SnowVM.VM.BuildBlock | hypersdk/snow/vm.go:490-514 | fails without a preferred block or a built one, changing nothing; otherwise caches a new verified block and leaves the processing blocks alone |
| SnowVM.VM.SetPreference | hypersdk/snow/vm.go:536-542 | only the preferred ID changes |
| SnowVM.VM.Execute | hypersdk/snow/block.go:220-248 | the output is VerifyBlock on the parent found by ID; none when the parent is missing or unverified |
| SnowVM.VM.VerifyWithContext | hypersdk/snow/block.go:193-283 | vacuous before the VM is ready, a context check only for a built block, and otherwise execution on the parent; a failure changes nothing (what the answer means is VerifyAnswers) |
| SnowVM.VM.UpdateIndex | hypersdk/snow/block.go:325-334 | refuses an unverified block once ready; otherwise the index is written before anything else happens |
| SnowVM.VM.QueueAccept | hypersdk/snow/block.go:336-344 | the block goes to the back of the queue when the VM is ready, and nowhere otherwise |
| SnowVM.VM.RemoveVerified | hypersdk/snow/block.go:346-348 | the block leaves the processing blocks |
| SnowVM.VM.SetLastAccepted | hypersdk/snow/vm.go:374-381 | the last accepted block and both caches move together |
| SnowVM.VM.Accept | hypersdk/snow/block.go:311-355 | an Accept that is not interleaved is its four steps in order, and a refused one changes nothing |
| SnowVM.VM.TakeAccepted | hypersdk/snow/vm.go:366-370 | the accepter takes the front of the queue |
| SnowVM.VM.ProcessAccept | hypersdk/snow/block.go:376-389 | AcceptBlock is called on the accepted form of the parent that GetBlock finds; false exactly when the accepter panics |
| SnowVM.VM.SetLastProcessed | hypersdk/snow/vm.go:383-388 | the block in hand becomes the last processed one |
| SnowVM.VM.Reject | hypersdk/snow/block.go:404-418 | the block leaves processing, and an unverified one is resolved for the health check |
| SnowVM.VM.HealthCheck | hypersdk/snow/health.go:33-50 | healthy exactly when ready with no unresolved block |
| SnowVM.VM.StartStateSync | hypersdk/snow/statesync.go:30-37 | writes the index, leaves ready, and makes a new input block of the target the last accepted one; an index error changes nothing |
| SnowVM.VM.SortedByHeight | hypersdk/snow/statesync.go:82-99 | the processing blocks, each once, by height |
| SnowVM.VM.VerifyProcessingBlocks | hypersdk/snow/statesync.go:101-124 | executes the blocks one after the other on what has become verified, collecting the ones that are not; fails only on a missing parent |
| SnowVM.VM.FillLastAccepted | hypersdk/snow/statesync.go:50-70 | fills in the last accepted block in place when state sync ended on it, and otherwise replaces it by the re-processed one |
| SnowVM.VM.BecomeReady | hypersdk/snow/statesync.go:71-78 | verifies the processing blocks, registers the unresolved ones, and becomes ready, or fails |
| SnowVM.VM.FinishStateSync | hypersdk/snow/statesync.go:41-79 | fails when ready; otherwise goes through the specified steps on the processing blocks in height order |
| SnowSteps.BuildKeeps | hypersdk/snow/vm.go:490-514 | a block built on the preferred block keeps the invariant of all states |
| SnowSteps.VerifyKeeps | hypersdk/snow/block.go:193-283 | so does verifying an undecided block that is not processing yet, on a processing or the last accepted parent, whichever branch is taken; verifying a processing block again is outside the engine's contract |
| SnowSteps.VerifyAnswers | hypersdk/snow/block.go:193-283 | what its answer means: it is accepted exactly when the VM is not ready yet, or the context passed is the one embedded and the block was built here, or its parent is verified and it is valid |
| SnowSteps.VerifyEffects | hypersdk/snow/block.go:193-283 | and what it leaves: accepted exactly when it is processing afterwards, then verified with its own output once ready, and nothing else changes; a refused block changes nothing |
| SnowSteps.AcceptIndexKeeps | hypersdk/snow/block.go:331-334 | so does the index write of Accept, with the accepter anywhere |
| SnowSteps.AcceptQueueKeeps | hypersdk/snow/block.go:336-344 | so does queueing the block |
| SnowSteps.AcceptRemoveKeeps | hypersdk/snow/block.go:346-348 | so does removing it from processing |
| SnowSteps.AcceptSetKeeps | hypersdk/snow/vm.go:374-381 | so does making it the last accepted block |
| SnowSteps.CachesAdvance | hypersdk/snow/vm.go:374-381 | storing a higher accepted block keeps the two caches in lockstep, over the same blocks, also while evicting |
| SnowSteps.ParentCached | hypersdk/snow/block.go:379-382 | the accepter finds the very parent object that was accepted while the cache reaches back that far |
| SnowSteps.ParentEvicted | hypersdk/snow/block.go:379-382 | it finds no object at all once the cache does not reach back that far |
| SnowSteps.ProcessedIsFold | hypersdk/snow/block.go:376-386 | AcceptBlock is handed the fold along the parent's ancestors and so returns the block's own |
| SnowSteps.AccepterAnswers | hypersdk/snow/block.go:376-389 | with a cache of at least eighteen the accepter panics exactly when the chain refuses the block, never for a missing parent or one without its accepted form |
| SnowSteps.AccepterPanics | hypersdk/snow/block.go:376-389 | whatever the cache, it panics when the parent is nowhere to be found, and a parent read from disk has no accepted form |
| SnowSteps.ProcessKeeps | hypersdk/snow/block.go:376-386 | the accepter's call of AcceptBlock keeps the invariant |
| SnowSteps.RejectKeeps | hypersdk/snow/block.go:404-418 | so does rejecting a block |
| SnowSync.StartSyncKeeps | hypersdk/snow/statesync.go:30-37 | so does starting state sync, with nothing queued, processing or in the middle of Accept, and no verified block above the last accepted one |
| SnowSync.VerifyAllIsPath | hypersdk/snow/statesync.go:101-124 | executing the processing blocks in height order verifies exactly the ones whose whole path from the last accepted block verifies, and collects all others |
| SnowSync.FinishSyncDecides | hypersdk/snow/statesync.go:41-138 | FinishStateSync verifies exactly the processing blocks whose whole path from the last accepted block verifies and marks exactly the others unresolved |
| SnowSync.FinishSyncSucceeds | hypersdk/snow/statesync.go:41-138 | it succeeds exactly when not ready, re-processing succeeds, no processing block is an orphan, and no health check of unresolved blocks is registered yet |
| SnowSync.FinalFormsAnswer | hypersdk/snow/statesync.go:50-72 | where the re-processing succeeds exactly when the block given is the last accepted one, or everything above it can be replayed |
| SnowSync.FinishSyncKeeps | hypersdk/snow/statesync.go:41-79 | it keeps the invariant of all states |
| SnowSync.BootKeeps | hypersdk/snow/chain_index.go:56-90 | a process starting on its index satisfies the invariant |
| SnowSync.BootAnswers | hypersdk/snow/chain_index.go:56-90 | a start succeeds exactly when the cache has room and everything above the block given can be replayed; it is ready exactly when a block was given |
| SnowRuns.StepKeeps | hypersdk/snow/vm.go:346-388 | every step of the engine, the accepter, state sync or a restart keeps the invariant |
| SnowRuns.RunKeeps | hypersdk/snow/vm.go:346-388 | every state of every run satisfies the invariant |
| SnowRuns.BootRunKeeps | hypersdk/snow/chain_index.go:56-90 | in particular every run from a start on an index |
| SnowRuns.RunCarriesFolds | hypersdk/snow/block.go:193-283 | in every run a verified block, however it came to be verified, carries exactly the fold of VerifyBlock along its ancestors, and an accepted one the fold of AcceptBlock |
| SnowRuns.ConsensusIndexServesFolds | hypersdk/snow/chain_index.go:183-212 | the preferred output and the last accepted form handed to the application are those folds, and the latter is there whenever the VM is ready |
| SnowRuns.AcceptBlockInOrder | hypersdk/snow/vm.go:346-372 | the k-th call of AcceptBlock is for the block k + 1 heights above where the VM became ready, with its parent's populated accepted form, and trails the accepted chain by at most the queue, the block in hand and the block being queued |
| SnowRuns.SessionGrows | hypersdk/snow/block.go:370-389 | while the VM stays ready, the accepted chain and the calls only grow: no call is repeated or taken back |
| SnowRuns.DrainedIsProcessed | hypersdk/snow/block.go:362-389 | once Accept has returned and the queue is drained, the last accepted block is the last processed one |
| SnowRuns.ProcessedLeadsByOne | hypersdk/snow/vm.go:374-388 | the last processed block is never more than one block ahead of the last accepted one |
| SnowRuns.EighteenSuffice | hypersdk/snow/vm.go:56 | a cache of eighteen (queue, parent, block in hand) never loses the accepter's parent; a smaller one has lost it whenever the queue is full and Accept is idle, and AcceptBlock then gets an empty parent |
| SnowSmallCache.SmallCacheLosesParent | hypersdk/snow/vm.go:56 | for every cache below eighteen, on any chain with seventeen more verifying blocks, a run from a start loses it: the blocks are parsed, verified and accepted while the accepter holds the first, whose parent is then not found in memory |
| SnowRuns.FinishedInProcess | hypersdk/snow/statesync.go:121-146 | without a restart, the health check of unresolved blocks is registered at the end of a run exactly when it was at the start or a FinishStateSync succeeded in between |
| SnowRuns.FinishesOncePerProcess | hypersdk/snow/statesync.go:121-146 | so between any two FinishStateSync that succeed, the process restarts |
| SnowRuns.HealthyWhenVerified | hypersdk/snow/health.go:119-130 | healthy exactly when ready with every processing block verified |
| SnowRuns.OnlyRejectResolves | hypersdk/snow/block.go:404-418 | while ready, the unverified processing blocks change only by rejecting one of them |
| SnowRuns.StaysRetrievable | hypersdk/snow/block.go:331-353 | between any two steps, a block that entered processing and was not rejected is found by ID, unless it was accepted and has left both the index and the cache |
| SnowRuns.AcceptNeverHides | hypersdk/snow/block.go:331-353 | the block being accepted, and then the last accepted one, is found at every point of Accept |
| SnowRuns.HeightLookupRefines | hypersdk/snow/vm.go:425-448 | GetBlockByHeight is the plain map of accepted blocks restricted to the heights on disk or cached: no other block, no failed second lookup |
| SnowRuns.RestartRedelivers | hypersdk/snow/chain_index.go:53-90 | a restart from an output no higher than the last notified block notifies every later height up to the indexed tip, in order, each with its own accepted form |
| SnowRuns.RestartIsConsistent | hypersdk/snow/chain_index.go:101-130 | after a restart the input, output and accepted form of the tip share one ID, and the tip is last accepted and last processed |
| Bytes.VarintReadsBack | hypersdk/chain/base.canoto.go:86-156 | a written varint is read back, with what follows it left over |
| Bytes.VarintIsMinimal | hypersdk/chain/base.canoto.go:86-156 | a varint is accepted only in its shortest form |
| WireBytes.VarintBytes | hypersdk/chain/base.canoto.go:24-26 | a varint spells out: seven bits a byte with the low ones first, the high bit on all bytes but the last, no superfluous digit |
| WireBytes.VarintExamples | hypersdk/chain/base.canoto.go:24-26 | for instance 300 is 0xac 0x02 |
| WireBytes.ZigZagBytes | hypersdk/chain/base.canoto.go:235-237 | signed numbers go 0, -1, 1, -2, up to the extremes |
| WireBytes.WordBytes | hypersdk/chain/base.canoto.go:242-245 | a word is eight bytes with the low one first |
| WireBytes.SignedWordBytes | hypersdk/chain/stateless_block.canoto.go:388-396 | a signed word is in two's complement |
| WireBytes.FieldBytes | hypersdk/chain/base.canoto.go:24-26 | the tag of a field is eight times its number, plus one for a word and plus two for counted bytes |
| Bytes.WordReadsBack | hypersdk/chain/result.canoto.go:103-223 | a little-endian word is read back |
| Bytes.PrefixedReadsBack | hypersdk/chain/transaction_codec.canoto.go:89-182 | length-prefixed bytes are read back |
| Bytes.PrefixedIsUnique | hypersdk/chain/transaction_codec.canoto.go:89-182 | and only from their one encoding |
| Canoto.FieldsReadBack | hypersdk/chain/transaction_codec.canoto.go:89-182 | fields in increasing order are read back from their bytes, for any small schema |
| Canoto.FieldsAreUnique | hypersdk/chain/transaction_codec.canoto.go:89-182 | a buffer is read as fields only if it is their one encoding, in increasing order and of the schema's wire types |
| Canoto.StoringRebuilds | hypersdk/chain/transaction_codec.canoto.go:89-182 | storing the printed fields of a message one after the other rebuilds it |
| Canoto.StoredFieldsArePrinted | hypersdk/chain/transaction_codec.canoto.go:89-182 | and the fields that were stored are exactly the ones the result prints |
| Canoto.DecodeInvertsEncode | hypersdk/chain/transaction_codec.canoto.go:76-272 | for every lawful message type, a byte string is read as a value exactly when it is what that value is written as |
| Canoto.Reader.ReadRepeated | hypersdk/chain/stateless_block.canoto.go:204-255 | the run of entries of a repeated field, found by skipping one, counting the rest and reading them all again |
| Canoto.CountBytes | hypersdk/chain/stateless_block.canoto.go:204-255 | how many entries with the tag directly follow; fails exactly when one is malformed |
| TxMessages.BaseLawful | hypersdk/chain/base.canoto.go:86-247 | the base prints and stores its fields as partners: zero fields are left out and refused |
| TxMessages.UnmarshalBase | hypersdk/chain/base.canoto.go:86-156 | the reading loop is the specified decoding, and yields a base exactly on the bytes of its layout |
| TxMessages.BaseSize | hypersdk/chain/base.canoto.go:176-191 | the computed size is the number of bytes written |
| TxMessages.MarshalBaseInto | hypersdk/chain/base.canoto.go:230-247 | writes the encoding, which is the layout |
| TxMessages.TxLawful | hypersdk/chain/transaction_codec.canoto.go:89-272 | the transaction message, with its nested base, prints and stores as partners |
| TxMessages.UnmarshalSerializeTx | hypersdk/chain/transaction_codec.canoto.go:89-182 | the reading loop of the transaction message is the specified decoding |
| TxMessages.SerializeTxSize | hypersdk/chain/transaction_codec.canoto.go:203-219 | the computed size is the number of bytes written, nested length prefix included |
| TxMessages.MarshalSerializeTxInto | hypersdk/chain/transaction_codec.canoto.go:254-272 | the transaction message is appended as its encoding |
| TxMessages.TxDecodesItsEncoding | hypersdk/chain/transaction_codec.canoto.go:76-272 | a byte string is read as a transaction message exactly when it is its encoding, nested base and empty action entries included |
| TxMessages.BaseDecodesItsEncoding | hypersdk/chain/base.canoto.go:73-247 | the same for the base alone |
| TxMessages.BaseLayout | hypersdk/chain/base.canoto.go:24-26 | a base is 0x08 and its zigzag timestamp, 0x12 0x20 and its chain ID, 0x19 and its fee in eight bytes, each absent when zero |
| TxMessages.SerializeTxLayout | hypersdk/chain/transaction_codec.canoto.go:24-26 | a transaction is 0x0a and its counted base, 0x12 and each counted action, 0x1a and its counted auth |
| TxMessages.KnownBaseBytes | hypersdk/chain/transaction_test.go:28-63 | the base of the repository's hard-coded transaction has exactly the bytes written there |
| TxMessages.KnownTxBytes | hypersdk/chain/transaction_test.go:28-63 | and so has the transaction, around its action of 54 bytes and its auth of 92 |
| Transaction.AuthIsSuffix | hypersdk/chain/transaction.go:530-545 | the auth field is a suffix of the encoding, and what precedes it is the encoding without auth |
| Transaction.NewTxData | hypersdk/chain/transaction.go:47-72 | the unsigned bytes are the encoding without auth |
| Transaction.NewTransaction | hypersdk/chain/transaction.go:137-157 | bytes, size, ID and unsigned bytes are those of the encoding of the parts |
| Transaction.CutAuth | hypersdk/chain/transaction.go:530-545 | cutting the auth suffix leaves the encoding without auth; the bounds check never fires |
| Transaction.UnmarshalTx | hypersdk/chain/transaction.go:499-561 | accepts exactly the encodings whose actions and auth parse, with the unsigned bytes of the same content |
| Transaction.AcceptedTxIsBuilt | hypersdk/chain/transaction.go:499-561 | every accepted transaction is the one its own parts build: its unsigned bytes are what the signer signed |
| Transaction.BuiltTxIsAccepted | hypersdk/chain/transaction.go:137-157 | every built transaction is parsed back whole, ID, size and unsigned bytes included |
| Transaction.BuiltTxLayout | hypersdk/chain/transaction.go:137-157 | the bytes of a built transaction are the signed ones followed by 0x1a and the counted auth; size and ID are theirs |
| Transaction.ParsedTxAnswers | hypersdk/chain/transaction.go:499-561 | bytes are accepted exactly when they are laid out as a base, entries that all parse as actions, and an auth that parses |
| Transaction.AcceptedBytesAreUnique | hypersdk/chain/transaction.go:499-561 | two accepted byte strings with the same base, actions and auth are equal |
| ResultMessages.ReadUnits | hypersdk/chain/result.canoto.go:176-204 | a packed array is exactly its five words: no short word, nothing left over |
| ResultMessages.ResultLawful | hypersdk/chain/result.canoto.go:103-327 | the result message prints and stores as partners |
| ResultMessages.UnmarshalResult | hypersdk/chain/result.canoto.go:103-223 | the reading loop of the result is the specified decoding, and yields a result exactly on the bytes of its layout |
| ResultMessages.ResultSize | hypersdk/chain/result.canoto.go:241-263 | the computed size is the number of bytes written |
| ResultMessages.MarshalResultInto | hypersdk/chain/result.canoto.go:298-327 | the result is appended as its encoding |
| ResultMessages.ResultDecodesItsEncoding | hypersdk/chain/result.canoto.go:90-327 | a byte string is read as a result exactly when it is its encoding |
| ResultMessages.UnmarshalExecutionResults | hypersdk/chain/result.canoto.go:398-531 | the reading loop of the block results is the specified decoding, empty entries read as nil |
| ResultMessages.ExecutionResultsSize | hypersdk/chain/result.canoto.go:554-573 | the computed size is the number of bytes written |
| ResultMessages.MarshalExecutionResultsInto | hypersdk/chain/result.canoto.go:608-637 | the block results are appended as their encoding |
| ResultMessages.ExecutionDecodesItsEncoding | hypersdk/chain/result.canoto.go:385-637 | a byte string is read as block results exactly when it is their encoding and none of them is all zero |
| ResultMessages.ResultLayout | hypersdk/chain/result.canoto.go:24-28 | a result is 0x08 0x01 on success, 0x12 and its counted error, 0x1a and each counted output, 0x22 0x28 and five words, 0x29 and its fee |
| ResultMessages.ExecutionLayout | hypersdk/chain/result.canoto.go:330-332 | the results of a block are 0x0a and each counted result, 0x12 0x28 and the prices, 0x1a 0x28 and the units consumed |
| ResultMessages.ExecutionRoundTrip | hypersdk/chain/result.canoto.go:385-637 | any block results survive the wire, up to an all-zero result coming back as nil |
| BlockMessages.UnmarshalRawBlock | hypersdk/chain/stateless_block.canoto.go:116-288 | the reading loop of the block is the specified decoding |
| BlockMessages.BlockSize | hypersdk/chain/stateless_block.canoto.go:314-346 | the computed size is the number of bytes written, nested length prefixes included |
| BlockMessages.MarshalBlockInto | hypersdk/chain/stateless_block.canoto.go:381-420 | the block is appended as its encoding, which is its layout |
| BlockMessages.BlockDecodesItsEncoding | hypersdk/chain/stateless_block.canoto.go:103-420 | a byte string is read as a block exactly when it is its encoding and its context and transactions are nil or read back from their own bytes |
| BlockMessages.BlockLayout | hypersdk/chain/stateless_block.canoto.go:24-29 | a block is 0x0a 0x20 and its parent, 0x11 and its time, 0x19 and its height, 0x22 and its counted context, 0x2a and each counted transaction, 0x32 0x20 and its state root |
| BlockMessages.BlockReads | hypersdk/chain/stateless_block.canoto.go:24-29 | and is read from exactly those bytes |
| BlockMessages.BlockRoundTrip | hypersdk/chain/stateless_block.canoto.go:103-420 | any block whose transactions parse back survives the wire, up to an all-zero context or an empty transaction coming back as nil |
| BlockMessages.UnmarshalBlock | hypersdk/chain/stateless_block.go:95-147 | accepts exactly the decodings without a nil transaction, and keeps the bytes and their ID |
| BlockMessages.NewStatelessBlock | hypersdk/chain/stateless_block.go:64-93 | the cached bytes and ID are those of the encoding |
| BlockMessages.ParsedBlockIsCanonical | hypersdk/chain/stateless_block.go:102-147 | a parsed block's bytes are its only encoding, it holds no nil transaction, and each of its transactions is the parse of its own bytes |
| BlockMessages.ParsedBlockAnswers | hypersdk/chain/stateless_block.go:95-147 | bytes are accepted as a block exactly when they are those of a readable block without a nil transaction; the ID is that of the bytes |
| Fees.Add | hypersdk/fees/dimension.go:39-49 | the sum in every dimension; fails exactly when one overflows |
| Fees.MulSum | hypersdk/fees/dimension.go:51-65 | the inner product; fails exactly when that overflows, never because of a partial result |
| Fees.FeeIsCost | hypersdk/fees/dimension.go:51-65 | the fee is the sum of the five products, and fails exactly when that overflows |
| Fees.CanAdd | hypersdk/fees/dimension.go:76-87 | holds exactly when the sum stays within the limit in every dimension |
| Fees.Consume | hypersdk/internal/fees/manager.go:129-153 | takes all of the units or none, at unchanged prices |
| TxExecution.ExecuteTx | hypersdk/chain/transaction.go:289-347 | charges the fee, then runs the actions in order, and rolls back to the charge at the first that fails |
| TxExecution.ExecuteAnswers | hypersdk/chain/transaction.go:289-347 | what its answer means: an error exactly when the units are unknown or the fee overflows or cannot be deducted; success exactly when every action is done on the store the one before it left; the outputs of those before the first failure, its error, and the charged store after a failure |
| TxExecution.ExecuteCharges | hypersdk/chain/transaction.go:289-347 | the fee of the charged units is deducted whether or not the actions succeed, failed actions leave nothing else behind, and only keys declared for more than reading change |
| TxExecution.AttemptAnswers | hypersdk/chain/transaction.go:244-287 | a transaction is rejected exactly when its keys are malformed, it is not valid now, or its fee is unknown or cannot be paid from what it declares |
| TxExecution.AttemptLeaves | hypersdk/chain/processor.go:278-309 | one that runs leaves what executing it leaves in the keys it declares, and everything else alone |
| TxExecution.AttemptsCommute | hypersdk/internal/executor/executor.go:139-221 | two transactions without a conflicting key give the same results and the same store in either order |
| Schedules.ScheduleIsSequential | hypersdk/internal/executor/executor.go:139-221 | every schedule that keeps conflicting transactions in block order gives the results and the store of block order, and fails exactly when block order does |
| Interleavings.OverlappingIsAtomic | hypersdk/chain/processor.go:278-309 | tasks that take their view when they begin and commit when they end, overlapping as they like as long as a task ends apart from those under way that conflict with it, give the results and the store of running them one by one in the order in which they end |
| Interleavings.InterleavingIsSequential | hypersdk/chain/processor.go:278-309 | so when conflicting tasks end in block order as well, overlapping tasks give the results and the store of block order |
| Executor.Executor.Run | hypersdk/internal/executor/executor.go:139-221 | recording what a new task waits for, key by key in any order, is one step of the executor and keeps its invariant |
| Executor.Executor.RecordOne | hypersdk/internal/executor/executor.go:168-205 | one key: a reader joins the readers of the task the key goes by, anything else takes the key over and waits for its readers; both wait for that task unless it has finished |
| Executor.Executor.StartTask | hypersdk/internal/executor/executor.go:60-69 | so is starting a task that waits for nothing |
| Executor.Executor.FinishTask | hypersdk/internal/executor/executor.go:90-123 | and so is finishing one, which stops being a reader and is waited for no more |
| Executor.NewWaits | hypersdk/internal/executor/executor.go:161-205 | a new task that conflicts with an unfinished one waits for it, or for a later one that conflicts with it, though only the last task of a key and its readers are looked at |
| Executor.StepKeeps | hypersdk/internal/executor/executor.go:90-221 | every step keeps the invariant |
| Executor.StartedInOrder | hypersdk/internal/executor/executor.go:129-221 | a task starts only when all earlier tasks that conflict with it have finished |
| Executor.NeverStuck | hypersdk/internal/executor/executor.go:90-221 | while a task is unfinished, it or an earlier one can start or finish: the executor never deadlocks |
| Executor.WaitsAreRelated | hypersdk/internal/executor/executor.go:161-205 | and waits for nothing it is not related to: a task waits only for tasks it shares a key with, directly or through a third task |
| Executor.TraceIsIsolated | hypersdk/internal/executor/executor.go:129-221 | in every run, no two tasks under way conflict when one of them ends |
| Executor.TraceIsSchedule | hypersdk/internal/executor/executor.go:129-221 | once all have finished, the order in which they ended is a schedule of the block |
| Executor.ExecutorIsSequential | hypersdk/internal/executor/executor.go:129-221 | end to end: whatever the order of the workers and however the tasks overlap, a finished run has the results and the store of block order |
| Building.ConsumedWithinLimit | hypersdk/chain/processor.go:260-271 | the units a block consumes never exceed the maximum in any dimension |
| Building.ConsumeAllAnswers | hypersdk/chain/processor.go:249-271 | units are consumed exactly when all are known and together fit in every dimension, and the sum is what is consumed |
| Building.ConsumeUnits | hypersdk/chain/processor.go:249-271 | keys and units are taken in block order; fails exactly when some key set is malformed or the units do not fit |
| Building.RunTasks | hypersdk/chain/processor.go:278-309 | the tasks in the order in which they run give that run's results and store |
| Building.ExecuteBlockTxs | hypersdk/chain/processor.go:228-322 | for every schedule, the outcome is that of running the block from front to back |
| Building.ProcessBlock | hypersdk/chain/processor.go:116-219 | a block too far in the future, with a repeat in the replay window in normal operation, or with an invalid signature is refused; of any other, for every schedule, the output is the one specified for the block, and it fails exactly when that does |
| Building.OutputAnswers | hypersdk/chain/processor.go:116-219 | what its answer means: an output exactly when height and time follow the parent's entries, the state root is the parent's, and the transactions are keyed, fit together and each run on the store before; the output is their results, the units, and their last store with the three entries written |
| Building.RunAllAnswers | hypersdk/chain/processor.go:278-309 | running a block succeeds exactly when every transaction runs on the store that the ones before it leave |
| Building.OutputIsUnique | hypersdk/chain/processor.go:210-218 | a block has one output on a store and a root |
| Building.ResultsAreDetermined | hypersdk/chain/processor.go:210-218 | results that agree by position are the same list |
| BlockBuilder.Assembly.RunTask | hypersdk/chain/builder.go:203-328 | one task: its journal entry is the fate of running it on what the block has reached: dropped when its keys cannot be fetched or PreExecute fails, handed back when it fails or does not fit, otherwise included; the block so far stays what processing would make of it |
| BlockBuilder.Assembly.Submit | hypersdk/chain/builder.go:161-329 | a transaction is submitted exactly when its batch could be checked, it lies within the size target, is no repeat and has well-formed keys; each of the others is filed once, with the reason that applies |
| BlockBuilder.Assembly.RunSubmitted | hypersdk/chain/builder.go:330-351 | whatever the order in which tasks finish, a submitted transaction is still pending or filed once with its reason, and some are pending only after a fault, the first of which is the error |
| BlockBuilder.Assembly.StreamBatch | hypersdk/chain/builder.go:147-351 | after a batch every place of it is filed once with its reason; streaming goes on exactly when the batch could be checked for repeats and nothing in it was a fault |
| BlockBuilder.Assembly.StreamAll | hypersdk/chain/builder.go:139-352 | and so is every place streamed; streaming stops only at the end, at an empty batch, after a batch that could not be checked, or after the batch with the first fault |
| BlockBuilder.BuildBlock | hypersdk/chain/builder.go:76-474 | what was streamed has a journal that files every place once with a fate that is right; the block, what is handed back and what is dropped are those of the journal; the build aborts exactly when its first fault is unexpected, and ends without a block exactly when it is too early or the block cannot be sealed; a block is what the processor computes for it on the same parent, and its units stay within the maximum |
| BlockBuilder.BuildAndProcess | hypersdk/chain/builder.go:76-474 | builder and processor together: for every schedule, a built block that passes the remaining checks is processed on the same parent to the builder's very output |
| BuildJournal.DropsAreEarned | hypersdk/chain/builder.go:181-247 | every drop of such a journal has its reason: a repeat, malformed keys, keys that cannot be fetched, or a PreExecute that fails on the store after the transactions included before it |
| BuildJournal.ReturnsAreEarned | hypersdk/chain/builder.go:147-329 | everything handed back has its reason: its batch could not be checked, it lies beyond the size target, it failed or does not fit on what was reached, or an earlier fault stopped the executor |
| BuildJournal.RunFates | hypersdk/chain/builder.go:203-328 | a transaction that ran is included exactly when it fits; the block is full exactly when, in the first dimension that does not fit, it has consumed its target; otherwise the transaction is too big |
| BuildJournal.OtherFates | hypersdk/chain/builder.go:147-202 | the fates of all others, each exactly when its reason applies |
| BuildJournal.KindsAre | hypersdk/chain/builder.go:181-329 | which fates are in the block, handed back, and dropped |
| BuildJournal.FirstFaultMeans | hypersdk/chain/builder.go:330-351 | the first fault is the first entry that is full, failed or could not be fetched: only those stop a build |
| BuildJournal.StopsOnlyFor | hypersdk/chain/builder.go:139-352 | streaming stops early only after a batch that could not be checked or that holds such an entry; a transaction that is too big never stops it |
| BuildJournal.StreamIsAccounted | hypersdk/chain/builder.go:139-352 | the transactions streamed are those included, handed back and dropped, as multisets: none twice and none missing |
| BuildLosses.LossIsExactly | hypersdk/chain/builder.go:357-434 | a build without a block loses what it packed exactly when it packed something, met no unexpected error, and then found one of the chain's own entries gone or could not compute the root, the view or the bytes |
| BuildLosses.NoBlockExactlyWhen | hypersdk/chain/builder.go:76-434 | a build has no block exactly when it is too early, or without an unexpected error it packed nothing too early for an empty block, one of the chain's own entries is gone, or the block cannot be sealed |
| BuildLosses.HeaderSurvives | hypersdk/chain/builder.go:380-407 | a check that can be made beforehand: when no streamed transaction declares one of the chain's own keys for more than reading, none of those entries is gone in the end |
| BuildLosses.NothingIsLost | hypersdk/chain/builder.go:357-434 | so with that check nothing is lost by a build that can compute the root, the view and the bytes |
| BuildLosses.EraserRuns | hypersdk/chain/builder.go:203-328 | a transaction that declares the height key and deletes its entry runs, free of charge, on every store |
| BuildLosses.LoseEraser | hypersdk/chain/builder.go:357-407 | streamed to a build that has time for it, it is packed, there is no block, and it is not handed back |
| BlockBuilder.Finish | hypersdk/chain/builder.go:371-474 | there is no block exactly when it would be empty too early, one of the chain's own entries is gone, or the root, the view or the bytes cannot be computed; otherwise the chain's own entries and the block match what the processor requires and writes |
| ChainIndex.HeightKeysSort | hypersdk/chainindex/chain_index.go:295-320 | height keys sort numerically in byte order |
| ChainIndex.BigEndianReadsBack | hypersdk/chainindex/chain_index.go:295-320 | a height is read back from its key |
| ChainIndex.KeyBytes | hypersdk/chainindex/chain_index.go:21-26 | the keys are 0x00, 0x01, 0x02 and 0x03 with the height, high byte first, or the ID |
| ChainIndex.ExpiryWraps | hypersdk/chainindex/chain_index.go:118-121 | the unsigned subtraction with its three guards expires exactly the height one window below, never genesis and nothing below the window |
| ChainIndex.Index.GetBlock | hypersdk/chainindex/chain_index.go:164-170 | finds a block exactly when its height is held, and the one with that ID: the maps are mutually inverse |
| ChainIndex.Index.GetBlockIDAtHeight | hypersdk/chainindex/chain_index.go:172-178 | the ID of the chain's block at a held height, and nothing at others |
| ChainIndex.Index.GetBlockIDHeight | hypersdk/chainindex/chain_index.go:180-186 | the height of a held block by its ID |
| ChainIndex.Index.GetBlockByHeight | hypersdk/chainindex/chain_index.go:188-194 | the chain's block at a held height, and nothing at others |
| ChainIndex.Index.GetLastAcceptedHeight | hypersdk/chainindex/chain_index.go:101-107 | the last accepted height that was written |
| ChainIndex.Index.UpdateLastAccepted | hypersdk/chainindex/chain_index.go:109-150 | adds the height, drops the expiring one, and moves the last accepted height, in one batch; fails, changing nothing, exactly when the expiring height is not held |
| ChainIndex.Index.SaveHistorical | hypersdk/chainindex/chain_index.go:155-162 | adds the height and nothing else |
| ChainIndex.Index.SweepIsComplete | hypersdk/chainindex/chain_index.go:214-293 | stopping at the first height in the window misses nothing below it |
| ChainIndex.Index.CleanupOnStartup | hypersdk/chainindex/chain_index.go:214-293 | keeps genesis and the window, and deletes all below |
| ChainIndex.New | hypersdk/chainindex/chain_index.go:68-99 | refuses a compaction frequency of zero, and otherwise opens a swept index |
| ChainIndexRuns.OrderlyRunsNeverFail | hypersdk/chainindex/chain_index.go:109-293 | consecutive accepts, historical writes and restarts whose window never grows never fail, and always leave genesis and the window held |
| ChainIndexRuns.FromGenesisNeverFails | hypersdk/chainindex/chain_index.go:109-293 | in particular from an empty database |
| ChainIndexRuns.ConstantWindowIsExact | hypersdk/chainindex/chain_index.go:109-293 | with one window and no historical writes, nothing else is held |
| ChainIndexRuns.GrownWindowFails | hypersdk/chainindex/chain_index.go:118-126 | after a restart with a larger window the next accept fails exactly when the old window was bounded and the new one is smaller than the chain is high |
| ChainIndexRuns.GrownWindowExample | hypersdk/chainindex/chain_index.go:118-126 | a chain of height ten kept with a window of five cannot accept height eleven after a restart with a window of eight |
| ChainIndexRuns.JumpFails | hypersdk/chainindex/chain_index.go:118-126 | accepting ahead of the tip, as state sync does, fails exactly when the jump is longer than the window |
| ChainIndexRuns.JumpFailsExample | hypersdk/chainindex/chain_index.go:118-126 | a window of ten on genesis cannot record a sync target at height one hundred |
| Indexer.New | hypersdk/api/indexer/indexer.go:61-84 | refused exactly for a window of zero or above the maximum; otherwise an indexer rebuilt from its database |
| Indexer.Indexer.constructor | hypersdk/api/indexer/indexer.go:71-83 | a new indexer has empty caches and no last height |
| Indexer.Indexer.Evict | hypersdk/api/indexer/indexer.go:127-136 | exactly the block one window below leaves the three caches, transactions and all; nothing leaves below the window |
| Indexer.Indexer.InsertBlockIntoCache | hypersdk/api/indexer/indexer.go:126-148 | the three caches stay the projection of the cached blocks, moved up by one |
| Indexer.Indexer.StoreBlock | hypersdk/api/indexer/indexer.go:152-169 | the database gets the block and loses the one that leaves the window |
| Indexer.Indexer.Notify | hypersdk/api/indexer/indexer.go:115-121 | caches and database move together |
| Indexer.Indexer.InitBlocks | hypersdk/api/indexer/indexer.go:86-113 | rebuilding caches what no later stored block pushes out, and drops from the database what is more than a window old |
| Indexer.Indexer.GetLatestBlock | hypersdk/api/indexer/indexer.go:171-179 | the block at the last height, if any |
| Indexer.Indexer.GetBlock | hypersdk/api/indexer/indexer.go:196-205 | a cached block by its ID, and only then |
| Indexer.Indexer.GetTransaction | hypersdk/api/indexer/indexer.go:207-230 | finds a transaction exactly when a cached block holds it, with its own block's time and its own result; neither internal mismatch can happen |
| IndexerRuns.FirstDelivery | hypersdk/api/indexer/indexer.go:126-148 | the first block delivered is the whole window |
| IndexerRuns.ReplayChangesNothing | hypersdk/api/indexer/indexer.go:126-169 | delivering again all blocks from any height on ends in the same window |
| IndexerRuns.DeliveryMovesWindow | hypersdk/api/indexer/indexer.go:126-169 | the next block moves the window up by one |
| IndexerRuns.RebuildGivesWindow | hypersdk/api/indexer/indexer.go:86-113 | rebuilding from a stored window gives that window |
| IndexerRuns.RunsKeepWindow | hypersdk/api/indexer/indexer.go:86-169 | after any run of deliveries, redeliveries and restarts, caches and database are the last window of blocks |
| CrashHeights.InitLastAccepted | hypersdk/vm/vm.go:408-487 | what a start finds, from the three heights on disk |
| CrashHeights.StartupAnswers | hypersdk/vm/vm.go:408-487 | genesis, from a height, or execute again, each exactly when the rows say so |
| CrashHeights.StepKeeps | hypersdk/vm/vm.go:682-693 | writing the index, queueing, taking, writing results, committing state and stopping each keep the heights in line |
| CrashHeights.AlwaysBounded | hypersdk/vm/vm.go:682-693 | however a node is stopped and started, the state is at most one block behind the results, and the index at most a queue, a block in hand and a block being queued ahead of the state |
| CrashHeights.BoundIsReached | hypersdk/vm/vm.go:682-693 | the bound of eighteen is reached by some run |
| CrashHeights.StartsWhenEqual | hypersdk/vm/vm.go:445-487 | above genesis a start succeeds exactly when index and state heights are equal, and then the results row always matches |
| CrashHeights.Shutdown | hypersdk/snow/vm.go:586-609 | a clean shutdown drains the queue until the heights are equal, so the next start succeeds |
| LargestSet.Weights | hypersdk/fees/set.go:40-62 | the squared magnitudes relative to the limits, words read as signed |
| LargestSet.WeightIs | hypersdk/fees/set.go:44-62 | each dimension with a limit weighs 65536 times the square of the magnitude over the square of the limit, rounded down |
| LargestSet.SquaresDecide | hypersdk/fees/set.go:44-62 | so two sixes of a limit of ten are lighter than one nine |
| LargestSet.SortIndices | hypersdk/fees/set.go:64-66 | the indices in stable order of weight |
| LargestSet.StableOrderIsUnique | hypersdk/fees/set.go:64-66 | of which there is only one |
| LargestSet.Accumulate | hypersdk/fees/set.go:68-82 | the greedy accumulator never exceeds the limit |
| LargestSet.AccumulatorIsSum | hypersdk/fees/set.go:68-82 | it is the sum of the items taken |
| LargestSet.RejectedDoNotFit | hypersdk/fees/set.go:68-82 | an item not taken does not fit on top of the final accumulator either |
| LargestSet.MarkRejected | hypersdk/fees/set.go:68-82 | the in-place pass marks exactly the items not taken, and its Add never fails |
| LargestSet.Compact | hypersdk/fees/set.go:83-94 | the compaction as written ends, and leaves exactly the indices before the first mark |
| LargestSet.CompactAll | hypersdk/fees/set.go:83-94 | testing position i + j instead, it would keep exactly the unmarked ones |
| LargestSet.UnmarkedAreTaken | hypersdk/fees/set.go:83-94 | which are the items taken |
| LargestSet.LargestSet | hypersdk/fees/set.go:39-95 | the list returned and the accumulator are those of the stable order |
| LargestSet.LargestSetIsDetermined | hypersdk/fees/set.go:39-95 | so the result is a function of the items and the limit |
| LargestSet.ReturnedSumIsShort | hypersdk/fees/set.go:83-94 | the list returned is a prefix of the items taken, and sums to the accumulator exactly when the items taken later sum to zero |
| LargestSet.ShortExactlyWhen | hypersdk/fees/set.go:83-94 | in a dimension the list returned sums to less than the accumulator exactly when an item that is not zero there fits after one that did not |
| LargestSet.AllReturnedExactlyWhen | hypersdk/fees/set.go:83-94 | the whole list is returned exactly when all items together stay within the limit |
| LargestSet.MiddleRejected | hypersdk/fees/set.go:83-94 | whenever of three items the second does not fit and the third does, the first and third are summed but only the first is returned |
| LargestSet.MiddleRejectedExample | hypersdk/fees/set.go:83-94 | three concrete items for which that happens |
| StateKeys.StateKeysOf | hypersdk/chain/transaction.go:167-192 | the union of the keys of all actions and of the sponsor; fails exactly when one is malformed |
| StateKeys.RightsAreDeclared | hypersdk/state/keys.go:53-68 | the union grants a right on a key exactly when some action or the sponsor declared it |
| StateKeys.AddAllAnswers | hypersdk/state/keys.go:53-68 | taking up keys fails exactly when one is shorter than two bytes |
| StateKeys.HasMeans | hypersdk/state/keys.go:65-68 | permissions include others when those add nothing |
| StateKeys.ChunksAreTheLastBytes | hypersdk/keys/keys.go:18-24 | the chunks of a key are its last two bytes, the high one first |
| FeeUnits.Operator.Value | hypersdk/chain/transaction.go:194-242 | a running total fails exactly when the whole sum overflows |
| FeeUnits.Units | hypersdk/chain/transaction.go:194-242 | size, compute and the three storage totals over the declared keys; fails exactly on a malformed key or an overflow |
| FeeUnits.ChargeIs | hypersdk/chain/transaction.go:194-242 | in plain arithmetic: the size; the base price plus the compute units; for each kind of access the price per key times the keys plus the price per chunk times the chunks |
| FeeUnits.EstimateUnits | hypersdk/chain/transaction.go:423-486 | the same totals over the concatenated estimates, with the estimated bandwidth modulo the word |
| FeeEstimate.UnionCostsLess | hypersdk/chain/transaction.go:209-230 | distinct keys cost no more than any list in which they occur |
| FeeEstimate.StorageCovered | hypersdk/chain/transaction.go:423-486 | the charge for the union of keys is covered by the estimate over the concatenation |
| FeeEstimate.EstimateDominates | hypersdk/chain/transaction.go:423-486 | if the estimate succeeds so does the charge, and no compute or storage dimension exceeds the estimate |
| FeeEstimate.TxLength | hypersdk/chain/transaction_codec.canoto.go:203-219 | the exact length of a transaction: base, framing and contents |
| FeeEstimate.BandwidthCoveredWhen | hypersdk/chain/transaction.go:423-450 | the estimated bandwidth covers the transaction exactly when base and framing fit into the fixed part and what the auth leaves of its maximum |
| FeeEstimate.BandwidthCovered | hypersdk/chain/base.go:19 | so it does whenever the framing of actions and auth is at most thirty-five bytes |
| FeeEstimate.SixteenActionsCovered | hypersdk/chain/base.go:19 | for instance sixteen actions under 128 bytes with any auth under 16384 bytes |
| FeeEstimate.LargeActionsFallShort | hypersdk/chain/transaction.go:423-450 | sixteen actions of at least 16384 bytes each exceed it, even with a base that holds only a chain ID, when the auth takes up its maximum |
| FeeEstimate.LargeTxFallsShort | hypersdk/chain/transaction.go:423-450 | a concrete transaction of that kind |
| FeeEstimate.MaxFeeCovers | hypersdk/fees/dimension.go:51-65 | units within an estimate cost no more at the same prices, and without overflow |
| FeeEstimate.EstimateCoversFee | hypersdk/chain/transaction.go:573-594 | end to end: the maximum fee generated from the estimate covers the fee charged |
| SigBatch.Ed25519Batch.constructor | hypersdk/auth/ed25519.go:113-119 | batches hold the larger of the minimum and an even share of the cores |
| SigBatch.Ed25519Batch.Add | hypersdk/auth/ed25519.go:134-152 | fills the open batch, issues it when full, and keeps the last full one |
| SigBatch.Ed25519Batch.Done | hypersdk/auth/ed25519.go:154-159 | issues whatever batch is left |
| SigBatch.RunWorker | hypersdk/chain/auth_batch.go:90-100 | the batches of one kind hold exactly its signatures, all but the last are full, and each is issued once, except that the last may be issued twice when it is full |
| SigBatch.CountAuths | hypersdk/chain/processor.go:54-67 | how many auths of each kind a block holds |
| SigBatch.AuthBatch.Add | hypersdk/chain/auth_batch.go:52-61 | a signature queues for its kind's worker, or is a job of its own when the kind has none |
| SigBatch.AuthBatch.Done | hypersdk/chain/auth_batch.go:63-74 | the jobs issued verify exactly the signatures added |
| SigBatch.VerifySignatures | hypersdk/chain/processor.go:326-348 | the jobs issued for a block verify exactly its signatures |
| SigBatch.JobsDecide | hypersdk/chain/processor.go:326-348 | so they succeed together exactly when every signature is valid |

## Left out

- The gap-one recovery branch (`hypersdk/vm/vm.go:489-502`): it uses `vm.chain` before it is assigned. A start in that situation is the outcome Reexecute, from which no step continues.
- Errors are Option values or booleans; their kinds and texts are not modelled.
- Heights of the consensus VM and the crash model, and the sizes computed by the codecs, are unbounded.
- The health checkers other than readiness and unresolved blocks, and the lifecycle around SetState, closers and subscriptions.
- verifyWithContext notifies subscribers of verified blocks, Accept and Reject notify theirs: only the accepted notifications of re-processing are modelled.
- SnowSync.FinishSyncDecides: says nothing about a FinishStateSync that fails half-way, because the process then ends.
- SnowRuns.RunCarriesFolds: accepted forms are covered for a cache of at least eighteen blocks, because a smaller one does lose the parent (see EighteenSuffice).
- SnowVM.VM.Accept: is the uninterleaved call; interleavings are those of the four steps it is made of.
- BlockBuilder.BuildBlock: the claim that a block's transactions stay under the target size is not made, because the count restarts with each batch (`hypersdk/chain/builder.go:161`); the P-Chain context of the block and the prefetching of the next batch are not modelled.
- Building.ProcessBlock: what the replay window and the signature job find are inputs of the checks, and merkle roots are opaque values; the jobs of a block's signatures are modelled in SigBatch.
- Executor.Executor.FinishTask: a task that the executor skips after an error counts as finished; which ones are skipped is modelled in the builder, where it matters.
- FeeUnits.EstimateUnits: action keys are given, not derived from the actor and the action ID.
- ChainIndex.Index.UpdateLastAccepted: the compaction goroutine has no effect on the database and is not modelled.
- Indexer.Indexer.InitBlocks: the database maps heights to blocks; the block's byte form and the iterator's byte order are not modelled here (the chain index models both for its own keys).
- CrashHeights.AlwaysBounded: state sync, which writes the heights in another order, is outside this crash model.
- The value-receiver method Add on Dimensions (`hypersdk/fees/dimension.go:67-74`), whose update is discarded.
- The fee manager's price window, the mempool, the replay window and the state views beyond the contracts above; merkle trees, pebble, cryptography, networking, tracing, metrics, JSON and command-line forms.
- The agents, contracts and dashboard of the repository: network calls and user interface without local logic to prove.
