# A verified model of the mock L1 network, state recovery and gas estimation

The project models four connected parts of the Obscuro node software and proves what they promise over
all inputs and all runs.

* **The mock L1 protocol** (`integration/ethereummock`). Nodes store blocks, follow the longest chain with
  reorgs, announce canonical blocks, mine on them and broadcast (parent, block) pairs. `Nodes` gives the
  behaviour of one node as functions over its state, `MockNode.Node` carries it out in place, and `Network`
  composes nodes into a state machine whose steps interleave freely. `Runs` proves what holds in every run,
  `Laws` says field by field what each step changes, and `Agreement` shows what causal delivery adds;
  `Quiescence` shows that agreement is always within reach, and `Counterexamples` builds runs showing that the
  hypotheses are needed and derives the exact conditions.
* **Caches and walks over the block tree**: the memoised sets of included transactions, pruning of the
  mempool, the ancestor tests of both L1 clients, latest common ancestors, paths and lookups
  (`Resolver`, `Walks`, `Mempool`).
* **State recovery of the enclave** after a restart (`Replay`).
* **Gas estimation** in the enclave (`GasEstimation`).

## How things are modelled

A block hash is a free constructor over the block it was computed from, so equal hashes mean equal blocks
and parent links cannot form a cycle. This is what the protocol assumes of Keccak. The contents of a store
are then a set of blocks, and `Linked` says which blocks can be reached by looking parents up in it. Batch
hashes are treated the same way. A transaction is identified with its hash, and the map from hashes to
transactions that `allIncludedTransactions` builds is the set of its keys, because only the keys are used.
What the mock's contract libraries find when they decode a transaction is part of it: its data may be
unreadable, it may carry a rollup that decodes or does not, or something else.

Blocks in the theorems are `WellBuilt`, that is, obtained from the genesis block by `NewBlock`. Stores need
not be closed under parents unless a theorem says so: the ancestor tests, the latest common ancestor, the
paths and the lookups are characterised for every store, and `processBlock` for every store that holds the
chain of the head. `Grounded` includes this, every step of every run keeps it (`Runs.StepKeepsGrounded`),
and closed stores are a special case.

A run is a sequence of atomic steps of single nodes: a transaction is broadcast or arrives, the miner takes
a canonical block, a scheduled round fires, the main loop takes a mined block, or it takes the parent and
later the block of a delivered pair. A round reads the mempool of the moment it fires and is never
cancelled, as in the source (`Laws.RoundsAreNeverCancelled`). *Causal delivery* is the hypothesis that when the parent of a pair reaches the
main loop, it or its own parent is stored. Sending the parent along makes this true for the block of the
pair, not for the parent. A step may end the process, with `Crit` through the logger or with `Panic`; a run
is over when one does.

Results where the source does not do what its documentation or a reader would expect:

* `LCA` answers with its first argument when the second is the genesis block (`Walks.LCAIsMeetIff`), and
  `IsFork` is wrong when the first is the genesis block and the second is not (`Walks.IsForkIff`). The mock
  node never calls it in the first way.
* Sending the parent "to make sure there are no gaps" does not exclude them: a reachable run ends a node's
  process in the "Should not happen" branch (`Counterexamples.OutOfOrderRunExits`).
* Logging a broadcast block can end the process: `printBlock` runs at every node with the sender's id and
  exits if that node lacks the parent or if a rollup does not decode, which other code tolerates. Which
  steps of a run end the process is `Runs.CrashesExactlyWhen`; with printable transactions and causal
  delivery none does if and only if no two nodes share an id (`Counterexamples.NeverCrashesIff`).
* `removeCommittedTransactions` is described as removing transactions exactly 15 blocks deep. The code
  removes those at least that deep, and none when the block at that depth was never asked about
  (`Mempool.RemovedIff`). A deeper one that is removed and one at that depth that is kept are in
  `Mempool.DeeperIsRemoved` and `Mempool.UncachedIsKept`, and `Mempool.PrunesAsDocumentedIff` says exactly
  when code and description agree.
* The height test in the real client's `IsBlockAncestor` never runs, because it is guarded by a nil test
  that a successful lookup excludes; the model leaves it out and `Resolver.ClientsCompared` compares the
  two clients.
* Replaying a genesis batch commits the genesis state without comparing it with the batch
  (`Replay.HeadBecomesAvailableIff`), and batches with equal state roots are replayed although their state
  has become available (`Replay.ReplaysOnlyMissingIff`).
* Without a gas cap the midpoint of the gas search can wrap around. A failing call then makes the search run
  for ever (`GasEstimation.FailingSearchEndsIff`); it ends for every call exactly for ceilings up to half of
  uint64 (`GasEstimation.SearchAlwaysEndsIff`). Where it ends, the estimate still succeeds and can be paid for
  (`GasEstimation.EstimateIsLocallyMinimal`, `GasEstimation.EstimateIsAffordable`), but it need not be minimal
  or even reach 21000 (`GasEstimation.EstimateUnderIntrinsicGas`). The loop separates failing from succeeding
  probes for every call exactly for ceilings up to half of uint64 (`GasEstimation.AlwaysSeparatesIff`). Above
  that local minimality fails for some call (`GasEstimation.LocalMinimalityFails`) except at ceilings where the
  wrapped midpoint happens to be 21000, one of which is `GasEstimation.CoincidenceIsLocallyMinimal`. For calls
  whose success is monotone in gas the exact condition is `GasEstimation.EstimateIsLeastIff`. The caller always
  passes the global cap.

## Model

| member | source | states |
|---|---|---|
| Blocks.ChainShape | integration/ethereummock/mock_blocks.go:13-41 | the path of a block built by NewBlock has exactly one ancestor per height, from the genesis block to the block |
| Blocks.AncestorIffPrefix | integration/ethereummock/mock_blocks.go:13-41 | ancestry is the prefix order on paths, both directions |
| Blocks.MeetIsHighest | go/common/gethutil/gethutil.go:19-21 | the reference for the latest common ancestor: every common ancestor is an ancestor of it |
| Blocks.IncludedIff | integration/ethereummock/utils.go:20-41 | a transaction is included in a block exactly when some ancestor carries it |
| Resolver.BlockResolver.StoreBlock | integration/ethereummock/db.go:41-46 | adds exactly the block to the stored blocks |
| Resolver.BlockResolver.FetchBlock | integration/ethereummock/db.go:48-57 | finds the stored block with that hash, or nothing exactly when there is none |
| Resolver.BlockResolver.FetchHeadBlock | integration/ethereummock/db.go:59-73 | a stored block of greatest height, or not found exactly when the store is empty |
| Resolver.BlockResolver.HasAncestor | integration/ethereummock/db.go:79-94 | the recursion that looks parents up answers whether the block is reached from the other by stored parents |
| Resolver.IsAncestorIsExact | integration/ethereummock/db.go:79-94 | in every store, the test with its height cut-off answers reachability by parent lookups, both directions |
| Resolver.IsBlockAncestorIsExact | integration/ethereummock/db.go:96-123 | the same for the hash-based test with its cut-off and genesis shortcut |
| Resolver.AncestorTestsDecideAncestry | integration/ethereummock/db.go:79-123 | in a closed store both tests hold exactly for ancestors |
| Resolver.ClientAnswers | go/ethadapter/geth_rpc_client.go:91-119 | the real client's answer on any store: which hashes it says yes to, when it says no, and when a failed lookup ends the process |
| Resolver.ClientAnswersForStored | go/ethadapter/geth_rpc_client.go:91-119 | the real client's unpruned test decides ancestry for every stored hash |
| Resolver.ClientsCompared | go/ethadapter/geth_rpc_client.go:91-119 | both clients agree on stored hashes; on the zero hash and on unknown hashes exactly how they differ |
| Walks.InternalLCAWalk | go/common/gethutil/gethutil.go:39-72 | the walk from two blocks meets at their latest common ancestor with the hashes passed on the way, or fails exactly when a block in between is missing |
| Walks.LCAIsMeetIff | go/common/gethutil/gethutil.go:21-37 | LCA returns the latest common ancestor if and only if not (second block genesis, first not); when it fails; that the fork names the given blocks as new and old; and exactly which ancestors its two paths hold, in which order |
| Walks.FindLCA | go/common/gethutil/gethutil.go:21-72 | walking by lookups gives that fork, or fails exactly when a block in between is missing; with a block at genesis the first block and empty paths |
| Walks.IsForkIff | go/common/types.go:159-161 | IsFork says whether the old block was abandoned, if and only if not (first block genesis, second not) |
| Walks.BlocksBetween | integration/ethereummock/node.go:460-483 | the ascending path between the blocks, or a panic exactly when it cannot be looked up |
| Walks.ClientBlocksBetween | go/ethadapter/geth_rpc_client.go:76-89 | for any blocks: reversed and completed with the last block, the path from where the walk ends; fails exactly when that path cannot be looked up |
| Walks.ClientPathIsMockPath | go/ethadapter/geth_rpc_client.go:76-89 | on a closed tree the real client's path is the mock's of length height difference plus one, without its tip, reversed |
| Blocks.SegmentShape | integration/ethereummock/node.go:460-483 | the path between two blocks has one block per height and is the upper part of the chain |
| Walks.BlockByNumber | integration/ethereummock/node.go:175-198 | on any store: the ancestor of the chosen highest block at that height if lookups reach it, not found exactly when the block is lower and its whole chain is stored, else a failed lookup |
| Walks.GetRollupFromBlock | integration/ethereummock/node.go:117-132 | what the first transaction that ends the scan gives, a decodable rollup or the decoder's panic; nothing exactly when no transaction does |
| Walks.FetchLastBatchSeqNo | integration/ethereummock/node.go:134-148 | on any store: what the first transaction that ends the scan gives in the highest such block on the stored part of the head's chain; without one, 1 if that part reaches genesis and a panic if not |
| Mempool.CacheIsTransparent | integration/ethereummock/utils.go:20-41 | from any sound cache the answer is the set of transactions of all ancestors, and the cache gains only sound entries, for ancestors |
| Mempool.AnsweredIff | integration/ethereummock/utils.go:20-41 | the recursion panics exactly when a lookup fails before the genesis block or a cached block is reached |
| Mempool.AskedIsCached | integration/ethereummock/utils.go:20-41 | asking about a block fills the cache: the block and all its ancestors above genesis are then answered without any lookup |
| Mempool.CachedEqualsUncached | integration/ethereummock/utils.go:20-41 | where the block's chain is stored the cached answer equals the one computed with nothing cached |
| Mempool.AddAll | integration/ethereummock/utils.go:53-59 | collects the transactions of a list on top of a set |
| Mempool.AllIncludedTransactions | integration/ethereummock/utils.go:20-41 | the recursion in place: result and cache are those of the function AllIncluded, about which the three lemmas above speak |
| Mempool.RemoveExistingTxs | integration/ethereummock/utils.go:43-51 | the loop computes the filter RemoveExisting |
| Mempool.RemoveKeeps | integration/ethereummock/utils.go:43-51 | the filter keeps exactly the members outside the set, as often as they occur |
| Mempool.RoundAddsNoDupsIff | integration/ethereummock/node.go:425-433 | the block of a round leaves its chain free of duplicates if and only if the chain was and the added transactions are |
| Mempool.FindHashDups | integration/simulation/utils.go:83-103 | the two loops return exactly the elements occurring more than once, each with the number of its occurrences |
| Mempool.HashDupsEmptyIff | integration/simulation/utils.go:83-103 | nothing is reported if and only if no element occurs twice |
| Mempool.BelowIsOnChain | integration/ethereummock/db.go:164-179 | where the block's chain is stored the walk down never runs off it and ends at the ancestor that much lower |
| Mempool.BelowIff | integration/ethereummock/db.go:164-179 | on any store the walk down ends at the ancestor that much lower, or fails exactly when lookups do not reach it |
| Mempool.RemoveCommittedTransactions | integration/ethereummock/db.go:154-187 | the mempool after pruning at the block 15 below, unchanged if that block is not cached, exit if the walk fails |
| Mempool.RemovedIff | integration/ethereummock/db.go:154-187 | on any store: the process ends exactly when the block 15 lower is not reached; otherwise a mempool transaction is removed if and only if the height is above 15, that block is cached, and the transaction is on its chain |
| Mempool.PrunesAsDocumentedIff | integration/ethereummock/db.go:152-187 | exactly when what is removed is what the description says, the transactions of the block 15 lower |
| Mempool.DeeperIsRemoved | integration/ethereummock/db.go:152-187 | on every chain higher than 16 a transaction deeper than 15 is removed once the block 15 deep was asked about |
| Mempool.UncachedIsKept | integration/ethereummock/db.go:152-187 | a transaction 15 deep stays when its block was never asked about |
| Mempool.PruningIsInvisibleIff | integration/ethereummock/db.go:154-187 | pruning at a block changes no later selection if and only if the chain selected for includes what was pruned; in particular while the block is on that chain |
| Nodes.ProcessOutcome | integration/ethereummock/node.go:302-339 | for every store holding the head's chain: exactly when a block is ignored, makes the node panic, ends the process, or becomes the head, and what is then announced |
| Nodes.OrphanThenGapCrashes | integration/ethereummock/node.go:302-339 | blocks out of order can make a node panic and can end its process |
| Nodes.ConsumeSegment | integration/ethereummock/node.go:553-561 | a subscriber holding the chain of the old head holds the chain of the new head after the announced path |
| Nodes.ProcessKeepsGrounded | integration/ethereummock/node.go:302-376 | in whatever order blocks arrive, a block that does not end the process leaves the head's chain stored and subscribers with exactly that chain |
| Nodes.AdoptKeepsGrounded | integration/ethereummock/node.go:277-293 | a mined block never crashes its own node, orphans or not; block and parent are broadcast exactly when the block is then the head |
| Nodes.ProcessKeepsInv | integration/ethereummock/node.go:302-376 | a block whose parent is stored never crashes the node; the head stays a highest block and subscribers keep the canonical chain |
| Nodes.ReceiveKeepsInv | integration/ethereummock/node.go:264-275 | the same for blocks from peers, processed only when not yet stored |
| Nodes.AdoptKeepsInv | integration/ethereummock/node.go:277-293 | a mined block leaves a closed store and a highest head |
| Nodes.TakeKeepsGrounded | integration/ethereummock/node.go:412-425 | taking a canonical block never ends the process, prunes by the ancestor 15 lower, takes the block off the queue and adds a round to those scheduled; nothing else changes |
| Nodes.FireKeepsGrounded | integration/ethereummock/node.go:425-433 | a round never panics, offers one child of its block naming the node as miner with the mempool transactions not on its chain, drops only itself and no cache entry |
| MockNode.Node.constructor | integration/ethereummock/node.go:507-536 | a fresh node with only the genesis block, which is announced |
| MockNode.Node.ProcessBlock | integration/ethereummock/node.go:302-339 | the method in place, walking by lookups, has the outcome and new state of Nodes.ProcessBlock |
| MockNode.Node.SetFork | integration/ethereummock/node.go:359-376 | the last block becomes head, the whole path goes to the subscriber, the head to the miner |
| MockNode.Node.ReceiveBlock | integration/ethereummock/node.go:264-275 | the new state is that of Nodes.ReceiveBlock |
| MockNode.Node.AdoptMined | integration/ethereummock/node.go:277-293 | the new state and the broadcast are those of Nodes.AdoptMined |
| MockNode.Node.TakeCanonical | integration/ethereummock/node.go:412-421 | the new state is that of Nodes.TakeCanonical |
| MockNode.Node.FireRound | integration/ethereummock/node.go:425-433 | the new state, cache included, is that of Nodes.FireRound |
| Network.PrintBlock | integration/ethereummock/mock_l1_network.go:80-116 | goes through if and only if every transaction can be printed and the parent is found; otherwise the first unprintable transaction decides between panic and exit, and a missing parent is an exit |
| Network.PrintTxsIff | integration/ethereummock/mock_l1_network.go:83-107 | undecodable data panics and an undecodable rollup exits, at the first such transaction |
| Network.PrintedAtAllIff | integration/ethereummock/mock_l1_network.go:48-60 | how a broadcast ends the process: as the first unprintable transaction does, else an exit exactly when a node with the sender's id lacks the parent |
| Network.ScheduleBlock | integration/ethereummock/mock_l1_network.go:48-60 | the loop puts the pair on its way to exactly the nodes with another id and goes through if and only if printing does at all nodes with the sender's id |
| Network.ScheduleTx | integration/ethereummock/mock_l1_network.go:63-73 | the loop puts the transaction on its way to exactly the nodes with another id |
| Network.StepKeepsNetInv | integration/ethereummock/node.go:398-436 | every step of every node keeps caches sound and closed under parents, transactions conserved and from broadcasts only, and chains free of duplicates |
| Network.NoDoubleInclusion | integration/ethereummock/node.go:412-433 | in every run, as long as no node has received a transaction twice, no transaction is twice on the chain of any stored block of any node |
| Network.BroadcastOnceIncludedOnce | integration/ethereummock/mock_l1_network.go:63-73 | in every run where each transaction is broadcast at most once, none is twice on the chain of a stored block |
| Network.OnlyBroadcastTxs | integration/ethereummock/node.go:425-433 | in every run whatever is on the chain of a stored or mined block was broadcast before |
| Network.TransactionsAreConserved | integration/ethereummock/db.go:160-186 | in every run each received transaction is in the mempool or at least 15 below a canonical block taken by the miner |
| Runs.RoundRefinesNaiveMiner | integration/ethereummock/node.go:425-433 | in every run every round goes through, and while its chain holds all blocks pruned at, it offers everything ever received that is not on that chain, in order |
| Runs.RoundFillsCache | integration/ethereummock/utils.go:20-41 | in every run, once a round has fired, its block and all its ancestors above genesis are cached with their transactions |
| Runs.StepKeepsGrounded | integration/ethereummock/node.go:264-300 | every step of every run, orphans or not, keeps every node's invariant, and no head is lowered |
| Runs.HeadsOnlyRise | integration/ethereummock/node.go:317-320 | between any two states of any run a head is kept or replaced by a strictly higher block |
| Runs.SubscribersSeeCanonicalChain | integration/ethereummock/node.go:342-376 | in every run a subscriber fed the headers in order holds exactly the ancestors of the head, one per height, all of them stored |
| Runs.CrashesExactlyWhen | integration/ethereummock/node.go:264-339 | in every state of every run: which steps never end the process, and for the others exactly when they panic and when they exit |
| Laws.StepLaw | integration/ethereummock/node.go:264-436 | every step of every run: how each field of each node's state and the pairs on their way to it change, and that nothing else does |
| Laws.QueueLaws | integration/ethereummock/node.go:412-433 | between consecutive states of a run rounds lose only the one fired and gain only the block taken, the queue loses only its first, mined blocks lose only the one adopted, and cache entries and headers stay |
| Laws.RoundsAreNeverCancelled | integration/ethereummock/node.go:424-433 | in every run a scheduled round is gone only once it has fired |
| Laws.MinedBlocksAreNeverDropped | integration/ethereummock/node.go:277-293 | in every run a mined block is gone only once the main loop has taken it |
| Agreement.StepIsSafe | integration/ethereummock/node.go:264-300 | from a safe state a causal step ends the process only by printing a broadcast block, and any other keeps all node invariants |
| Agreement.NoCrash | integration/ethereummock/node.go:264-339 | in a causal run with distinct ids and printable transactions no step panics or reaches a "Should not happen" exit |
| Agreement.HeadIsHighest | integration/ethereummock/db.go:59-73 | in every causal run the head is a stored block of greatest height, the height the store's scan finds |
| Agreement.StepSpreads | integration/ethereummock/mock_l1_network.go:48-60 | whatever is or can become a head was broadcast, and whatever was broadcast is stored or on its way, after every step |
| Agreement.DrainedNodeLeads | integration/ethereummock/node.go:277-293 | with distinct ids and causal delivery, a node with nothing left to receive has stored every other head and is as high |
| Agreement.AgreementAtQuiescence | integration/ethereummock/node.go:264-300 | with distinct ids and causal delivery, once no pair is on its way all heads have the same height |
| Quiescence.AgreementWithinReach | integration/ethereummock/node.go:264-300 | with distinct ids, every state a causal run reaches is followed, by causal deliveries alone, by a quiet state in which all heads have the same height |
| Counterexamples.NeverCrashesIff | integration/ethereummock/mock_l1_network.go:48-60 | no causal run from a start with printable transactions crashes if and only if its nodes have distinct ids |
| Counterexamples.AgreesWhenQuietIff | integration/ethereummock/mock_l1_network.go:48-60 | all causal runs from a start agree on the height once quiet if and only if its nodes have distinct ids |
| Counterexamples.TwinsCrash | integration/ethereummock/mock_l1_network.go:109-112 | from any start with two nodes of one id, one mining twice ends the process at the other's missing parent |
| Counterexamples.TwinsDisagree | integration/ethereummock/mock_l1_network.go:48-60 | from any start with two nodes of one id, a quiet state with those two at different heights |
| Counterexamples.UnprintableTxCrashes | integration/ethereummock/mock_l1_network.go:83-99 | any transaction that cannot be printed ends the process when it is mined and broadcast |
| Counterexamples.OutOfOrderRunExits | integration/ethereummock/node.go:334-336 | without causal delivery a run reaches the "Should not happen" exit |
| Counterexamples.ResentTxIsIncludedTwice | integration/ethereummock/node.go:409-433 | a transaction received twice can be on one chain twice |
| Replay.ReplayListShape | go/enclave/enclave.go:1565-1583 | the replay list is a contiguous parent chain of batches without state from the head to genesis or to a child of an available state, empty exactly when the head's state is available |
| Replay.WalkBackSucceedsIff | go/enclave/enclave.go:1572-1583 | the walk back succeeds if and only if every batch below the head is stored down to a genesis batch or to one whose state is available |
| Replay.ReplaySucceedsIff | go/enclave/enclave.go:1587-1604 | the replay succeeds exactly when recomputing every listed batch on its parent's root gives it back, and adds exactly their states |
| Replay.SuffixReplay | go/enclave/enclave.go:1587-1604 | the same for every older part of the list, so how far a failing replay gets |
| Replay.ReplayFromOutcome | go/enclave/enclave.go:1562-1607 | every outcome told from what is stored: missing batch, empty list, success with its states, or which of the two replay errors |
| Replay.SuccessAddsStates | go/enclave/enclave.go:1587-1604 | on success exactly the states the replayed batches stand for are added |
| Replay.HeadBecomesAvailableIff | go/enclave/enclave.go:1562-1607 | after success the head's state is available if and only if the head is above genesis or names the genesis state |
| Replay.ReplaySucceedsIffGenuine | go/enclave/enclave.go:1562-1607 | from a genuine base or genesis, the replay succeeds if and only if the head and all its ancestors are what recomputing from genesis gives |
| Replay.GenuineChainIsFold | go/enclave/enclave.go:1549-1552 | every state on such a chain is the fold of execution from the genesis state |
| Replay.ReplaysOnlyMissingIff | go/enclave/enclave.go:1573-1604 | no replayed batch had its state at the start; none has it when its turn comes if and only if the roots differ |
| Replay.EmptyBatchIsReplayedNeedlessly | go/enclave/enclave.go:1587-1604 | two batches with one root: the second is executed although its state is there |
| Replay.Storage.StateDBAvailableForBatch | go/enclave/enclave.go:1553-1556 | whether the batch is stored and its root committed |
| Replay.Storage.ExecuteBatch | go/enclave/components/batch_executor.go:149-180 | commits the recomputed batch's state exactly when that batch has the given hash |
| Replay.Storage.CollectBatches | go/enclave/enclave.go:1572-1583 | the backward loop builds the replay list, and fails exactly when the batches cannot be read back that far |
| Replay.Storage.ReplayCollected | go/enclave/enclave.go:1587-1604 | the forward loop replays the list from its last batch; on failure exactly the states of the longest replayable older part are committed |
| Replay.Storage.ReplayBatchesToValidState | go/enclave/enclave.go:1562-1607 | result and committed states are those of ReplayFrom, each outcome exactly when ReplayFromOutcome says; how far a failure got |
| Replay.Storage.RestoreStateDBCache | go/enclave/enclave.go:1529-1547 | the index at the log line is always in range; nothing changes without need; a missing batch is reported exactly when the chain cannot be read back; from a genuine base it succeeds if and only if the head is genuine, and then every ancestor's state is the fold of execution |
| GasEstimation.CeilingIsExact | go/enclave/enclave.go:1159-1220 | the gas limits up to the ceiling are exactly those within the request, within the gas cap, and payable at gasPrice or maxFeePerGas with the value sent |
| GasEstimation.CeilingFailsIff | go/enclave/enclave.go:1176-1200 | exactly when both fee kinds, a missing balance or insufficient funds are reported, by the argument fields |
| GasEstimation.HighestGas | go/enclave/enclave.go:1159-1220 | the cap computation returns that ceiling or its error |
| GasEstimation.SearchBrackets | go/enclave/enclave.go:1222-1237 | from any upper end the search ends there or at a success; up to half of uint64, right above a failure or its lower end |
| GasEstimation.EstimateIsLocallyMinimal | go/enclave/enclave.go:1222-1255 | for any oracle and ceiling a returned estimate succeeds and is at most the ceiling; from a ceiling between 21000 and half of uint64 it is at least 21000 and one less fails unless it is 21000 |
| GasEstimation.EstimateIsLeastIff | go/enclave/enclave.go:1222-1255 | with monotone success, whatever other gas limits are rejected: the estimate is the least sufficient gas from 21000 up if and only if ceiling plus 20999 stays below 2^64 or no gas under 21000 suffices |
| GasEstimation.EstimateFailsIff | go/enclave/enclave.go:1222-1255 | with monotone success and any ceiling, an answer that is not a rejection is an error if and only if no gas in range suffices |
| GasEstimation.AnswerIsExplained | go/enclave/enclave.go:1226-1253 | for any oracle and ceiling: a rejection is that of a probe; any other error is the one kind that what the call does at the ceiling stands for, revert data, failure or too little gas |
| GasEstimation.EstimateIsAffordable | go/enclave/enclave.go:1178-1255 | for any ceiling, estimate times gasPrice or maxFeePerGas plus value never exceeds the balance |
| GasEstimation.AlwaysSeparatesIff | go/enclave/enclave.go:1223-1237 | the loop's result lies above every failing probe, at or below every succeeding one and is tight, for every call, if and only if the ceiling is at most half of uint64 |
| GasEstimation.LocalMinimalityFails | go/enclave/enclave.go:1223-1237 | above half of uint64 some call gets an estimate under 21000 or one that can be lowered, unless the first wrapped midpoint is 21000 |
| GasEstimation.EstimateUnderIntrinsicGas | go/enclave/enclave.go:1223-1255 | from the highest ceiling a call can be estimated at 10499, by one probe |
| GasEstimation.CoincidenceIsLocallyMinimal | go/enclave/enclave.go:1223-1255 | a ceiling above half of uint64 at which every estimate is locally minimal, so no bound on the ceiling is exact for that |
| GasEstimation.SameAnswer | go/enclave/enclave.go:1223-1237 | the result of the loop does not depend on how many probes it is allowed |
| GasEstimation.FailingSearchEndsIff | go/enclave/enclave.go:1223-1237 | when every probe fails, the search ends if and only if the ceiling is at most half of uint64 |
| GasEstimation.SearchAlwaysEndsIff | go/enclave/enclave.go:1223-1237 | the search ends for every call if and only if the ceiling is at most half of uint64 |
| GasEstimation.BinarySearch | go/enclave/enclave.go:1222-1237 | wherever the loop ends, its result and the number of probes, at most 33 under the global cap, and the gas limit left in the arguments |
| GasEstimation.DoEstimateGas | go/enclave/enclave.go:1148-1256 | wherever the loop ends: the answer with all the facts above (success, explained errors, local minimality, minimality under monotone success, affordability), at most 34 probes up to the global cap, and what is left in the caller's arguments |

## Left out

- BinarySearch: requires that the loop ends for the given call, because a method of the model must; for which ceilings it ends for every call is `GasEstimation.SearchAlwaysEndsIff`.
- DoEstimateGas: requires the same of its loop, at the ceiling it computes.
- LocalMinimalityFails: leaves open which of the few ceilings whose first wrapped midpoint is 21000 keep every estimate locally minimal; `GasEstimation.CoincidenceIsLocallyMinimal` is one.
- BlockByNumber: says what is found for stores of blocks built by NewBlock, as all stores of a run are.
- FetchLastBatchSeqNo: says what is found for the same stores.
- Locks and partial progress inside one action: each action of a node is one atomic step; channels are queues without capacity, so a run of the source may block where the model goes on.
- Order of header delivery: `publish` runs in its own goroutine, and the theorem about subscribers is about the order in which headers are emitted.
- Shutdown: `interrupt`, `Stop` and the exit channels; runs are those before shutdown.
- Heights and nonces beyond uint64: heights are natural numbers.
- Timers, latencies and proof-of-work times: any enabled step may come next.
- Statistics and log texts: of `printBlock` only what can end the process is modelled.
- The EVM and the executor: parameters of the model, assumed deterministic. The bytes of a transaction: what decoding them gives is part of the transaction.
- RLP, JSON, compression, cryptography and the generated contract bindings: library and generated code.
- The rest of the enclave, the host, the RPC layers, tools and the wallet extension: dispatch and I/O around components that are not part of this model.
