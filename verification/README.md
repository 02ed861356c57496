# A Dafny model of DyShard's hard parts

DyShard is a sharded blockchain node derived from Harmony that can move an account from
one shard to another. This project models the parts of it whose correctness does not
show in any single function, and proves what those parts keep over every run.

* **Shared definitions** (`Basics`, `Sums`).
* **Transaction pool** (`Heap`, `PoolTypes`, `SortedMap`, `TxLists`, `ListOps`,
  `PricedList`, `PoolInvariant`, `PoolSteps`, `Fairness`, `TxPool`). Per account
  a contiguous pending list and a gapped queue, each a nonce map with a heap and a lazily
  sorted cache; above them a hash lookup and a price heap with stale entries. The
  pool-wide invariant, that pending nonces are exactly those from the state nonce to the
  pending nonce, that queues are disjoint from them, that the lookup is exactly the
  union, and that every known transaction has a price-heap entry, is kept by every
  operation, and the promotion, demotion and truncation loops are given exact outcomes.
* **State migration** (`CommitPool`, `Migration`, `MigrationValue`, `MigrationExamples`).
  The two-phase protocol that freezes an account on its source shard and commits it on its
  target, as a step relation over coordinator tasks, nodes with commit pools, and chains.
  A block is ordinary transactions, then transfers, then credits (incoming receipts,
  rewards and payouts), and each part has an exact balance sheet. An address counts as gone
  from a shard exactly if the last of its transfers that took effect on the chain is a freeze.
* **View change** (`ViewChange`). The collector of M1, M2 and M3 signatures of the FBFT
  view change (which follows PBFT, Castro and Liskov, OSDI 1999, section 4.4), the NEWVIEW
  message built from it and the checks a receiver makes. Signatures are ideal: an
  aggregate verifies on a message under a mask exactly if the masked keys signed it.
* **Value accounting** (`Staking`, `StakingValue`, `StakingFields`, `Gas`, `CrossShard`, `Rewards`).
  Redelegation and staking moves, gas purchase and refund over a block, cross-shard
  receipts over all shards, with the checks that a receiving shard makes on a proof, and the
  pre-staking reward split.
* **Chain indexer** (`ChainIndexer`). Two loops that share a lock which one of them drops
  while it processes a section.
* **Derivation paths** (`HDPath`). The parser and printer of BIP-32 paths, with numbers
  read as `big.Int.SetString` reads them.

Objects that the source updates in place are classes whose methods are proved against
functions on values, and the laws are lemmas about those functions. Hashes, signatures,
block verification, staking-message checks, the virtual machine, clocks and wrapper
sanity checks are parameters of the members that use them. Different contents are taken to
have different hashes, and a commit signature to come from the committee that made the block.

## Where the code does less than its documentation says

* The queue truncation's comment speaks of dropping the accounts with the oldest
  heartbeat; the code pops from the end of a list in ascending order and so drops the most
  recent heartbeats first (`core/tx_pool.go:1529-1560`). `TruncateQueue` states what the
  code does.
* A delegation index list that names a validator twice would make tokens, because each
  entry works on a fresh copy of the wrapper (`core/staking_verifier.go:244-293`).
  `DelegateConserves` and `CollectConserves` give the exact condition,
  `RepeatedValidatorMakesTokens` an input. The chain never builds such a list: its own
  `addDelegationIndex` (`core/blockchain.go:3043-3075`) lists a validator once, and
  `RecordedRunConserves` shows that with its lists the supply is constant without condition.
* Collecting rewards fails as if there were none whenever the low 64 bits of the total are
  zero (`core/staking_verifier.go:431`): `CollectAccepted` says exactly when collecting
  works, `RoundRewardRefused` gives an input.
* A contract creation sent to another shard moves its value inside the source shard and
  also leaves a receipt without recipient, which no block can apply
  (`core/state_processor.go:380`, `core/state_processor.go:446`). `FaceValueConserves` gives
  the exact condition under which counting receipts at face value conserves,
  `CreationReceiptBlocks` what such a receipt does to its block.
* The spent mark of a cross-shard proof is taken from its Merkle fields
  (`core/blockchain.go:2468-2473`), which `ValidateCXReceiptsProof` does not compare with the
  header (`core/block_validator.go:236-295`). `ValidExactly` says what an accepted proof
  carries, `StepExactly` when a block keeps the supply: its marks must close what it
  credits (which marks that are exchanged between two proofs also do, `ExchangedMarks`), and
  `CreditedAgain` shows that any block with one proof can be followed by one that credits
  the same receipts once more. Proofs as the source shard makes them (`MadeProofPasses`) are
  marked by their headers, and for runs of such proofs `CrossShardConservation` and
  `CreditedOnce` hold.
* The freeze flag is a field of the account object in memory and not part of the stored
  account (`core/state/state_object.go:77-117`), so it is gone when the next block opens the
  state. `FrozenSpent` is a run in which a frozen account is spent and value is made.
  `ValueKeptExactly` gives the exact condition for every block: together its transactions
  and credits must add nothing to the accounts that have left its shard.
* Credits come after transfers in a block (`core/state_processor.go:220-280`), and a flagged
  account drops them silently. `FlagsExactly` says which accounts do, `CreditsExactly` when
  credits arrive in full, `DroppedCredit` is a run in which one vanishes.
* A migration keeps the value only if its freeze finds the account live or empty
  (`FreezeSheet`) and its commit carries what was frozen and whatever it overwrites
  (`CommitSheet`).
* A commit pool that handles an older head while a newer block is current answers with a
  stale state (`atomic/commit_pool.go:401-416`): `LateHeadAnswersStale`. It answers with the
  frozen one exactly if the head is the current block: `HeadAnswersFrozen`.
* The coordinator's comment speaks of two thirds of each shard's nodes; `SelectedShare` says
  for which sizes the code takes fewer (`atomic/serverShard.go:262-265`).
* A view-change message's M1 block is not compared with the payload's hash
  (`consensus/view_change_construct.go:256-284`). `FirstM1Commits` says when the leader can go
  on from it, `NewViewAccepted` when its NEWVIEW is accepted, and `MixedM1Refused` is a
  message that leads to a refused one.
* A sender outside the committee gets no bit although its signature is stored.
  `ProcessViewChangeMsg` states the exact condition and `OutsideSenderBreaks` an input; the
  node filters such senders before they reach the collector (`node/node.go:567`).

## Model

| member | source | states |
|---|---|---|
| Heap.Push | core/tx_list.go:41-52 | pushing keeps the heap order and adds exactly the element |
| Heap.Pop | core/tx_list.go:45-52 | what is popped is least in the whole heap, the rest is a heap of the other elements |
| Heap.RemoveAt | core/tx_list.go:185-199 | removing any position leaves a heap of exactly the other elements |
| Heap.Init | core/tx_list.go:117-121 | arbitrary contents become a heap with the same elements |
| SortedMap.TxSortedMap.Put | core/tx_list.go:76-82 | the map gains the transaction and the heap stays a duplicate-free index of exactly the nonces |
| SortedMap.TxSortedMap.Forward | core/tx_list.go:87-101 | returns everything below the threshold in nonce order, keeps the rest, and cuts a cache consistently |
| SortedMap.TxSortedMap.FilterWithError | core/tx_list.go:131-156 | returns exactly the failing transactions, each with its error, and keeps exactly the passing ones |
| SortedMap.TxSortedMap.Filter | core/tx_list.go:105-127 | splits the map by a predicate, exactly |
| SortedMap.TxSortedMap.Cap | core/tx_list.go:160-181 | keeps exactly the lowest nonces up to the limit and returns the others, highest first |
| SortedMap.TxSortedMap.Remove | core/tx_list.go:185-204 | removes one nonce from map, heap and cache, and says whether it was there |
| SortedMap.TxSortedMap.Ready | core/tx_list.go:211-226 | returns the maximal consecutive run from the least nonce if that is not above the start, else nothing |
| SortedMap.TxSortedMap.Flatten | core/tx_list.go:236-249 | the contents in ascending nonce order, whether cached or not |
| TxLists.TxList.Add | core/tx_list.go:287-312 | inserted exactly if the nonce is free or the price bump is met; the caps stay upper bounds |
| TxLists.BumpExactly | core/tx_list.go:293-299 | the bump threshold is rounded down |
| TxLists.TxList.FilterValid | core/tx_list.go:327-350 | removes exactly the faulty transactions and, from a strict list, cuts exactly what they strand |
| TxLists.TxList.FilterPrice | core/tx_list.go:353-377 | the cost and gas caps make the short circuit agree with checking one by one |
| TxLists.TxList.Remove | core/tx_list.go:406-422 | a strict list also loses, and returns, exactly the later nonces |
| PricedList.TxPricedList.Removed | core/tx_list.go:502-517 | rebuilding keeps exactly the live entries |
| PricedList.TxPricedList.Cap | core/tx_list.go:521-548 | drops exactly the live non-local entries below the threshold and keeps every other live entry |
| PricedList.TxPricedList.Discard | core/tx_list.go:578-601 | drops the cheapest live non-local entries in heap order, as many as asked or all, and keeps every other live entry |
| PricedList.CheaperMeans | core/tx_list.go:453-464 | cheaper comes first, and at equal price the higher nonce |
| PricedList.TxPricedList.Underpriced | core/tx_list.go:552-574 | true exactly if the pool has a live entry and none is cheaper than the newcomer |
| PoolInvariant.PutIn | core/tx_pool.go:1117-1148 | putting a transaction into a list in place of its rival keeps lookup and lists in agreement |
| PoolInvariant.Evict | core/tx_pool.go:1329-1370 | removing a transaction from its list and the lookup keeps them in agreement |
| TxPools.TxPool.EnqueueTx | core/tx_pool.go:1117-1148 | queue and lookup gain the transaction in place of an outbid one, or nothing changes |
| TxPools.TxPool.PromoteTx | core/tx_pool.go:1165-1206 | a homeless transaction becomes pending in place of an outbid one, or leaves the lookup |
| TxPools.TxPool.RemoveTx | core/tx_pool.go:1329-1370 | exactly one transaction leaves the pool, later pending ones are queued, and the invariant holds again |
| TxPools.TxPool.PromoteAccount | core/tx_pool.go:1389-1450 | of the payable queue exactly the run from the pending nonce becomes pending; the rest stays queued, lowest nonces first, up to the limit |
| PoolSteps.PromotionTwice | core/tx_pool.go:1389-1450 | promoting an account again right away changes nothing |
| TxPools.TxPool.TruncatePending | core/tx_pool.go:1453-1525 | the levelling loops cut every pending list at the one level that Fairness defines, keeping lowest nonces |
| Fairness.LevelIsFair | core/tx_pool.go:1453-1525 | at the level the total fits or every non-local account is at its guaranteed slots; nobody falls below them, locals are untouched, offenders end equal |
| Fairness.LevelUnique | core/tx_pool.go:1453-1525 | the outcome of the levelling is unique, whatever order equal accounts are visited in |
| Fairness.Overshoot | core/tx_pool.go:1453-1525 | the total ends below the limit by less than the number of offenders |
| Fairness.NoCutUnderLimit | core/tx_pool.go:1453-1525 | nothing is cut when the total fits |
| TxPools.TxPool.TruncateQueue | core/tx_pool.go:1527-1569 | queues lose only their highest nonces, only non-local ones, only as far as the limit demands, latest heartbeat first |
| TxPools.TxPool.PromoteExecutables | core/tx_pool.go:1377-1569 | the listed accounts are promoted exactly, pending lists are then cut at the level and queues at the limit; nothing executable is left waiting |
| TxPools.TxPool.DemoteAccount | core/tx_pool.go:1576-1622 | of what is not too old and has no fault, exactly the run from the state nonce stays pending and the rest is queued |
| TxPools.TxPool.DemoteUnexecutables | core/tx_pool.go:1574-1625 | every account is demoted so, and no pending list is empty |
| TxPools.TxPool.Reset | core/tx_pool.go:545-583 | a new head demotes, re-tracks nonces and promotes; the invariant holds under the new state |
| TxPools.TxPool.SetGasPrice | core/tx_pool.go:620-631 | every known non-local transaction below the price leaves, and only those |
| TxPools.TxPool.ValidateTx | core/tx_pool.go:736-840 | accepts exactly transactions within the gas limit, of a known sender, at the price floor or local, with nonce, cost and funds, that pass the other checks |
| PoolSteps.Invalidity | core/tx_pool.go:757-812 | each error implies its cause, and there is none exactly if every check passes |
| TxPools.TxPool.MakeRoom | core/tx_pool.go:1013-1040 | a full pool refuses exactly the underpriced newcomers; otherwise what leaves it is non-local and no cheaper non-local transaction stays; a pool with room changes nothing |
| TxPools.TxPool.GiveUpCheapest | core/tx_pool.go:1028-1040 | what is given up to make room is non-local and no cheaper non-local transaction stays |
| TxPools.TxPool.Place | core/tx_pool.go:1042-1110 | the transaction takes the place of an outbid rival in pending or queue, or nothing changes |
| TxPools.TxPool.Add | core/tx_pool.go:994-1110 | which error is returned and when; a full pool refuses the cheapest newcomer or loses its cheapest non-local transactions; then the pool gains exactly this transaction in its place, and whether it is new and its sender now local is exact |
| TxPools.TxPool.AddTx | core/tx_pool.go:1237-1258 | adding, and then promoting the sender exactly as promoteExecutables does, keeps the invariant and leaves nothing executable waiting |
| TxPools.TxPool.AddTxs | core/tx_pool.go:1270-1300 | one turn of the pool after the other, from the old pool on: each transaction is refused as known or added as Add does, its error is that turn's, and exactly the senders of new transactions are then promoted, as promoteExecutables does |
| TxPools.TxPool.EvictInactive | core/tx_pool.go:409-423 | exactly the queues of idle non-local accounts are emptied |
| PoolSteps.CountSplits | core/tx_pool.go:652-662 | the number of known transactions is the total pending plus the total queued |
| CommitPool.CommitPool.FreezeCache | atomic/commit_pool.go:101-121 | hands out exactly the stored, unread freezes and marks them read |
| CommitPool.CommitPool.Committed | atomic/commit_pool.go:124-148 | hands out exactly the stored, unread commits and marks them read |
| CommitPool.CommitPool.AddFreezeTransaction | atomic/commit_pool.go:213-232 | the freeze is stored whatever was stored before |
| CommitPool.CommitPool.AddCommittedTransaction | atomic/commit_pool.go:254-272 | the first commit of an index is stored |
| CommitPool.CommitPool.HandleStateTransferMsg | atomic/commit_handler.go:210-239 | uninterrupted, stores the freeze unless one was already seen in a block |
| CommitPool.CommitPool.HandleCommit | atomic/commit_handler.go:155-205 | uninterrupted, is the storing of a commit that was not seen, if the freeze was, and the dropping of the proposal |
| CommitPool.CommitPool.SeeBlock | atomic/commit_pool.go:414-447 | the pool becomes what SeenAllExactly describes, and exactly the awaited freezes are signalled |
| CommitPool.SeenAllExactly | atomic/commit_pool.go:414-447 | after a block, for each index: cached exactly if it was or the block freezes it, done exactly if it was or the block commits it, stored no longer exactly if the block holds it, and signalled exactly if it was awaited |
| CommitPool.SeenAllContents | atomic/commit_pool.go:414-447 | what stays stored stays the same, and what is newly cached is the block's freeze without flag and balance |
| CommitPool.CommitFollows | atomic/commit_handler.go:155-205 | in every run, once a freeze is in a block and until it is dropped or committed, a commit is accepted, stored and handed out with the next draw unless one already was |
| CommitPool.FreezeFollows | atomic/commit_handler.go:210-239 | a stored freeze that was not read is handed out with the next draw |
| CommitPool.FirstCommitStays | atomic/commit_pool.go:254-272 | over any run the first commit stored for an index stays until a block holds one |
| CommitPool.HandedOutOnce | atomic/commit_pool.go:101-148 | over any interleaving of the single operations no index is handed out twice for one phase |
| CommitPool.NotAfterSeen | atomic/commit_pool.go:414-447 | nor after it was seen in a block in that phase |
| CommitPool.WaitsForDraw | atomic/commit_pool.go:213-269 | a stored, unread index is handed out at the next draw |
| Migration.StateDB.ApplyStateTransferTransaction | core/state_processor.go:493-621 | freeze and commit change exactly the account, its flag in memory and the load map as the transfer says |
| Migration.StateDB.AddBalance | core/state/statedb.go:375-381 | adds to the account, which is created if missing, unless it is flagged |
| Migration.GoneIsHistory | core/state_processor.go:493-621 | in every run an address is gone from a shard exactly if the last transfer of it that took effect there is a freeze |
| Migration.ObtainFollowersLimit | atomic/serverShard.go:261-272 | the followers are the leading two thirds of each shard, source first |
| Migration.SelectedShare | atomic/serverShard.go:261-272 | they reach two thirds of the shard exactly unless its size leaves two when divided by three |
| Migration.NextKeepsInv | atomic/serverShard.go:124-230 | every step of coordinator, nodes and chains keeps the protocol invariant |
| Migration.Causality | atomic/commit_handler.go:64-112 | in every run a commit is on a chain only if the freeze is on the source chain |
| MigrationValue.WorkedSheet | core/state_processor.go:187-215 | ordinary transactions change the value by what they add to all accounts less what they add to accounts that have left |
| MigrationValue.FreezeSheet | core/state_processor.go:511-536 | a freeze keeps live plus in-flight balance exactly if the account is live or holds nothing |
| MigrationValue.CommitSheet | core/state_processor.go:576-610 | a commit keeps it exactly if it carries what was frozen and the live balance it overwrites |
| MigrationValue.FlagsExactly | core/state_processor.go:511-536 | an account drops credits exactly if the block's last transfer of it is a freeze and it is not empty |
| MigrationValue.CreditsExactly | core/state_processor.go:243-280 | credits reach the live balances in full exactly if none goes to an address that has left |
| MigrationValue.BlockSheet | core/state_processor.go:187-280 | the balance sheet of a whole block whose transfers are in order |
| MigrationValue.ValueConserved | core/state_processor.go:493-621 | in every careful run each address is live on at most one shard, and live plus in-flight balance is what there was and what came in |
| MigrationValue.ValueKeptExactly | core/state_processor.go:187-280 | after such a run a block keeps the books exactly if it adds nothing to accounts that have left its shard |
| MigrationValue.ExactDelivery | atomic/commit_handler.go:86-96 | between transfers and credits of the commit's block the target has exactly the balance and nonce that the source had at that point of the freeze's block |
| MigrationExamples.FrozenSpent | core/state/state_object.go:77-136 | a run in which a frozen account is spent in the next block and value is made |
| MigrationExamples.DroppedCredit | core/state/statedb.go:375-381 | a run in which a credit to an account frozen in the same block vanishes |
| MigrationExamples.LateHeadAnswersStale | atomic/commit_pool.go:401-447 | a late head makes a node answer with a state older than the freeze |
| MigrationExamples.HeadAnswersFrozen | atomic/commit_pool.go:401-447 | what is signalled for a head is in the state answered with exactly if the head is the current block |
| ViewChange.SetKey | crypto/bls/mask.go:229-235 | exactly the key's bit is set, and an unknown key is an error |
| ViewChange.FindPrepared | consensus/fbft_log.go:322-335 | a prepared message with the highest view, if there is one |
| ViewChange.Collector.ProcessViewChangeMsg | consensus/view_change_construct.go:239-376 | accepts exactly messages of one sender without M3 signature in the view that pass the M1 or the M2 checks, and then stores its signatures, the first M1 payload and its log entry; a rejected message changes nothing; signatures and bits agree afterwards exactly if the sender is in the committee |
| ViewChange.Collector.InitPayload | consensus/view_change_construct.go:379-485 | unless one of its keys has signed the view, a node adds its own M3 signatures and M1 signatures on the latest prepared message if its block is known and verified, else M2 signatures; the collector stays true |
| ViewChange.Collector.AddViewIDKeyIfNotExist | consensus/view_change_construct.go:66-88 | opening a view keeps every view as it was |
| ViewChange.Collector.GetM2Bitmap | consensus/view_change_construct.go:124-137 | the aggregate and bitmap testify for exactly the nil signers |
| ViewChange.Collector.GetM3Bitmap | consensus/view_change_construct.go:140-153 | the aggregate and bitmap testify for exactly the view signers |
| ViewChange.Collector.ConstructNewView | consensus/view_change_msg.go:103-131 | a NEWVIEW exists exactly if there are M3 signatures, and carries what the collector holds |
| ViewChange.Collector.OnViewChange | consensus/view_change.go:347-443 | opens the view, adds its own signatures and takes the message; a NEWVIEW is built exactly if the message was accepted while changing views, M3 has quorum and the prepared-block gate is passed; its collector stays true |
| ViewChange.OnNewView | consensus/view_change.go:446-555 | accepts exactly the messages that pass every check |
| ViewChange.NewViewAccepted | consensus/view_change_construct.go:156-225 | what an honest leader builds passes an honest receiver exactly if the receiver's verifier accepts the block filed under the payload's hash |
| ViewChange.NeedsM1Means | consensus/view_change.go:475-526 | M3 signers outnumber M2 signers exactly if there is an M1 signature |
| ViewChange.Collector.CheckM1 | consensus/view_change_construct.go:256-283 | accepts exactly M1 messages with a verified block, a signature of the sender on the payload and a certificate with quorum |
| ViewChange.FirstM1Commits | consensus/view_change_construct.go:315-333 | after the first M1 message the payload's block is found exactly if the message brought it or it was known |
| ViewChange.LoggedBack | consensus/view_change_construct.go:292-333 | what is logged of the first M1 message reads back as its payload, for its view and block number, and its block is filed |
| ViewChange.MixedM1Refused | consensus/view_change_construct.go:256-284 | an M1 message with another block than its payload's, from which a NEWVIEW is built that is refused |
| ViewChange.OutsideSenderBreaks | consensus/view_change_construct.go:336-376 | a message from outside the committee after which signatures and bits disagree |
| ViewChange.CountSigners | crypto/bls/mask.go:258-269 | with distinct keys the enabled count is the number of masked keys |
| Staking.TakeLocked | core/staking_verifier.go:263-279 | takes up to the wanted amount from the leading unlocked entries |
| Staking.ConsumedOldestFirst | core/staking_verifier.go:263-279 | what is taken is whole oldest entries and a part of the next, nothing else |
| Staking.AddDelegation | core/staking_verifier.go:306-328 | computes what AddedFields describes, with a sanity check after each change |
| Staking.VerifyAndDelegateFromMsg | core/staking_verifier.go:217-345 | computes what DelegateFields describes, and the errors that DelegateAccepted rules out |
| Staking.Undelegate | staking/types/delegation.go:123-153 | merges with the entry of the epoch or appends and sorts, as UndelegatedFields describes; errors included |
| Staking.StableSortedSorted | staking/types/delegation.go:143-149 | the sort gives an ordered list with the same total |
| Staking.StableSortedStable | staking/types/delegation.go:143-149 | it permutes the entries and keeps the order within each epoch |
| Staking.SortedUnlocked | core/staking_verifier.go:263-279 | in an ordered list the leading unlocked entries are all the unlocked ones |
| Staking.VerifyAndUndelegateFromMsg | core/staking_verifier.go:352-393 | the delegator's first delegation is undelegated; a low self-delegation only deactivates |
| Staking.VerifyAndCollectRewardsFromDelegation | core/staking_verifier.go:401-435 | collects the rewards of all listed delegations, errors included |
| Staking.AddDelegationIndex | core/blockchain.go:3043-3075 | computes what IndexAddedFields describes |
| StakingValue.RedelegationClosedForm | core/staking_verifier.go:244-293 | the deduction is what the unlocked tokens do not cover, given greedily in list order, and the written copies lost exactly what they gave |
| StakingValue.LockedAccounted | core/staking_verifier.go:239-345 | deduction plus recorded locked tokens equals the amount exactly if no validator gives twice |
| StakingValue.ListedDrained | core/staking_verifier.go:244-293 | with distinct validators each listed wrapper loses exactly its recorded amount, oldest first |
| StakingValue.UnlistedKept | core/staking_verifier.go:244-293 | a validator that is not listed keeps its wrapper |
| StakingValue.DelegateConserves | core/state_transition.go:456-505 | a delegation keeps liquid plus staked tokens exactly if no validator gives twice |
| StakingValue.CreateConserves | core/state_transition.go:427-442 | creating a validator keeps them: the validator pays its amount, which is the one delegation of an active wrapper, and nothing else changes |
| StakingValue.UndelegateConserves | core/state_transition.go:507-515 | undelegating keeps them |
| StakingValue.CollectConserves | core/state_transition.go:517-547 | collecting keeps them exactly if no emptied copy is overwritten |
| StakingValue.RunConserves | core/state_transition.go:427-547 | over any run of staking steps the supply never shrinks, and is constant exactly if no step overwrites a giving copy |
| StakingValue.DistinctRunConserves | core/state_transition.go:427-547 | so it is constant when every index list names each validator once |
| StakingValue.IndexKeepsDistinct | core/blockchain.go:3043-3075 | recording a new validator keeps a list distinct exactly if the validator lists the delegator at most once |
| StakingValue.RecordedRunConserves | core/blockchain.go:3043-3075 | with the lists that the chain keeps, the supply is constant over any run |
| StakingValue.RepeatedValidatorMakesTokens | core/staking_verifier.go:244-293 | a validator listed twice gives the same tokens twice |
| StakingValue.CollectAccepted | core/staking_verifier.go:401-435 | collecting is accepted exactly if all indexes point somewhere and the total is not a multiple of 2^64 |
| StakingValue.DelegateAccepted | core/staking_verifier.go:217-345 | exactly when a delegation is accepted |
| StakingValue.RoundRewardRefused | core/staking_verifier.go:431-433 | a reward of exactly 2^64 is refused |
| StakingFields.AddedFields | core/staking_verifier.go:306-328 | each delegation of the delegator has its amount raised, or a new last one has it with no reward and no undelegations; nothing else of the wrapper changes |
| StakingFields.RedelegatedFields | core/staking_verifier.go:244-293 | using locked tokens changes nothing but undelegations |
| StakingFields.DelegateFields | core/staking_verifier.go:217-345 | an accepted delegation, field by field: after locked tokens were used, the delegatee's wrapper has the delegator's amount raised by the message's; other wrappers stay; only the delegator pays, exactly what the unlocked tokens do not cover |
| StakingFields.UndelegatedFields | staking/types/delegation.go:123-153 | the amount leaves the delegation and waits under the message's epoch, in its one entry; other epochs keep their entries |
| StakingFields.UndelegateFields | core/state_transition.go:507-515 | an accepted undelegation does so to the delegator's first delegation; the validator stays active exactly if the wrapper is still sane; nothing else and no balance changes |
| StakingFields.UndelegateAccepted | core/staking_verifier.go:352-393 | exactly when an undelegation is accepted |
| StakingFields.CollectFields | core/state_transition.go:517-547 | each listed delegation ends without reward and otherwise as it was, other wrappers stay, and the total goes to the delegator alone |
| StakingFields.IndexAddedFields | core/blockchain.go:3043-3075 | a listed validator changes nothing; another adds all positions the delegator has there, and no others; an unknown one is an error |
| Gas.IntrinsicGas | core/state_transition.go:135-171 | fails exactly if the mathematical sum exceeds 2^64 - 1, and otherwise is that sum |
| Gas.DivisionGuard | core/state_transition.go:154-168 | the guards by division fire exactly when the product would not fit |
| Gas.StateTransition.BuyGas | core/state_transition.go:220-236 | the up-front payment, in balance and pool, and its two errors |
| Gas.StateTransition.RefundGas | core/state_transition.go:314-329 | returns unused gas plus at most half of the used gas; the pool cannot overflow |
| Gas.StateTransition.Apply | core/state_transition.go:256-312 | computes the transition that AppliedWhen, BodyGets, MeteredUse and NetPaymentOf describe |
| Gas.AppliedWhen | core/state_transition.go:220-312 | a transaction is applied exactly if its nonce fits, the sender pays for the limit, the limit fits the pool and covers the intrinsic gas, and the body does not fail in a way no block can hold |
| Gas.RefusedWhy | core/state_transition.go:220-273 | each error before the body runs has its cause |
| Gas.BodyGets | core/state_transition.go:262-290 | the body runs with the limit less the intrinsic gas, after the sender paid: bodies that agree there are not told apart |
| Gas.MeteredUse | core/state_transition.go:262-320 | a body of fixed cost and refund uses intrinsic gas plus cost, up to the limit, less the refund, up to half |
| Gas.IntrinsicCharged | core/state_transition.go:267-273 | whatever the body, at least half of the intrinsic gas stays charged, and the pool loses what was used |
| Gas.NonZeroCounts | core/state_transition.go:146-153 | the loop counts the positions with a non-zero byte |
| Gas.RefundAtMostHalf | core/state_transition.go:314-320 | the refund is the refund counter or half of the gas spent, whichever is less |
| Gas.NetPayment | core/state_transition.go:256-334 | of the up-front payment exactly UsedGas times price is kept, by the beneficiary or by nobody |
| Gas.NetPaymentOf | core/state_transition.go:256-334 | account by account, gas costs the sender UsedGas times price, which the beneficiary gets unless it is burned, and nobody else anything |
| Gas.GasConserved | core/state_processor.go:164-237 | used gas plus pool is constant while a block executes |
| Gas.ProcessBlock | core/state_processor.go:164-237 | used gas plus what is left is the block's limit, over plain and staking transactions |
| Gas.BlockConserves | core/state_processor.go:164-237 | over a block balances change in total by what the bodies change, less exactly the burned fees |
| CrossShard.TransactionConserves | core/state_processor.go:310-384 | a transaction loses its fee and what its receipt promises, and its receipt goes to another existing shard |
| CrossShard.FaceValueConserves | core/state_processor.go:378-384 | at face value this holds exactly for all but creations sent to another shard |
| CrossShard.TransferSum | core/evm.go:122-129 | a same-shard transfer keeps the total, a subtraction loses exactly the amount |
| CrossShard.TransferAt | core/evm.go:122-129 | account by account: the sender loses the amount, and in a same-shard transfer the recipient gains it |
| CrossShard.AppliedWhen | core/state_processor.go:310-384 | accepted exactly if the transaction is routed and its sender can pay for gas and amount |
| CrossShard.AppliedAt | core/state_processor.go:310-384 | account by account: sender, recipient and nobody else; a receipt with recipient, shard and amount exactly if the amount leaves the shard |
| CrossShard.BatchJoin | core/state_processor.go:164-215 | transactions continue where the ones before ended, and receipts keep their order |
| CrossShard.ValidateCXReceiptsProof | core/block_validator.go:236-295 | passes exactly if receipts, roots, header and signature fit together |
| CrossShard.ValidExactly | core/block_validator.go:236-295 | a proof with a block's header passes exactly if it carries that block's receipts to one shard |
| CrossShard.MadeProofPasses | core/blockchain.go:2433-2455 | every proof the source makes for a destination with receipts passes and is marked by its header |
| CrossShard.ShardChain.VerifyIncomingReceipts | node/node_cross_shard.go:123-163 | accepts exactly unspent, valid proofs addressed here with distinct block hashes |
| CrossShard.ShardChain.ApplyIncomingReceipts | core/state_processor.go:437-461 | credits every receipt of every proof, or fails on one without recipient |
| CrossShard.ShardChain.CommitBlock | core/offchain.go:45-68 | stores each destination's receipts and marks exactly the incoming proofs spent |
| CrossShard.ShardChain.CXMerkleProof | core/blockchain.go:2433-2455 | lists exactly the destinations with receipts, in order |
| CrossShard.GetToShardReceipts | core/types/cx_receipt.go:109-118 | the receipts to one shard, in order |
| CrossShard.ToShardJoin | core/types/cx_receipt.go:109-118 | selecting a destination keeps the order and selects exactly its receipts |
| CrossShard.CreditSum | core/state_processor.go:437-461 | crediting adds exactly what receipts promise and works exactly if all have a recipient |
| CrossShard.CreditAt | core/state_processor.go:437-461 | account by account, each gets what the receipts to it promise |
| CrossShard.CreditProofsAt | core/state_processor.go:437-461 | so for all proofs of a block |
| CrossShard.StepExactly | core/offchain.go:45-68 | a block keeps balances plus uncredited receipts plus fees exactly if its spent marks close what it credits |
| CrossShard.ExchangedMarks | core/rawdb/accessors_offchain.go:124-133 | two proofs that carry each other's marks keep it as well |
| CrossShard.StepConserves | core/offchain.go:45-68 | it does if its proofs are marked by their headers |
| CrossShard.CrossShardConservation | core/blockchain.go:2433-2473 | so does every run of such blocks over all shards |
| CrossShard.CreditedOnce | node/node_cross_shard.go:123-150 | in such a run a block's receipts to a shard are credited at most once, and only there |
| CrossShard.CreditedAgain | core/blockchain.go:2468-2473 | any block with one proof can be followed by one that credits the same receipts under another number |
| CrossShard.CreationReceiptBlocks | core/state_processor.go:446-450 | a block with a receipt without recipient is never credited on that receipt's shard |
| Rewards.ShareEven | hmy/blockchain.go:134-145 | every slot gets the floor or the ceiling of an equal share |
| Rewards.OwedEven | hmy/blockchain.go:134-145 | an address gets between floor and ceiling for each of its slots |
| Rewards.PaySigners | hmy/blockchain.go:132-145 | per address what its slots are owed, in total exactly the reward |
| Rewards.GetPreStakingBlockRewards | hmy/blockchain.go:132-181 | rewards add up to the block reward plus the fees, which go to the leader; a missing receipt is an error |
| Rewards.FeesJoin | hmy/blockchain.go:147-176 | fees add up over the transactions, each its price times its gas |
| ChainIndexer.Indexer.SetValidSections | core/chain_indexer.go:460-472 | heads at or above the new count are removed, others kept |
| ChainIndexer.Indexer.NewHead | core/chain_indexer.go:242-303 | computes what ReorgForgets and HeadConfirms describe |
| ChainIndexer.ReorgForgets | core/chain_indexer.go:246-268 | after a reorganisation no section from the head's on is known or stored, and all others are as before |
| ChainIndexer.HeadConfirms | core/chain_indexer.go:270-302 | after a new head exactly the sections known before or with their last header confirmed often enough are known, and nothing else changes |
| ChainIndexer.Indexer.FinishSection | core/chain_indexer.go:352-374 | a processed section is stored exactly if its predecessor is unchanged |
| ChainIndexer.FinishStores | core/chain_indexer.go:352-374 | exactly then the head is stored under its section and the count grows by one; otherwise known falls back to stored |
| ChainIndexer.ProcessSection | core/chain_indexer.go:389-419 | succeeds exactly if every header exists, continues the last one and is processed |
| ChainIndexer.NextKeepsInv | core/chain_indexer.go:320-370 | every interleaved step keeps stored heads linked |
| ChainIndexer.HeadsLinked | core/chain_indexer.go:320-419 | in every interleaving heads are stored exactly below the count, and head k ends a hash-linked run of (k + 1) sections of headers |
| HDPath.ParseDerivationPath | accounts/hd.go:68-118 | computes the specified result, errors included |
| HDPath.Print | accounts/hd.go:122-136 | computes the specified text |
| HDPath.RoundTrip | accounts/hd.go:68-136 | parsing the printed form gives the path back exactly for non-empty paths |
| HDPath.PrintInjective | accounts/hd.go:122-136 | paths with the same text are the same |
| HDPath.Canonical | accounts/hd.go:68-136 | every accepted text has a non-empty path whose printed form parses to it |
| HDPath.RelativeToRoot | accounts/hd.go:68-90 | a relative text means the default root followed by that text |
| HDPath.DefaultRoot | accounts/hd.go:28-31 | the default root is written m/44'/60'/0'/0 |
| HDPath.UnsignedMeans | accounts/hd.go:99-102 | the base a prefix chooses, exactly which digits and underscores are accepted, and the number they denote by position |
| HDPath.NumberMeans | accounts/hd.go:99-102 | a sign before a number |
| HDPath.PlainComponent | accounts/hd.go:88-115 | white space around a component does not matter; its number is its value, and what is out of range is refused as such |
| HDPath.HardenedComponent | accounts/hd.go:93-115 | a quote, with white space before it, adds the hardened offset and narrows the range |
| HDPath.TrimExactly | accounts/hd.go:89-96 | trimming removes the white space at both ends and nothing else |

## Left out

- Reinjection of transactions when the pool's head reorganises; a new head's parent is the old head.
- Pool lists as shared objects: the pool keeps their contents and loads a list for each operation, so caches and the staking-check schedule do not carry over between operations (the schedule is the parameter `due`).
- 64-bit wrap-around of nonces, block numbers and epochs, which are unbounded here.
- The pool's stale counter as an exact count; only that live entries keep a heap entry.
- TxPools.TxPool.MakeRoom: how many transactions leave is not stated, since a transaction added again has two heap entries.
- TxPools.TxPool.ValidateTx: the checks that read more than the pool's own data (shard, freeze state, size, sign of the value, blacklist, intrinsic gas, staking messages) are one parameter that is tried last, so the order of errors among them and the others is not modelled.
- The dereference of a missing recipient in `validateTx`, the error sink, journal, events and metrics of the pool.
- MigrationValue.ValueConserved: that migrations start from an address's home, one at a time, that blocks change only accounts at home on their shard, and that nodes handle blocks in step are rules of the surrounding system (`Disciplined`), which this code does not enforce.
- Liveness of the migration: time-outs, retries, channels and lost messages; followers that never answer leave a task unfinished.
- The coordinator's follower-type field, which concurrent migrations share.
- Agreement across views: the collector keeps the first M1 payload, so it does not follow from this code.
- Bitmap bytes, which are sequences of booleans here, and BLS, hashing, RLP and protobuf.
- Staking edits of a validator, payout of unlocked tokens at the end of an epoch, slashing, and the reward distribution of the staking era.
- The inside of the virtual machine: a transaction's body is any function that returns no more gas than it got.
- CrossShard.TransactionConserves: a transaction's body is one transfer.
- CrossShard.CrossShardConservation: fees are counted as they leave the sender, whoever receives them.
- CrossShard.ValidateCXReceiptsProof: the destinations and their roots are one list of pairs, so lists of different length, on which the code panics, do not occur.
- ViewChange.OnNewView: a payload shorter than a hash is rejected, where the code panics.
- ChainIndexer.NextKeepsInv: the section reset after a backend failure, which runs outside the lock, is one step.
- Checkpoints and child indexers.
- JSON forms of derivation paths.
