# Verified core of the MATRIX test network

MATRIX is a fork of go-ethereum. This project models the parts of it where several
structures, or several goroutines, have to agree with each other over every run, and
proves that they do. Verify it with `dafny verify dfyconfig.toml`.

**Transaction pool** (`Heap`, `Transactions`, `TxSortedMap`, `TxList`, `TxPriced`,
`AccountBook`, `PoolViews`, `TxPool`, `PoolLevels`, `PoolOverflow`, `PoolCourses`, `PoolRuns`,
`PoolEvents`). The per-account lists are a map, a nonce heap and a sorted cache; the pool has
pending and queued lists, a lookup of all transactions and a price heap that is cleaned lazily.
The invariant `PoolViews.Inv` says that the lookup is exactly the disjoint union of the pending
and the queued transactions, that an account's pending and queued nonces are disjoint, and
that every list is non-empty and holds only its own sender's transactions. Every operation
keeps it and is stated as a function of the pool before. The overflow pass is proved to be a
fair share: one level for all, and no higher level fits. Over any sequence of offers, new heads,
ticks, price changes and removals every event has its effect, and the pool holds only what was
there, was offered, or was in an abandoned block. At a new head nothing that is still good is
lost, of the pool or of the abandoned blocks, unless there is no room or another transaction has
its nonce.

**Binary Merkle tree hash** (`Bmt*`). The concurrent hasher is a state machine in which every
goroutine's store, test of the mark, toggle and combine is a step of its own. On a tree that is
ready for the job, for all data and all schedules, the result is the recursive reference hash,
no schedule gets stuck, every schedule ends within a stated number of steps, and the tree is
left clean, with two counts more in every node in which two goroutines met. A tree is ready if
and only if no such node has a negative counter; that is so for its first 2^30 jobs.

**Chains** (`ChainTree`, `HeaderChain`, `BlockChain`, `HashFn`). Total difficulties are sums
along the ancestry, the canonical index is the chain to the head, the caches hold nothing
that is not in the database, and the transaction lookup index is that of the canonical chain,
through forks and reorganisations. A hash is modelled as the value it was computed from, so
that it is free of collisions and a block determines its ancestors.

**Event feed** (`Feed`). Sending, subscribing and unsubscribing as a state machine.

**Gas** (`Sums`, `Gas`, `StateTransition`, `Transfers`, `StateProcessor`, `BlockWork`,
`PackTraces`). What a message costs the pool and the world, what it pays to whom, what a block
uses, which transactions of the queues get into it and why the others do not, and when a block
packed from the pool is accepted as it is processed: always, if and only if both are done for the
same beneficiary. The virtual
machine is a function of beneficiary and gas price, the state, the payment and the gas, and is
only asked not to return more gas than it was given.

**Block production** (`BlockProcess`, `PowPool`), **election** (`Election`) and **derivation
paths** (`DerivationPath`).

Five places were found where a property that one would expect fails, and each is stated with
the exact condition under which it holds:

- `BlockWork.AcceptedIff`: a block is packed for one beneficiary, in the leader's and the
  validators' case the zero address (matrixwork/work.go:239, :284), and processed for the
  coinbase of its header (core/state_processor.go:72, core/evm.go:39-45), which is the miner's and
  set after the packing (blockgenor/process_block.go:343). A contract can read it, so
  that the same transactions give another state or use other gas, and the block is refused;
  `BlockWork.BeneficiaryExample` has such a machine and call.
- `PoolRuns.CurrentInFull`: a one-to-many transaction is let in if the balance covers all its
  payments (core/tx_pool.go:1651-1656), but stays pending as long as it covers the first
  (core/tx_list.go:314, core/types/transaction.go:557); `PoolRuns.UncoveredExample` has one that
  stays and would not be let in.
- `BmtWear.PairOff`: the toggle of a node is a 32-bit counter, and the remainder by two of a
  negative odd number is not one. After 2^30 jobs on one tree the counter of a node in which two
  goroutines met every time is negative, and both go on; `BmtWear.WornExample` has a schedule
  that takes the left half alone for the result.
- `BmtHasher.Hasher.Write`: a write can go past the capacity of the hasher, and one after that
  slices out of range.
- `StateTransitions.GasConserved`: a message with a further payment whose intrinsic gas overflows
  counts as a success that used no gas. This is a flaw of the text only: such a payload has at
  least about 2^58 bytes, which no process holds and which the pool refuses
  (core/tx_pool.go:1607-1611).

In one place a comment of the source and its code disagree: the queue overflow is announced as
dropping the oldest transactions, but the code takes the accounts with the latest heartbeat
first; the model follows the code.

Invariants of objects are often written under a guard such as
`forall k {:trigger UnfoldPool(k)} :: UnfoldPool(k) ==> ...`. The guard is always true; a proof
sees the definition only where it mentions the guard, which keeps the proofs small.

## Model

| member | source | states |
|---|---|---|
| Heap.RootIsLeast | core/tx_list.go:31-49 | In every heap the root has the least rank. |
| Heap.Push | core/tx_list.go:73-80 | Pushing keeps the heap order and adds exactly the new element. |
| Heap.Pop | core/tx_list.go:84-98 | Popping returns the root, a least element, and leaves a heap of the others. |
| Heap.Remove | core/tx_list.go:152-169 | Removing at a position leaves a heap of all the other elements. |
| Heap.Init | core/tx_list.go:102-123 | Any sequence becomes a heap of the same elements. |
| TxSortedMaps.TxSortedMap.Put | core/tx_list.go:73-80 | The map with the transaction under its nonce; index and cache keep representing it. |
| TxSortedMaps.TxSortedMap.Forward | core/tx_list.go:84-98 | Exactly the nonces below the threshold leave, in increasing order. |
| TxSortedMaps.TxSortedMap.Filter | core/tx_list.go:102-123 | Exactly the selected transactions leave; the rest is represented anew. |
| TxSortedMaps.TxSortedMap.Cap | core/tx_list.go:127-148 | The lowest nonces stay, as many as allowed; exactly the highest leave. |
| TxSortedMaps.TxSortedMap.Remove | core/tx_list.go:152-169 | One nonce leaves, and the answer says whether it was there. |
| TxSortedMaps.TxSortedMap.Ready | core/tx_list.go:178-209 | The whole map is emptied, whatever the gaps, in strictly increasing nonce order. |
| TxSortedMaps.TxSortedMap.Flatten | core/tx_list.go:218-231 | All transactions in nonce order; the cache is nil or exactly that. |
| Transactions.ListsUnique | core/tx_list.go:218-231 | A map has only one listing in nonce order, so the cache cannot differ from it. |
| Transactions.ListsAscending | core/tx_list.go:218-231 | A listing is strictly increasing in nonces. |
| TxLists.TxList.Add | core/tx_list.go:266-287 | Accepted exactly if the nonce is free or the price is higher and at least the bump above; returns what it displaced. |
| TxLists.TxList.Filter | core/tx_list.go:305-328 | With cached caps the same as an uncached scan: what is unpayable goes, in strict mode what is above the lowest of it is set aside, the rest stays. |
| TxLists.TxList.Forward | core/tx_list.go:292-294 | Nonces below the threshold leave; the caps stay bounds. |
| TxLists.TxList.Cap | core/tx_list.go:333-335 | Only the highest nonces leave. |
| TxLists.TxList.Remove | core/tx_list.go:340-351 | Removes by nonce; in strict mode everything above it is set aside. |
| TxLists.LowestRemoved | core/tx_list.go:305-328 | What a strict filter leaves lies below the lowest nonce it removed. |
| TxPriced.PriceRankFaithful | core/tx_list.go:388-398 | The rank used for the price heap orders transactions as the comparison by price, then nonce, does. |
| TxPriced.StalesBound | core/tx_list.go:414-419 | The counter of stale entries is never below their number. |
| TxPriced.TrackedCounts | core/tx_list.go:414-419 | stales >= entries - live transactions >= stale entries >= 0, and every live transaction has an entry. |
| TxPriced.TxPricedList.Put | core/tx_list.go:429-432 | The heap tracks the new transaction too. |
| TxPriced.TxPricedList.Removed | core/tx_list.go:436-451 | One more stale entry; once they may be more than a quarter the heap is rebuilt with exactly the live ones; it tracks what is left either way. |
| TxPriced.TxPricedList.Cap | core/tx_list.go:455-482 | Returns exactly the remote transactions below a price; the heap tracks the others. |
| TxPriced.TxPricedList.Underpriced | core/tx_list.go:486-508 | True exactly if there is a live transaction and none is cheaper; never for a local sender. |
| TxPriced.TxPricedList.Discard | core/tx_list.go:512-535 | The cheapest remote entries, up to the number asked for, an entry as often as the heap has it; the heap tracks the other transactions. |
| TxPriced.DoubleExample | core/tx_list.go:512-535 | A transaction that left the pool and came back can have two entries, and two dropped entries are then one dropped transaction. |
| TxPriced.CheapestFirst | core/tx_list.go:512-535 | The root of the heap, once it is live, is as cheap as any live transaction. |
| TxLists.OutbidsIff | core/tx_list.go:266-275 | A replacement needs a higher price that is less than one unit short of the old price with the bump. |
| PoolViews.UpdateKeeps | core/tx_pool.go:1692-1828 | Changing one account's lists and the lookup together keeps the pool invariant if the new lists are the account's own, disjoint, and exactly its part of the lookup. |
| PoolViews.RemovedKeeps | core/tx_pool.go:2017-2060 | Removing one transaction keeps the invariant and takes only that one out of the lookup. |
| PoolViews.RemovedWhere | core/tx_pool.go:2017-2060 | After a removal every other transaction is where it was, but those that were pending behind the one removed are queued. |
| PoolViews.PromotedKeeps | core/tx_pool.go:2077-2120 | Promoting an account keeps the invariant. |
| PoolViews.DemotedKeeps | core/tx_pool.go:2261-2312 | Demoting an account keeps the invariant: the lookup without what is too old or unpayable is still exactly the union of the lists. |
| PoolViews.GroundedOrStranded | core/tx_list.go:305-328 | A strict filter splits a list in what is removed, what is set aside and what stays. |
| TxPools.TxPool.EnqueueTx | core/tx_pool.go:1833-1858 | The queue takes the transaction exactly if its nonce is free or outbid; lookup and price heap follow. |
| TxPools.TxPool.PromoteTx | core/tx_pool.go:1874-1908 | The pending list takes it exactly if its nonce is free or outbid, and the account's heartbeat is then now; else it leaves the pool. |
| TxPools.TxPool.RemoveTx | core/tx_pool.go:2017-2060 | Exactly the one transaction leaves; what was pending above it is queued again, none of it lost. |
| TxPools.TxPool.PromoteAccount | core/tx_pool.go:2077-2120 | The account's queue moves to its pending list but for what is too old or unpayable; its heartbeat is now exactly if something moved. |
| TxPools.TxPool.DemoteAccount | core/tx_pool.go:2265-2311 | What is too old or unpayable goes, what is stranded behind it is queued again. |
| TxPools.TxPool.SetGasPrice | core/tx_pool.go:1010-1019 | Exactly the remote transactions below the new price leave. |
| TxPools.TxPool.MakeRoom | core/tx_pool.go:1755-1770 | In a full pool: refused exactly if remote and no live transaction is cheaper; else the cheapest remote ones go, as many as are over the limit, or all that are left, or fewer if one of them had two entries in the price heap. |
| TxPools.TxPool.Place | core/tx_pool.go:1771-1828 | Over the pending transaction with its nonce, else into the queue, exactly if it outbids what is there. |
| TxPools.TxPool.Add | core/tx_pool.go:1692-1828 | The outcome of an offer case by case, the balance having to cover all payments of it, and the pool after it. |
| WaterLevels.FillingRound | core/tx_pool.go:2172-2190 | One round over all offenders lowers the common level by one. |
| WaterLevels.FairShareUnique | core/tx_pool.go:2145-2215 | The fair share is determined by the pool before: no order of the accounts can change it. |
| PoolOverflow.EqualizePending | core/tx_pool.go:2145-2215 | There is one level, at least the guaranteed slots, such that every remote account keeps the lower of its list and the level, lowest nonces first; then the pool fits or nobody has more than the guaranteed slots; and one level higher would not have fitted. |
| PoolOverflow.Round | core/tx_pool.go:2172-2190 | The running counter stays the true number of pending transactions. |
| PoolOverflow.TrimQueue | core/tx_pool.go:2216-2258 | The queue is cut to exactly the limit, or to local accounts only; an account loses transactions only after all remote ones active later lost all of theirs. |
| PoolRuns.PromoteExecutables | core/tx_pool.go:2065-2258 | Every account given is promoted on its own, then the pending slots are shared fairly and the queue is trimmed; nothing new comes in. |
| PoolRuns.DemoteUnexecutables | core/tx_pool.go:2261-2312 | Every account is demoted on its own, whatever the order; nothing new comes in. |
| PoolRuns.AddTx | core/tx_pool.go:1938-1952 | The outcome of an offer case by case, with its checks and whether it is local; then a promotion of the sender exactly if a new transaction came in. |
| PoolRuns.AddTxs | core/tx_pool.go:1964-1987 | The offers one after the other, each with its outcome case by case, then one promotion of the senders of the new ones. |
| PoolCourses.BatchKept | core/tx_pool.go:1964-1987 | What was in the pool, or is offered and passes the checks, is in it after a batch of offers, unless it made room or another has its sender and nonce. |
| PoolRuns.Rebase | core/tx_pool.go:950-977 | In the state of a new chain head: every abandoned transaction is offered again, in order and each with its outcome, then every pending account is demoted, then every queued one promoted; at the end the queue is empty and every pending transaction is current and payable as far as its first payment goes. |
| PoolCourses.Survives | core/tx_pool.go:950-977 | A transaction of the old pool that is neither too old nor unpayable, or one of an abandoned block that passes all checks, is pending at the new head, unless it made room, another has its sender and nonce, or the fair share or the trimming cut it off. |
| PoolCourses.NoneLost | core/tx_pool.go:950-977 | If the old pool and the abandoned transactions together fit the limits, none of them is lost: it is pending, unless another has its sender and nonce. |
| PoolCourses.BookSize | core/tx_pool.go:2145-2150 | The lists of a book have no more transactions than the lookup. |
| PoolRuns.CurrentInFull | core/tx_list.go:305-328 | A pending transaction would be let in again if and only if the balance covers what it pays on top, too, and its price is not below the floor; with one payment only the price decides. |
| PoolRuns.UncoveredExample | core/tx_list.go:314 | For every one-to-many transaction and every balance between its first payment and all of them: demotion leaves it pending, though it would not be let in. |
| PoolRuns.Discard | core/tx_pool.go:1448-1530 | Exactly the one transaction leaves, what was pending behind it is queued again. |
| PoolEvents.Abandoned | core/tx_pool.go:910-943 | Exactly the transactions of the old branch, from its head down to the fork, that the new branch does not have; no answer if and only if the two chains nowhere meet without a gap above. |
| PoolEvents.Reset | core/tx_pool.go:898-977 | Nothing happens if and only if the state is missing, or the chains are compared and do not meet; else the pool goes through `Rebase` with exactly the abandoned transactions; below the limits none that should be kept is lost. |
| PoolEvents.HandleAll | core/tx_pool.go:392-560 | For every sequence of offers, new heads, ticks, price changes and removals: each has its effect on what the one before it left, the three views stay in step, and the pool holds only what was there, was offered or was on an abandoned chain. |
| PoolRuns.Status | core/tx_pool.go:1991-2008 | The status by nonce alone is right, because pending and queued nonces are disjoint. |
| PoolRuns.Evict | core/tx_pool.go:534-547 | Exactly the queues of remote accounts idle for too long go. |
| BmtReference.RefHasher.constructor | bmt/bmt_r.go:39-54 | The span is the largest power of two of segments below the count, so twice the span covers the capacity. |
| BmtReference.RefHasher.Hash | bmt/bmt_r.go:59-85 | The halving loop and the recursion compute the reference hash of the data up to the capacity. |
| BmtReference.RefHashIsTree | bmt/bmt_r.go:67-85 | The reference hash is the value of the binary tree over the double segments. |
| BmtTree.Depth | bmt/bmt.go:519-524 | The least depth with a leaf for every two segments. |
| BmtTree.NewTree | bmt/bmt.go:253-275 | Exactly the nodes whose path ends in the root, all counters zero, no marks, one root. |
| BmtProof.StoreKeeps | bmt/bmt.go:461-468 | Storing a half keeps the invariant of the hasher. |
| BmtProof.TestKeeps | bmt/bmt.go:469-471 | Reading the mark keeps it: a node is seen unbalanced exactly if it has no right half. |
| BmtProof.Pairing | bmt/bmt.go:507-509 | From an even 32-bit counter the first of two goroutines stops and the second goes on, if and only if the counter is not negative; else both go on. |
| BmtProof.ToggleKeeps | bmt/bmt.go:469-471 | Of two goroutines meeting in a node whose counter was not negative before the job, the first leaves its half behind and the second goes on. |
| BmtProof.ValueRight | bmt/bmt.go:472-481 | The value computed in a node is the value of the data below it. |
| BmtProof.ValueKeeps | bmt/bmt.go:440-492 | Computing a value and climbing, or sending the result, keeps the invariant. |
| BmtMain.WritingKeeps | bmt/bmt.go:356-367 | Starting a goroutine for a leaf keeps the invariant. |
| BmtMain.MarkKeeps | bmt/bmt.go:528-545 | Marking the last path while other goroutines run keeps the invariant. |
| BmtMain.LaunchKeeps | bmt/bmt.go:292-306 | Starting the last goroutine keeps the invariant. |
| BmtRuns.NobodyLeft | bmt/bmt.go:461-492 | When the result is out no goroutine is left. |
| BmtRuns.ReleasedNode | bmt/bmt.go:423-438 | After the release every node is unmarked with an even counter: two more where two goroutines met, in 32 bits, and the same elsewhere. |
| BmtRuns.EveryRun | bmt/bmt.go:292-306 | Over every schedule on a tree that is ready: a result is the value of the tree over the segments, and a finished run leaves no goroutine and a clean tree, every counter exactly two or nothing higher. |
| BmtRuns.NoDeadlock | bmt/bmt.go:461-492 | No schedule on a tree that is ready gets stuck before the run is finished. |
| BmtTermination.Terminates | bmt/bmt.go:461-492 | Every schedule has at most n + h + 3 + n * 4(h + 1) steps for n double segments and height h. |
| BmtTermination.TerminatesAnyway | bmt/bmt.go:461-492 | On a tree with any counters every schedule still ends, within n + d + 4 + n * 4(d + 2) steps for depth d. |
| BmtWear.GoodFor | bmt/bmt.go:507-509 | Counted twice for every job, a new counter is not negative for exactly the first 2^30 jobs. |
| BmtWear.SomeClash | bmt/bmt.go:461-492 | If a node in which two goroutines meet has a negative counter, some schedule lets two of them go on from one node. |
| BmtWear.PairOff | bmt/bmt.go:461-509 | Under every schedule one goroutine goes on from each node, if and only if no node in which two meet has a negative counter before the job. |
| BmtWear.WornExample | bmt/bmt.go:461-509 | A tree after 2^30 jobs, whatever they left in its nodes, two double segments and ten steps: the result taken is the hash of the left half alone, while the other goroutine is still on its way. |
| BmtRefinement.RootIsReference | bmt/bmt.go:461-492 | The value of the tree over the double segments of some data is the reference hash of the data. |
| BmtHasher.Hasher.constructor | bmt/bmt.go:90-99 | A new hasher has a clean tree and no data. |
| BmtHasher.Hasher.Write | bmt/bmt.go:333-372 | The leaves hold exactly the data taken, cut into double segments; what is taken is what the capacity allows, if and only if the write does not overrun; a further write panics exactly on a hasher that has overrun. |
| BmtHasher.Hasher.TakenExactly | bmt/bmt.go:333-372 | A write overruns exactly if the segment count is odd, a leaf other than the last has an open segment, and the data goes past the capacity. |
| BmtHasher.OverrunExample | bmt/bmt.go:333-372 | Two writes that leave four bytes in a hasher for three. |
| BmtHasher.Hasher.Sum | bmt/bmt.go:292-318 | On a tree that is ready, and so for the first 2^30 jobs: under any schedule the hash is the reference hash of the data written, and the hasher is ready for new data, each counter tallied. |
| BmtHasher.Hasher.ReadyAtFirst | bmt/bmt.go:507-509 | A tree is ready for any job while it has seen fewer than 2^30. |
| BmtHasher.Hasher.NotReadyAfter | bmt/bmt.go:507-509 | After 2^30 jobs with two goroutines in a node it is not ready for another such job. |
| BmtHasher.Execute | bmt/bmt.go:292-306 | A run under an arbitrary schedule ends, finished or with nobody able to move; on a tree that is ready, with the value of the tree. |
| BmtHasher.HashAll | bmt/bmt.go:292-318 | One hasher gives the reference hash for each of up to 2^30 pieces of data. |
| BmtHasher.BothHash | bmt/bmt_r.go:59-65 | Both hashers agree on all data written at once, for every segment count: the reference hash of the data up to the capacity. |
| ChainTree.LineLinked | core/headerchain.go:141-207 | A chain by number is linked from parent to parent down to the genesis block. |
| HeaderChains.HeaderChain.constructor | core/headerchain.go:76-116 | A chain of the genesis block alone, with empty caches. |
| HeaderChains.HeaderChain.GetTd | core/headerchain.go:338-350 | The total difficulty in the database, which is the sum along the ancestry, from the cache or not; for a wrong number the cache may still answer, but never wrongly. |
| HeaderChains.HeaderChain.GetHeader | core/headerchain.go:372-384 | The header in the database, from the cache or not. |
| HeaderChains.HeaderChain.GetBlockNumber | core/headerchain.go:120-130 | The number in the database, from the cache or not. |
| HeaderChains.HeaderChain.HasHeader | core/headerchain.go:397-402 | Never misses a header in the database, and never claims one that is not there under its own number. |
| HeaderChains.HeaderChain.ClearFrom | core/headerchain.go:165-172 | Exactly the canonical entries from a number on go. |
| HeaderChains.HeaderChain.Rewrite | core/headerchain.go:173-185 | The loop down from the new parent ends at the common ancestor and leaves the chain to that parent in the index. |
| HeaderChains.HeaderChain.WriteHeader | core/headerchain.go:141-207 | Refused exactly if the parent is unknown; the head changes exactly if the new one is heavier, or as heavy and the coin says so; the index stays the chain to the head with nothing above, and the head the heaviest header. |
| HeaderChains.HeaderChain.InsertHeaders | core/headerchain.go:285-311 | All headers become known, up to the first whose parent is unknown. |
| HeaderChains.HeaderChain.InsertAll | core/headerchain.go:285-311 | Over any number of imports: the head is the heaviest header known, the canonical index is its chain, and no header is forgotten. |
| HeaderChains.HeaderChain.SetHead | core/headerchain.go:434-467 | The canonical index is the chain to the new head and nothing above, exactly the headers of the old chain above it are gone; the chain stays sound if and only if before the call no header off the old chain had its parent among those, and none was heavier than the new head. |
| HeaderChains.HeaderChain.Canonical | core/headerchain.go:141-207 | An entry at every number up to the head and none above, each linked to the one before. |
| BlockChains.BlockChain.constructor | core/blockchain.go:148-228 | A chain of the genesis block alone. |
| BlockChains.BlockChain.Insert | core/blockchain.go:527-549 | The block becomes the head of a linked canonical chain; the other heads follow unless it was on the index already. |
| BlockChains.BlockChain.WriteTxLookupEntries | core/rawdb/accessors_indexes.go:45-60 | One entry for every transaction of a block. |
| BlockChains.BlockChain.FindFork | core/blockchain.go:1536-1577 | The two branches down to a common ancestor; never an error if no ancestor is missing. |
| ChainTree.TxDifference | core/types/transaction.go:583-600 | Exactly the transactions of the first list that are not in the second. |
| BlockChains.Reindexed | core/blockchain.go:1588-1605 | Writing the entries of the new branch and deleting those of dropped transactions gives the index of the new chain, if no transaction repeats on the old one. |
| BlockChains.BlockChain.Reorg | core/blockchain.go:1509-1618 | On success the canonical index is the chain to the new block; an error changes no canonical entry, no head and no lookup entry. |
| BlockChains.PreferredIsNew | core/blockchain.go:1018-1036 | A block preferred to the head is not on the canonical index, not even as a left-over entry above the head, if blocks have positive difficulty; so `insert` moves all heads. |
| BlockChains.ForkChoice | core/blockchain.go:1018-1036 | Of two blocks the heavier is preferred; with equal totals the one with the lower number, and exactly one of the two whatever the coins; with equal totals and numbers the coin decides. |
| BlockChains.BlockChain.WriteBlockWithState | core/blockchain.go:936-1056 | The outcome case by case, with failures of the commit and of the batch and the rule of the fork choice written out; the canonical chain stays linked up to the current block, which gets no lighter; with positive difficulties the lookup index stays exact and the header and fast-sync heads stay the current block, even after a failure; after a write that succeeds the current block is still the heaviest; without failures nothing but an unknown parent or the same block is refused. |
| BlockChains.BlockChain.WriteBlockWithoutState | core/blockchain.go:923-933 | Block and total difficulty are stored, the canonical chain is untouched. |
| BlockChains.BlockChain.StorePruned | core/blockchain.go:1298-1310 | Stored without state exactly if its branch is lighter than the current block, which stays the heaviest. |
| BlockChains.BlockChain.TakeAll | core/blockchain.go:923-1056 | Over any sequence of writes, failing ones among them: canonical index, lookup index and heads stay in step, the current block gets no lighter, and it is the heaviest of all if no write was given up. |
| BlockChains.BlockChain.Canonical | core/blockchain.go:527-549 | Up to the current block the canonical index is linked from block to block. |
| BlockChains.BlockChain.LookupExact | core/blockchain.go:1031-1053 | The lookup index has exactly the transactions of the canonical chain, each with its canonical block and position. |
| HashFns.AncestorIsLine | core/evm.go:62-85 | With all ancestors stored the walk finds the entry of the chain below the block, and the zero hash above. |
| HashFns.HashFn.Get | core/evm.go:62-85 | Whatever was asked before, the answer for any 64-bit number is that of a walk without memo, and the memo holds only hashes of ancestors. |
| Feeds.FindCase | event/feed.go:213-220 | The loop finds the first position of a channel, or -1 exactly if it is not there. |
| Feeds.DeleteInPlace | event/feed.go:223-225 | Deleting in the shared array moves the cases behind up by one and leaves those before, and so the active prefix, in place. |
| Feeds.DeactivateInPlace | event/feed.go:228-232 | Deactivating in the shared array is a swap with the last active case. |
| Feeds.DeactivateParts | event/feed.go:228-232 | The swap moves one case from the active prefix to the served rest and changes nothing else. |
| Feeds.AlwaysFound | event/feed.go:104-125 | A channel that is to be removed is in the list, and not at the first place. |
| Feeds.StepKeeps | event/feed.go:129-190 | Every step keeps: each subscription is in inbox or list once, the active cases are a prefix, and behind it are exactly the served channels still there. |
| Feeds.NoError | event/feed.go:104-190 | In no run does a removal fail to find its channel. |
| Feeds.SendDelivers | event/feed.go:129-190 | When a send returns it has sent once for every subscription at its start, but for those removed before their turn, and returns the number of channels sent to. |
| Gas.GasPool.AddGas | core/gaspool.go:29-35 | Adds, and panics exactly on overflow. |
| Gas.GasPool.SubGas | core/gaspool.go:39-45 | Subtracts, or refuses exactly if there is too little. |
| Gas.IntrinsicGas | core/state_transition.go:81-111 | The price of a payload; an error if and only if it does not fit in 64 bits. |
| StateTransitions.StateTransition.BuyGas | core/state_transition.go:154-167 | All the gas is paid for and taken from the pool, or nothing changes. |
| StateTransitions.StateTransition.RefundGas | core/state_transition.go:269-284 | The rest and a refund of at most half the gas used go back to sender and pool; the pool does not overflow. |
| StateTransitions.StateTransition.ExtraGas | core/state_transition.go:205-214 | The further payments' intrinsic gas, added up with wrap-around. |
| StateTransitions.StateTransition.RunPayments | core/state_transition.go:226-249 | The payments one after the other, up to the first that fails. |
| StateTransitions.StateTransition.TransitionDb | core/state_transition.go:185-267 | Result, pool and world after a message, in every case. |
| StateTransitions.GasConserved | core/state_transition.go:185-267 | A success lowers the pool by exactly the gas used, if and only if no further payment overflows or there is no gas; at least half the intrinsic gas is used. |
| StateTransitions.ValueConserved | core/state_transition.go:154-284 | The world loses exactly the price of the gas used, if the machine only moves balances, and it is the sender who pays it. |
| StateTransitions.OverflowExample | core/state_transition.go:205-213 | A message, too large for any process, that succeeds, uses no gas, and costs all of it. |
| StateTransitions.GasOnError | core/state_transition.go:185-267 | After an error the pool has lost nothing if the message was refused, and else all its gas. |
| Transfers.IntrinsicIsSum | core/state_transition.go:196-218 | A message pays the sum of the intrinsic gas of all its payments, modulo 2^64. |
| Transfers.RunsIff | core/state_transition.go:196-218 | A message whose gas is bought is executed exactly if no payment's intrinsic gas overflows, there are at most 1000 payments, and the gas covers their sum in 64 bits. |
| Transfers.PayAll | core/state_transition.go:234-249 | Payments between accounts are all made if their sum is covered: every account has what was paid to it more, the sender their sum less; if it is not, and none goes back to the sender, they fail for lack of balance. |
| Transfers.Transferred | core/state_transition.go:185-267 | For every machine that moves balances between accounts: if the balance covers gas and payments, each recipient has all that the first and the further payments give it, the sender has all that and the price of the gas used less, its nonce is one higher, and the gas used is the intrinsic gas less the refund; else, without payments to itself, it fails for lack of balance. |
| Transfers.NoReplay | core/state_transition.go:169-182 | A call is executed exactly at its nonce, and from then on refused in every state whose nonces have not gone back. |
| StateProcessors.ApplyTransaction | core/state_processor.go:88-135 | One transaction in a block, for the author given or else the coinbase of the header; special ones are not executed; the refund counter is cleared unless there was an error. |
| StateProcessors.TxStepMore | core/state_processor.go:88-135 | With more gas in the pool a transaction that succeeded does the same. |
| StateProcessors.FoldGas | core/state_processor.go:56-81 | Pool and gas used make up the gas limit, but for gas that is lost; the receipts carry the sums; no refund is carried over. |
| StateProcessors.Process | core/state_processor.go:56-81 | The transactions of a block one after the other, for the coinbase of its header, up to the first error. |
| BlockWork.SetReceiptsData | core/blockchain.go:796-831 | The gas of each receipt is the difference of the sums, in place. |
| BlockWork.RecoverReceipts | core/blockchain.go:796-831 | Receipts that were stored without their gas get it back. |
| BlockWork.Work.CommitTransaction | blockgenor/work.go:140-152 | One transaction for the given coinbase; a failed one leaves the block and the state as they were, though not the gas. |
| BlockWork.Work.CommitTransactions | blockgenor/work.go:55-117 | The queues are served in some order until there is no gas or nothing left, and the block is what that order gives; `PackTraces` says what that is. |
| PackTraces.TriesTold | blockgenor/work.go:55-117 | However the queues are served: each is tried from its beginning on, one by one; what fits is packed in the order of the tries; and a queue is left as it is behind its last try, or was cut off by one. |
| PackTraces.PickByFate | blockgenor/work.go:88-116 | The next of an account is tried after a success or a failure; the account is dropped after one that ran out of the pool, had too high a nonce, or is replay-protected too early. |
| PackTraces.TriesInOrder | blockgenor/work.go:55-117 | Two tries of a queue come in the order of the queue. |
| PackTraces.NothingLeftOut | blockgenor/work.go:55-117 | With gas left for another, a transaction is packed, unless it failed by itself, or it or one before it in its queue ran out of the pool, had too high a nonce or was barred. |
| PackTraces.WholeQueue | blockgenor/work.go:106-110 | With gas left for another, a queue of which every try succeeds is packed whole and in order. |
| BlockWork.PackKeeps | blockgenor/work.go:55-152 | Whatever the order, pool and gas used stay within the gas limit, and processing the block so far for the same beneficiary gives the state and the receipts at hand. |
| BlockWork.AcceptedIff | blockgenor/work.go:140-152 | For all sound machines, worlds, gas limits, queues and orders the packed block is accepted when it is processed, if and only if packer and miner are the same beneficiary. |
| BlockWork.IndifferentAccepts | core/evm.go:39-60 | A machine that does not care which of two beneficiaries it is told accepts every block packed for the one and processed for the other. |
| BlockWork.BeneficiaryExample | core/evm.go:39-60 | For any two different beneficiaries: a machine, a world and a call for which the packed block is not accepted. |
| BlockWork.PackAndProcess | blockgenor/work.go:55-152 | Packing for one beneficiary and processing for the coinbase of the header: same state, receipts and gas if the two are the same or the machine does not care. |
| BlockProcess.Process.GetLastBlockData | blockgenor/blockCache.go:65-76 | The cached block with the latest time after zero, times being cut to 64 bits with sign. |
| BlockProcess.Int64Is | blockgenor/blockCache.go:65-76 | Times are compared modulo 2^64, in 64 bits with sign. |
| BlockProcess.Process.VerifyOneResult | blockgenor/process_block.go:318-338 | A result is accepted exactly if it is for the block and both checks are answered with yes, and then the header with its seal passed both. |
| BlockProcess.Process.PickSatisfyMinerResults | blockgenor/process_block.go:304-316 | A result that passed; exactly those that failed before it are deleted, and all if none passes. |
| BlockProcess.Process.MakeReady | blockgenor/process_block.go:238-254 | A block becomes ready with the seal of a result of the pool for its hash that passed both checks; it does not only if the pool has none for it or a check was answered with no, and then those are deleted. |
| BlockProcess.Process.ProcessMinerResultVerify | blockgenor/process_block.go:208-263 | Nothing happens in the wrong phase, without the block or without a result for it; if all checks pass, the leader's block is ready, and handed to the chain if it is the current one and the turn of this node; ready blocks keep their header. |
| BlockProcess.Process.ProcessBlockInsert | blockgenor/process_block.go:265-302 | The current block is handed to the chain if and only if it is there and ready, the phase is late enough and it is the turn of this node; the process ends exactly if the chain takes it. |
| BlockProcess.Process.InsertAndBcBlock | blockgenor/process_block.go:350-394 | The current block is handed over if and only if it is there and ready, and another header that is given has its content; with that header, or else its own. |
| BlockProcess.Process.StartBlockInsert | blockgenor/process.go:182-229 | A header is kept exactly if it is new and passes both checks, and the current block is then handed over with it exactly if that is ready and has its content. |
| BlockProcess.Process.SetCurLeader | blockgenor/process.go:143-160 | A new leader or turn restarts a running process without a next leader, and undoes nothing; a follower without the leader's block waits for a mining result. |
| BlockProcess.Process.SetNextLeader | blockgenor/process.go:162-174 | A new next leader hands the current block over exactly if the phase is late enough, it is the turn of this node and the block is ready. |
| BlockProcess.Process.AddConsensusBlock | blockgenor/process_block.go:200-206 | A verified block is kept, but not over another of the same leader; without a mining result nothing else happens. |
| BlockProcess.Process.AddMinerResult | blockgenor/process_block.go:189-198 | A result for the current block that is accepted while the process waits for one makes it ready if all checks pass, and the block is then handed over if it is the turn of this node. |
| BlockProcess.Process.ProcessRecoveryMsg | blockgenor/process_block.go:33-59 | A recovered header counts as a mining result, checked as such in any phase, and makes the block ready if all checks pass. |
| BlockProcess.RecoversHeader | blockgenor/process_block.go:33-59 | The header of a finished block comes back when the result it tells of is put on a block of the same content. |
| BlockProcess.Process.ProcessFullBlockRsp | blockgenor/process_block.go:104-148 | A whole block is kept as ready only after both checks and its execution, and is kept and, if it is the turn of this node, handed over if they all succeed; a header the chain already has is not checked for its seal again. |
| BlockProcess.Process.ProcessFullBlockReq | blockgenor/process_block.go:81-102 | A block sent on request has a verified header. |
| BlockProcess.Handle | blockgenor/process.go:104-229 | Each message does what its handler does. |
| BlockProcess.HandleAll | blockgenor/process.go:104-229 | For every order of messages, each handled in turn: every header handed to the chain passed both checks, or that of the validators while the chain had it already, with transactions executed for it. |
| BlockProcess.HandsOver | blockgenor/process_block.go:208-302 | For every leader, block and mining result for it: a validator that leads next and is told of the leader, itself, the block and the result hands exactly that block with that seal to the chain, and ends, if all checks pass. |
| PowPools.PowPool.AddMinerResult | blockgenor/pow_pool.go:109-130 | Refused exactly at the limit or if there is one already; else it is the only change. |
| PowPools.PowPool.DelOneResult | blockgenor/pow_pool.go:132-147 | Exactly that result goes, and the counter follows. |
| PowPools.PowPool.GetMinerResults | blockgenor/pow_pool.go:149-159 | All results for a block and a difficulty. |
| PowPools.CountsFollow | blockgenor/pow_pool.go:161-186 | Every counter stays the number of slots with a result of that sender, within the limit. |
| Election.Normalize | election/election.go:187-205 | Same nodes in the same order, positive shares with sum one. |
| Election.Sample | election/election.go:207-216 | The node in whose share of the interval the draw falls, or the first one for a draw beyond. |
| Election.Partition | election/election.go:392-402 | The chosen and the others are all nodes, each as often as before. |
| Election.SampleValidators | election/election.go:363-404 | Those drawn are the principals, at most as many as wanted, the others remain, in the order of the list. |
| Election.DrawVotes | election/election.go:378-391 | The votes after the draws, up to the one with which enough different nodes were drawn. |
| Election.TallyIs | election/election.go:378-391 | A node has votes exactly if a counted draw falls in its share, and as many as such draws; counted are all draws, or those up to the first after which enough different nodes have votes. |
| Election.DrawnElected | election/election.go:307-404 | A node that a counted draw goes to is among the principals, of the validators and of the miners, with as many votes as draws go to it; every other validator has one vote. |
| Election.FewElected | election/election.go:363-376 | If there are no more nodes than wanted all are elected, each with its share in percent, rounded down. |
| Election.SelectValidators | election/election.go:408-433 | The ranking of the nodes cut in exactly min(M-J, n) principals, min(P, rest) backups and the rest. |
| Election.ValidatorsPartition | election/election.go:408-433 | Every node is in exactly one of the three lists. |
| Election.SampleMiners | election/election.go:307-351 | Those drawn and then the first of the others: exactly min(Ms, n) different nodes, never slicing out of range. |
| Election.InOrder | election/election.go:278-305 | Both lists in the order of the input, and nobody is dropped. |
| Election.SelectMiners | election/election.go:435-444 | Principals and backups are complementary parts of the input in its order, with exactly min(Ms, n) principals. |
| DerivationPaths.String | accounts/hd.go:118-132 | The canonical text of a path. |
| DerivationPaths.ParseDerivationPath | accounts/hd.go:64-112 | The path of a text, or why there is none. |
| DerivationPaths.ComponentBack | accounts/hd.go:88-110 | A printed component is read back, hardened or not. |
| DerivationPaths.PrefixedBack | accounts/hd.go:97-100 | A number in hexadecimal after 0x, in binary after 0b or in octal after 0 is read back, with letters in either case. |
| DerivationPaths.SpacesIgnored | accounts/hd.go:86-95 | White space around a component, and before its quote, is ignored. |
| DerivationPaths.RoundTrip | accounts/hd.go:64-132 | Every non-empty path is read back from its printed form. |
| DerivationPaths.Stable | accounts/hd.go:64-132 | What was read from any text prints to a text that reads the same. |
| DerivationPaths.RelativeIs | accounts/hd.go:64-84 | A relative text is the absolute one below m/44'/60'/0'/0. |

## Left out

- The list objects of an account book are kept by value: that no two accounts share a list is built into the model, not proved.
- Transactions and blocks stand for their own hashes, and the sender of a transaction is a field: hashing, signatures and RLP are not modelled.
- The pool's flood containers, error maps, journal, metrics, broadcast transactions, UDP code and the managed pending nonces are not modelled; neither is `validateTx` beyond the checks against pool and state, which is one flag.
- The distance of two heads is compared with 64 exactly, where the source goes through 64-bit floating point; the two heads themselves are taken to be stored, and a nil new head, which the source allows for testing, is left out.
- The priority queue of spammers has 32-bit floating point priorities in the source; the model takes the longest list exactly.
- The guaranteed slots of an account are taken to be at least one.
- Goroutines of the hasher are interleaved step by step on one memory; data races in the sense of the Go memory model, `ReadFrom`, the argument of `Sum`, the length prefix and the tree pool are left out; goroutines that are still on their way when a result is taken are forgotten with the run.
- Slices that share an array (the appended segment, the cases of the feed) are sequences and lengths; what appending does to a caller's array is not modelled.
- The consensus engine is represented by what it has checked: the number of a header is one above its parent's.
- `SetHead` of the block chain, the delete callback of that of the header chain, `Rollback`, fast sync, header and block import mixed, the import of pruned blocks, future blocks, trie garbage collection, receipts in the database and the chain events are left out.
- The caches in front of block bodies are left out; those of the header chain are modelled.
- The feed's type check, and the value that is sent, are left out; a channel takes a value or not, as it likes.
- The virtual machine, contract addresses, logs and blooms are left out; a message's sender and the homestead flag are given. Of the context of the machine only beneficiary and gas price vary; block number, time, difficulty, gas limit and the hashes of ancestors are taken to be the same for packing and processing. Code and storage are bytes of which nothing is said.
- The order of transactions between accounts when packing is left open; the price order of the source is one such order.
- Block production at broadcast heights, header generation, the resending of requests and the topology are left out; whether a check passes, a write succeeds or transactions run is a sequence of answers that is given.
- The combination with fund nodes and the weight functions of the election are left out; votes and weights are real numbers, and the draws are given.
- BlockProcess.Process.AddConsensusBlock: takes the hash that comes with a block to be that of its header.
- BmtHasher.Hasher.Sum: on a tree that is not ready for the job nothing is promised of the hash or of the hasher after it; that such a job can go wrong is what `BmtWear.PairOff` says.
- BmtHasher.Hasher.constructor: a hasher has one tree for all its jobs; in the source it takes one from a pool for each.
