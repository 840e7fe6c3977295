/** The block chain: blocks and total difficulties by number and hash, the canonical
    index, and the lookup index of the transactions on the canonical chain. */
module BlockChains {
  import opened Wrappers
  import opened ChainTree

  type Key = (nat, Hash)

  /** Where a transaction is: its block, the number of the block and the position. */
  datatype Entry = Entry(block: Hash, number: nat, index: nat)

  datatype Error = UnknownAncestor | SameBlock | InvalidOldChain | InvalidNewChain | CommitFailed | BatchFailed

  datatype Status = NonStat(err: Error) | Canon | Side

  /** A write as it comes: with the state of the block, or without one because the state
      of its ancestors is gone. */
  datatype Operation =
    | WithState(block: Block, coin: bool, commitFails: bool, batchFails: bool)
    | Pruned(block: Block)

  // -------------------------------------------------- transactions of a chain

  /** The transactions of the chain from g to b. */
  function ChainTxs(g: Block, b: Block): (s: seq<Tx>)
    decreases b
  {
    if b == g || b.parent.Zero? then b.txs else ChainTxs(g, b.parent.block) + b.txs
  }

  predicate Distinct(s: seq<Tx>) {
    forall i, j :: 0 <= i < j < |s| ==> s[i] != s[j]
  }

  /** The lookup entries of one block, the first n of them. */
  function Entries(m: map<Tx, Entry>, b: Block, n: nat): (r: map<Tx, Entry>)
    requires n <= |b.txs|
  {
    if n == 0 then m else Entries(m, b, n - 1)[b.txs[n - 1] := Entry(Of(b), b.number, n - 1)]
  }

  /** The lookup index for the chain from g to b. */
  function Index(g: Block, b: Block): (m: map<Tx, Entry>)
    decreases b
  {
    Entries(if b == g || b.parent.Zero? then map[] else Index(g, b.parent.block), b, |b.txs|)
  }

  lemma {:induction false} EntriesAt(m: map<Tx, Entry>, b: Block, n: nat, tx: Tx)
    requires n <= |b.txs|
    ensures tx !in b.txs[..n] ==>
              (tx in Entries(m, b, n) <==> tx in m) && (tx in m ==> Entries(m, b, n)[tx] == m[tx])
    ensures tx in b.txs[..n] ==>
              && tx in Entries(m, b, n) && Entries(m, b, n)[tx].index < n
              && Entries(m, b, n)[tx] == Entry(Of(b), b.number, Entries(m, b, n)[tx].index)
              && b.txs[Entries(m, b, n)[tx].index] == tx
    ensures tx in b.txs[..n] ==> tx in Entries(map[], b, n) && Entries(m, b, n)[tx] == Entries(map[], b, n)[tx]
  {
    if n > 0 {
      EntriesAt(m, b, n - 1, tx);
      assert b.txs[..n] == b.txs[..n - 1] + [b.txs[n - 1]];
    }
  }

  /** The index holds the transactions of the chain, each with a block that has it at
      that position. */
  lemma {:induction false} IndexHolds(g: Block, b: Block, tx: Tx)
    requires IsGenesis(g) && Rooted(g, b)
    ensures tx in Index(g, b) <==> tx in ChainTxs(g, b)
    ensures tx in Index(g, b) ==>
              var e := Index(g, b)[tx];
              && e.number in Line(g, b) && Line(g, b)[e.number] == e.block && e.block.Of?
              && e.index < |e.block.block.txs| && e.block.block.txs[e.index] == tx
    decreases b
  {
    assert b.txs[..|b.txs|] == b.txs;
    EntriesAt(if b == g || b.parent.Zero? then map[] else Index(g, b.parent.block), b, |b.txs|, tx);
    LineKeys(g, b);
    if b != g {
      IndexHolds(g, b.parent.block, tx);
      LineKeys(g, b.parent.block);
    }
  }

  // ------------------------------------------------------------- the database

  ghost predicate TdKnown(g: Block, tds: map<Key, nat>, k: Key)
    requires k in tds
  {
    && k.1.Of? && k.0 == k.1.block.number && Rooted(g, k.1.block) && tds[k] == TotalDifficulty(g, k.1.block)
    && (k.1.block != g ==> k.1.block.ParentKey() in tds)
  }

  /** Every total difficulty is the sum along the way to the genesis block, all of whose
      blocks have one. */
  ghost predicate TdsOk(g: Block, tds: map<Key, nat>) {
    g.Key() in tds && forall k {:trigger TdKnown(g, tds, k)} :: k in tds ==> TdKnown(g, tds, k)
  }

  ghost predicate BlocksOk(blocks: map<Key, Block>) {
    forall k :: k in blocks ==> k.1.Of? && k.0 == k.1.block.number && blocks[k] == k.1.block
  }

  /** Up to the number of b the canonical index is the chain to b. There may be entries
      above: they are not cleared when the chain gets shorter. */
  ghost predicate OnChain(g: Block, canon: map<nat, Hash>, b: Block) {
    forall n: nat :: n <= b.number ==> n in canon && n in Line(g, b) && canon[n] == Line(g, b)[n]
  }

  lemma RecordedTd(g: Block, tds: map<Key, nat>, b: Block, td: nat)
    requires IsGenesis(g) && TdsOk(g, tds) && b.parent.Of? && Numbered(b) && b.ParentKey() in tds
    requires td == tds[b.ParentKey()] + b.difficulty
    ensures TdsOk(g, tds[b.Key() := td]) && Rooted(g, b) && td == TotalDifficulty(g, b) && b != g
  {
    var r := tds[b.Key() := td];
    assert TdKnown(g, tds, b.ParentKey());
    forall k | k in r ensures TdKnown(g, r, k) {
      if k != b.Key() {
        assert TdKnown(g, tds, k);
      }
    }
  }

  /** The chain to b goes on from the chain to its parent. */
  lemma Extended(g: Block, canon: map<nat, Hash>, b: Block)
    requires IsGenesis(g) && Rooted(g, b) && b != g && OnChain(g, canon, b.parent.block)
    ensures OnChain(g, canon[b.number := Of(b)], b)
  {
    LineKeys(g, b.parent.block);
    LineKeys(g, b);
  }

  // ---------------------------------------------------------------- branches

  /** The blocks from a down to, and without, z. */
  predicate Branch(g: Block, chain: seq<Block>, a: Block, z: Block)
    decreases |chain|
  {
    if chain == [] then a == z
    else chain[0] == a && a != g && a.parent.Of? && Branch(g, chain[1..], a.parent.block, z)
  }

  lemma {:induction false} BranchGrows(g: Block, chain: seq<Block>, a: Block, z: Block)
    requires Branch(g, chain, a, z) && z != g && z.parent.Of?
    ensures Branch(g, chain + [z], a, z.parent.block)
    decreases |chain|
  {
    if chain == [] {
      assert (chain + [z])[1..] == [];
    } else {
      BranchGrows(g, chain[1..], a.parent.block, z);
      assert (chain + [z])[1..] == chain[1..] + [z];
    }
  }

  /** The lower end of a branch of the chain to a is on that chain. */
  lemma {:induction false} BranchOnChain(g: Block, canon: map<nat, Hash>, chain: seq<Block>, a: Block, z: Block)
    requires IsGenesis(g) && Rooted(g, a) && Branch(g, chain, a, z) && OnChain(g, canon, a)
    ensures OnChain(g, canon, z) && Rooted(g, z) && z.number + |chain| == a.number
    decreases |chain|
  {
    if chain != [] {
      LineKeys(g, a.parent.block);
      BranchOnChain(g, canon, chain[1..], a.parent.block, z);
    }
  }

  /** Each block of a branch is a child of the next. */
  lemma {:induction false} BranchAt(g: Block, chain: seq<Block>, a: Block, z: Block, i: nat)
    requires Branch(g, chain, a, z) && Rooted(g, a) && i < |chain|
    ensures chain[i] != g && Rooted(g, chain[i]) && Rooted(g, z) && chain[i].parent.Of?
    ensures chain[i].parent.block == if i + 1 < |chain| then chain[i + 1] else z
    ensures chain[0] == a
    decreases |chain|
  {
    if i > 0 {
      BranchAt(g, chain[1..], a.parent.block, z, i - 1);
    } else if |chain| > 1 {
      BranchAt(g, chain[1..], a.parent.block, z, 0);
    }
  }

  // ------------------------------------------- the lookup index over a reorg

  /** The transactions of the blocks of a branch. */
  function BranchTxs(chain: seq<Block>): (s: seq<Tx>) {
    if chain == [] then [] else chain[0].txs + BranchTxs(chain[1..])
  }

  /** The index with the entries of a branch, written from its lower end up. */
  function Rewritten(m: map<Tx, Entry>, chain: seq<Block>): (r: map<Tx, Entry>) {
    if chain == [] then m else Entries(Rewritten(m, chain[1..]), chain[0], |chain[0].txs|)
  }

  lemma {:induction false} RewrittenAt(m: map<Tx, Entry>, k: map<Tx, Entry>, chain: seq<Block>, tx: Tx)
    ensures tx !in BranchTxs(chain) ==>
              (tx in Rewritten(m, chain) <==> tx in m) && (tx in m ==> Rewritten(m, chain)[tx] == m[tx])
    ensures tx in BranchTxs(chain) ==>
              tx in Rewritten(m, chain) && tx in Rewritten(k, chain) && Rewritten(m, chain)[tx] == Rewritten(k, chain)[tx]
  {
    if chain != [] {
      var b := chain[0];
      RewrittenAt(m, k, chain[1..], tx);
      assert b.txs[..|b.txs|] == b.txs;
      EntriesAt(Rewritten(m, chain[1..]), b, |b.txs|, tx);
      EntriesAt(Rewritten(k, chain[1..]), b, |b.txs|, tx);
    }
  }

  /** The index of a chain is that of its lower part with the branch above written in. */
  lemma {:induction false} IndexSplit(g: Block, chain: seq<Block>, a: Block, z: Block)
    requires Branch(g, chain, a, z)
    ensures Index(g, a) == Rewritten(Index(g, z), chain)
    decreases |chain|
  {
    if chain != [] {
      IndexSplit(g, chain[1..], a.parent.block, z);
    }
  }

  lemma DistinctParts(x: seq<Tx>, y: seq<Tx>)
    ensures Distinct(x + y) ==> Distinct(x) && forall i, j :: 0 <= i < |x| && 0 <= j < |y| ==> x[i] != y[j]
  {
    if Distinct(x + y) {
      forall i, j | 0 <= i < j < |x| ensures x[i] != x[j] {
        assert (x + y)[i] == x[i] && (x + y)[j] == x[j];
      }
      forall i, j | 0 <= i < |x| && 0 <= j < |y| ensures x[i] != y[j] {
        assert (x + y)[i] == x[i] && (x + y)[|x| + j] == y[j];
      }
    }
  }

  /** What is below a branch is not in it, if no transaction repeats. */
  lemma {:induction false} NoRepeat(g: Block, chain: seq<Block>, a: Block, z: Block, tx: Tx)
    requires Branch(g, chain, a, z)
    ensures tx in ChainTxs(g, z) || tx in BranchTxs(chain) ==> tx in ChainTxs(g, a)
    ensures Distinct(ChainTxs(g, a)) && tx in BranchTxs(chain) ==> tx !in ChainTxs(g, z)
    decreases |chain|
  {
    if chain != [] {
      var below := ChainTxs(g, a.parent.block);
      NoRepeat(g, chain[1..], a.parent.block, z, tx);
      DistinctParts(below, a.txs);
    }
  }

  /** Going over from one branch to another: write the entries of the new one, delete
      those of transactions that were in the old one only. */
  lemma Reindexed(g: Block, old0: Block, new0: Block, z: Block, oldChain: seq<Block>, newChain: seq<Block>,
                  r: map<Tx, Entry>)
    requires IsGenesis(g) && Rooted(g, z) && Branch(g, oldChain, old0, z) && Branch(g, newChain, new0, z)
    requires Distinct(ChainTxs(g, old0))
    requires forall tx :: tx in r <==>
               tx in Rewritten(Index(g, old0), newChain) && tx !in TxDifference(BranchTxs(oldChain), BranchTxs(newChain))
    requires forall tx :: tx in r ==> r[tx] == Rewritten(Index(g, old0), newChain)[tx]
    ensures r == Index(g, new0)
  {
    IndexSplit(g, newChain, new0, z);
    IndexSplit(g, oldChain, old0, z);
    forall tx ensures (tx in r <==> tx in Index(g, new0)) && (tx in r ==> r[tx] == Index(g, new0)[tx]) {
      RewrittenAt(Index(g, old0), Index(g, z), newChain, tx);
      RewrittenAt(Index(g, z), Index(g, z), newChain, tx);
      RewrittenAt(Index(g, z), Index(g, z), oldChain, tx);
      NoRepeat(g, oldChain, old0, z, tx);
      IndexHolds(g, z, tx);
    }
  }

  // ------------------------------------------------------------- the class

  /** All ancestors of b are stored. */
  predicate Closed(g: Block, blocks: map<Key, Block>, b: Block)
    decreases b
  {
    b == g || (b.parent.Of? && b.ParentKey() in blocks && Closed(g, blocks, b.parent.block))
  }

  /** Every block with a total difficulty is stored. */
  ghost predicate AllStored(tds: map<Key, nat>, blocks: map<Key, Block>) {
    forall k :: k in tds ==> k in blocks
  }

  lemma {:induction false} ClosedIfStored(g: Block, tds: map<Key, nat>, blocks: map<Key, Block>, b: Block)
    requires IsGenesis(g) && TdsOk(g, tds) && AllStored(tds, blocks) && Rooted(g, b)
    requires b != g ==> b.ParentKey() in tds
    ensures Closed(g, blocks, b)
    decreases b
  {
    if b != g {
      var p := b.parent.block;
      assert p.Key() == b.ParentKey() && TdKnown(g, tds, p.Key());
      ClosedIfStored(g, tds, blocks, p);
    }
  }

  /** The blocks of a branch of a block with a total difficulty have one. */
  lemma {:induction false} BranchTds(g: Block, tds: map<Key, nat>, chain: seq<Block>, a: Block, z: Block)
    requires IsGenesis(g) && TdsOk(g, tds) && Branch(g, chain, a, z) && Rooted(g, a) && a.Key() in tds
    ensures forall i :: 0 <= i < |chain| ==> chain[i].Key() in tds
    decreases |chain|
  {
    if chain != [] {
      assert TdKnown(g, tds, a.Key()) && a.parent.block.Key() == a.ParentKey();
      BranchTds(g, tds, chain[1..], a.parent.block, z);
      assert forall i :: 0 < i < |chain| ==> chain[i] == chain[1..][i - 1];
    }
  }

  // ------------------------------------------------- the heads and old entries

  /** The canonical index has the block at its number. */
  predicate Has(canon: map<nat, Hash>, b: Block) {
    b.number in canon && canon[b.number] == Of(b)
  }

  /** No entry of the index, left over or not, is heavier than the head. */
  ghost predicate Bounded(g: Block, canon: map<nat, Hash>, head: Block) {
    forall n :: n in canon ==> canon[n].Of? && TotalDifficulty(g, canon[n].block) <= TotalDifficulty(g, head)
  }

  /** Every block but the genesis block has a difficulty. */
  ghost predicate Positive(g: Block, tds: map<Key, nat>) {
    forall k :: k in tds ==> k.1.Of? && (k.1.block == g || k.1.block.difficulty >= 1)
  }

  /** One more block: the head is still the heaviest if it is no lighter than the last one
      and than the new block; and all are stored if that one is. */
  lemma Growing(g: Block, tds: map<Key, nat>, blocks: map<Key, Block>, b: Block, td: nat, head: Block, next: Block)
    ensures Heaviest(g, tds, head) && TotalDifficulty(g, head) <= TotalDifficulty(g, next) && td <= TotalDifficulty(g, next) ==>
              Heaviest(g, tds[b.Key() := td], next)
    ensures AllStored(tds, blocks) ==> AllStored(tds[b.Key() := td], blocks[b.Key() := b])
  {
  }

  lemma PositiveGrows(g: Block, tds: map<Key, nat>, b: Block, td: nat)
    requires Positive(g, tds) && b.difficulty >= 1
    ensures Positive(g, tds[b.Key() := td])
  {
  }

  /** A block of a branch is not heavier than its top, and lies as far below as it comes
      later. */
  lemma {:induction false} BranchBelow(g: Block, chain: seq<Block>, a: Block, z: Block, i: nat)
    requires IsGenesis(g) && Branch(g, chain, a, z) && Rooted(g, a) && i < |chain|
    ensures TotalDifficulty(g, chain[i]) <= TotalDifficulty(g, a) && chain[i].number + i == a.number
    decreases |chain|
  {
    if i > 0 {
      BranchBelow(g, chain[1..], a.parent.block, z, i - 1);
    }
  }

  /** Inserting a block of a branch, below its top or at it. */
  lemma InsertedBelow(g: Block, canon: map<nat, Hash>, b: Block, top: Block)
    requires TotalDifficulty(g, b) <= TotalDifficulty(g, top)
    ensures Bounded(g, canon, top) ==> Bounded(g, canon[b.number := Of(b)], top)
    ensures b.number != top.number ==> Has(canon[b.number := Of(b)], top) == Has(canon, top)
  {
  }

  /** A proper ancestor is lighter. */
  lemma {:induction false} AncestorLighter(g: Block, tds: map<Key, nat>, b: Block, n: nat)
    requires IsGenesis(g) && TdsOk(g, tds) && Positive(g, tds) && b.Key() in tds && Rooted(g, b) && n < b.number
    ensures n in Line(g, b) && Line(g, b)[n].Of? && TotalDifficulty(g, Line(g, b)[n].block) < TotalDifficulty(g, b)
    decreases b
  {
    assert TdKnown(g, tds, b.Key());
    var p := b.parent.block;
    LineKeys(g, b);
    LineKeys(g, p);
    if n < p.number {
      AncestorLighter(g, tds, p, n);
    }
  }

  /** A block that is preferred to the head is not on the index yet. */
  lemma PreferredIsNew(g: Block, tds: map<Key, nat>, canon: map<nat, Hash>, head: Block, b: Block, coin: bool)
    requires IsGenesis(g) && TdsOk(g, tds) && Positive(g, tds) && head.Key() in tds && Rooted(g, head) && b != head
    requires OnChain(g, canon, head) && Bounded(g, canon, head)
    requires Prefers(TotalDifficulty(g, b), TotalDifficulty(g, head), b.number, head.number, coin)
    ensures !Has(canon, b)
  {
    if b.number < head.number {
      AncestorLighter(g, tds, head, b.number);
    } else {
      LineKeys(g, head);
    }
  }

  /** No transaction comes twice on the chain from g to b. */
  ghost predicate NoRepeats(g: Block, b: Block) {
    forall k {:trigger UnfoldChain(k)} :: UnfoldChain(k) ==> Distinct(ChainTxs(g, b))
  }

  ghost predicate UnfoldChain(k: int) { true }

  class BlockChain {
    const genesis: Block
    var blocks: map<Key, Block>
    var tds: map<Key, nat>
    var canon: map<nat, Hash>
    var lookup: map<Tx, Entry>
    var headHash: Hash
    var current: Block
    var headHeader: Block
    var headFast: Block

    ghost predicate Stores()
      reads this`tds, this`blocks
    {
      IsGenesis(genesis) &&
      forall k {:trigger UnfoldChain(k)} :: UnfoldChain(k) ==> TdsOk(genesis, tds) && BlocksOk(blocks)
    }

    /** The canonical index is the chain from the genesis block to the current block, up
        to the number of the current block. */
    ghost predicate Valid()
      reads this
    {
      && Stores() && Rooted(genesis, current) && current.Key() in tds && headHash == Of(current)
      && forall k {:trigger UnfoldChain(k)} :: UnfoldChain(k) ==> OnChain(genesis, canon, current)
    }

    /** The lookup index is that of the canonical chain, where no transaction repeats. */
    ghost predicate Indexed()
      reads this`lookup, this`current
    {
      lookup == Index(genesis, current) && NoRepeats(genesis, current)
    }

    /** The header head and the fast-sync head are the current block. */
    ghost predicate HeadsAgree()
      reads this`headHeader, this`headFast, this`current, this`canon
    {
      headHeader == headFast == current && Bounded(genesis, canon, current)
    }

    /** A block that is new on the index and not lighter than the head. */
    ghost predicate Improves(canon: map<nat, Hash>, head: Block, b: Block) {
      !Has(canon, b) && TotalDifficulty(genesis, b) >= TotalDifficulty(genesis, head)
    }

    constructor (genesis: Block)
      requires IsGenesis(genesis)
      ensures Valid() && Indexed() && HeadsAgree() && Positive(genesis, tds) && Heaviest(genesis, tds, genesis)
      ensures this.genesis == genesis && current == genesis && AllStored(tds, blocks)
    {
      this.genesis := genesis;
      blocks := map[genesis.Key() := genesis];
      tds := map[genesis.Key() := genesis.difficulty];
      canon := map[0 := Of(genesis)];
      lookup := map[];
      headHash, current, headHeader, headFast := Of(genesis), genesis, genesis, genesis;
    }

    function GetBlock(hash: Hash, number: nat): (b: Option<Block>)
      reads this`blocks
    {
      if (number, hash) in blocks then Some(blocks[(number, hash)]) else None
    }

    /** What comes back for the parent of a block is its parent. */
    lemma ParentFound(b: Block)
      requires Stores() && Rooted(genesis, b)
      ensures var p := GetBlock(b.parent, PrevNumber(b.number));
              && (p.Some? ==> b != genesis && b.parent == Of(p.value) && Rooted(genesis, p.value) && p.value.number + 1 == b.number)
              && (Closed(genesis, blocks, b) && b != genesis ==> p.Some? && Closed(genesis, blocks, p.value))
    {
      assert UnfoldChain(0);
    }

    /** The branch from b down to number n. */
    method Descend(b: Block, n: nat) returns (chain: seq<Block>, end: Option<Block>)
      requires Stores() && Rooted(genesis, b) && n <= b.number
      ensures end.Some? ==> end.value.number == n && Branch(genesis, chain, b, end.value) && Rooted(genesis, end.value)
      ensures Closed(genesis, blocks, b) ==> end.Some? && Closed(genesis, blocks, end.value)
    {
      var x := b;
      chain := [];
      while x.number != n
        invariant Rooted(genesis, x) && n <= x.number && Branch(genesis, chain, b, x)
        invariant Closed(genesis, blocks, b) ==> Closed(genesis, blocks, x)
        decreases x.number
      {
        ParentFound(x);
        var p := GetBlock(x.parent, PrevNumber(x.number));
        if p.None? {
          return chain, None;
        }
        BranchGrows(genesis, chain, b, x);
        chain := chain + [x];
        x := p.value;
      }
      end := Some(x);
    }

    /** The branches from two blocks down to their common ancestor. */
    method FindFork(oldBlock: Block, newBlock: Block)
      returns (err: Option<Error>, oldChain: seq<Block>, newChain: seq<Block>, ghost z: Block)
      requires Stores() && Rooted(genesis, oldBlock) && Rooted(genesis, newBlock)
      ensures err.None? ==> Branch(genesis, oldChain, oldBlock, z) && Branch(genesis, newChain, newBlock, z) && Rooted(genesis, z)
      ensures err.Some? ==> err.value == InvalidOldChain || err.value == InvalidNewChain
      ensures Closed(genesis, blocks, oldBlock) && Closed(genesis, blocks, newBlock) ==> err.None?
    {
      var o, n := Some(oldBlock), Some(newBlock);
      oldChain, newChain := [], [];
      if oldBlock.number > newBlock.number {
        oldChain, o := Descend(oldBlock, newBlock.number);
      } else {
        newChain, n := Descend(newBlock, oldBlock.number);
      }
      z := genesis;
      if o.None? {
        return Some(InvalidOldChain), [], [], z;
      }
      if n.None? {
        return Some(InvalidNewChain), [], [], z;
      }
      var x, y := o.value, n.value;
      while x != y
        invariant Rooted(genesis, x) && Rooted(genesis, y) && x.number == y.number
        invariant Branch(genesis, oldChain, oldBlock, x) && Branch(genesis, newChain, newBlock, y)
        invariant Closed(genesis, blocks, oldBlock) ==> Closed(genesis, blocks, x)
        invariant Closed(genesis, blocks, newBlock) ==> Closed(genesis, blocks, y)
        decreases x.number
      {
        ParentFound(x);
        ParentFound(y);
        var p, q := GetBlock(x.parent, PrevNumber(x.number)), GetBlock(y.parent, PrevNumber(y.number));
        if p.None? {
          return Some(InvalidOldChain), [], [], z;
        }
        if q.None? {
          return Some(InvalidNewChain), [], [], z;
        }
        BranchGrows(genesis, oldChain, oldBlock, x);
        BranchGrows(genesis, newChain, newBlock, y);
        oldChain, newChain := oldChain + [x], newChain + [y];
        x, y := p.value, q.value;
      }
      z := x;
      err := None;
    }

    /** Make a block the current block. The other heads follow unless the block was on
        the canonical index already. */
    method Insert(block: Block)
      requires Stores() && Rooted(genesis, block) && block.Key() in tds
      requires block == genesis || OnChain(genesis, canon, block.parent.block)
      modifies this`canon, this`headHash, this`current, this`headHeader, this`headFast
      ensures Valid() && current == block && canon == old(canon)[block.number := Of(block)]
      ensures if block.number in old(canon) && old(canon)[block.number] == Of(block)
              then headHeader == old(headHeader) && headFast == old(headFast)
              else headHeader == headFast == block
    {
      var updateHeads := !(block.number in canon && canon[block.number] == Of(block));
      if block != genesis {
        Extended(genesis, canon, block);
      }
      canon := canon[block.number := Of(block)];
      headHash, current := Of(block), block;
      if updateHeads {
        headHeader, headFast := block, block;
      }
    }

    method WriteTxLookupEntries(block: Block)
      modifies this`lookup
      ensures lookup == Entries(old(lookup), block, |block.txs|)
    {
      var i := 0;
      while i < |block.txs|
        invariant 0 <= i <= |block.txs| && lookup == Entries(old(lookup), block, i)
      {
        lookup := lookup[block.txs[i] := Entry(Of(block), block.number, i)];
        i := i + 1;
      }
    }

    /** Insert a branch from its lower end up. */
    method InsertBranch(chain: seq<Block>, top: Block, ghost z: Block) returns (added: seq<Tx>)
      requires Valid() && Branch(genesis, chain, top, z) && Rooted(genesis, top) && OnChain(genesis, canon, z)
      requires forall i :: 0 <= i < |chain| ==> chain[i].Key() in tds
      modifies this`canon, this`headHash, this`current, this`headHeader, this`headFast, this`lookup
      ensures Valid() && OnChain(genesis, canon, top) && lookup == Rewritten(old(lookup), chain)
      ensures current == if chain == [] then old(current) else top
      ensures chain == [] ==> canon == old(canon)
      ensures forall tx :: tx in added <==> tx in BranchTxs(chain)
      ensures old(Bounded(genesis, canon, top)) ==> Bounded(genesis, canon, top)
      ensures chain != [] && !Has(old(canon), top) ==> headHeader == headFast == top
    {
      added := [];
      var i := |chain|;
      assert chain[i..] == [];
      while i > 0
        invariant 0 <= i <= |chain| && Valid() && lookup == Rewritten(old(lookup), chain[i..])
        invariant OnChain(genesis, canon, if i < |chain| then chain[i] else z)
        invariant current == if i < |chain| then chain[i] else old(current)
        invariant i == |chain| ==> canon == old(canon)
        invariant forall tx :: tx in added <==> tx in BranchTxs(chain[i..])
        invariant old(Bounded(genesis, canon, top)) ==> Bounded(genesis, canon, top)
        invariant i > 0 ==> Has(canon, top) == Has(old(canon), top)
        invariant i == 0 && chain != [] && !Has(old(canon), top) ==> headHeader == headFast == top
      {
        i := i - 1;
        BranchAt(genesis, chain, top, z, i);
        BranchBelow(genesis, chain, top, z, i);
        InsertedBelow(genesis, canon, chain[i], top);
        Insert(chain[i]);
        assert OnChain(genesis, canon, chain[i]) by {
          assert UnfoldChain(0);
        }
        WriteTxLookupEntries(chain[i]);
        assert chain[i..][0] == chain[i] && chain[i..][1..] == chain[i + 1..];
        added := added + chain[i].txs;
      }
      assert chain[0..] == chain;
      if chain != [] {
        BranchAt(genesis, chain, top, z, 0);
      }
    }

    method DeleteTxLookupEntries(diff: seq<Tx>)
      modifies this`lookup
      ensures forall tx :: tx in lookup <==> tx in old(lookup) && tx !in diff
      ensures forall tx :: tx in lookup ==> lookup[tx] == old(lookup)[tx]
    {
      var i := 0;
      while i < |diff|
        invariant 0 <= i <= |diff|
        invariant forall tx :: tx in lookup <==> tx in old(lookup) && tx !in diff[..i]
        invariant forall tx :: tx in lookup ==> lookup[tx] == old(lookup)[tx]
      {
        lookup := lookup - {diff[i]};
        assert diff[..i + 1] == diff[..i] + [diff[i]];
        i := i + 1;
      }
      assert diff[..i] == diff;
    }

    /** Go over from the chain of the current block to that of another block. If one of
        the two has a gap, nothing is changed. */
    method Reorg(newBlock: Block) returns (err: Option<Error>)
      requires Valid() && Rooted(genesis, newBlock) && newBlock.Key() in tds
      modifies this`canon, this`headHash, this`current, this`headHeader, this`headFast, this`lookup
      ensures Valid()
      ensures err.Some? ==>
                && canon == old(canon) && current == old(current) && lookup == old(lookup)
                && headHeader == old(headHeader) && headFast == old(headFast)
      ensures err.Some? ==> err.value == InvalidOldChain || err.value == InvalidNewChain
      ensures err.None? ==> OnChain(genesis, canon, newBlock) && (current == newBlock || (current == old(current) && canon == old(canon)))
      ensures err.None? && old(Indexed()) ==> lookup == Index(genesis, newBlock)
      ensures err.None? && old(HeadsAgree()) && Improves(old(canon), old(current), newBlock) ==> HeadsAgree() && current == newBlock
      ensures Closed(genesis, blocks, old(current)) && Closed(genesis, blocks, newBlock) ==> err.None?
    {
      var oldChain, newChain;
      ghost var z;
      err, oldChain, newChain, z := FindFork(current, newBlock);
      if err.Some? {
        return;
      }
      GoOver(newBlock, oldChain, newChain, z);
    }

    /** Go over from one branch to another. */
    method GoOver(newBlock: Block, oldChain: seq<Block>, newChain: seq<Block>, ghost z: Block)
      requires Valid() && Rooted(genesis, newBlock) && newBlock.Key() in tds && Rooted(genesis, z)
      requires Branch(genesis, oldChain, current, z) && Branch(genesis, newChain, newBlock, z)
      modifies this`canon, this`headHash, this`current, this`headHeader, this`headFast, this`lookup
      ensures Valid() && OnChain(genesis, canon, newBlock) && (current == newBlock || (current == old(current) && canon == old(canon)))
      ensures old(Indexed()) ==> lookup == Index(genesis, newBlock)
      ensures old(HeadsAgree()) && Improves(old(canon), old(current), newBlock) ==> HeadsAgree() && current == newBlock
    {
      ghost var from := current;
      var added := Replace(newBlock, oldChain, newChain, z);
      assert UnfoldChain(0);
      SameDifference(BranchTxs(oldChain), added, BranchTxs(newChain));
      DeleteTxLookupEntries(TxDifference(BranchTxs(oldChain), added));
      if old(Indexed()) {
        Reindexed(genesis, from, newBlock, z, oldChain, newChain, lookup);
      }
    }

    /** Put one branch in the place of another on the canonical index. */
    method Replace(newBlock: Block, ghost oldChain: seq<Block>, newChain: seq<Block>, ghost z: Block) returns (added: seq<Tx>)
      requires Valid() && Rooted(genesis, newBlock) && newBlock.Key() in tds && Rooted(genesis, z)
      requires Branch(genesis, oldChain, current, z) && Branch(genesis, newChain, newBlock, z)
      modifies this`canon, this`headHash, this`current, this`headHeader, this`headFast, this`lookup
      ensures Valid() && OnChain(genesis, canon, newBlock) && (current == newBlock || (current == old(current) && canon == old(canon)))
      ensures lookup == Rewritten(old(lookup), newChain) && forall tx :: tx in added <==> tx in BranchTxs(newChain)
      ensures old(HeadsAgree()) && Improves(old(canon), old(current), newBlock) ==> HeadsAgree() && current == newBlock
    {
      assert UnfoldChain(0);
      BranchOnChain(genesis, canon, oldChain, current, z);
      BranchTds(genesis, tds, newChain, newBlock, z);
      added := InsertBranch(newChain, newBlock, z);
    }

    /** Record the total difficulty of a block whose parent has one. */
    method WriteTd(block: Block, td: nat)
      requires Stores() && block.parent.Of? && Numbered(block) && block.ParentKey() in tds
      requires td == tds[block.ParentKey()] + block.difficulty
      modifies this`tds
      ensures Stores() && tds == old(tds)[block.Key() := td] && td == TotalDifficulty(genesis, block)
      ensures Rooted(genesis, block) && block != genesis
    {
      assert UnfoldChain(0);
      RecordedTd(genesis, tds, block, td);
      tds := tds[block.Key() := td];
    }

    function GetTd(hash: Hash, number: nat): (td: Option<nat>)
      reads this`tds
    {
      if (number, hash) in tds then Some(tds[(number, hash)]) else None
    }

    lemma TdTrue(b: Block)
      requires Stores() && b.Key() in tds
      ensures tds[b.Key()] == TotalDifficulty(genesis, b) && Rooted(genesis, b)
    {
      assert UnfoldChain(0);
      assert TdKnown(genesis, tds, b.Key());
    }

    lemma ParentTd(b: Block)
      requires Stores() && b.ParentKey() in tds
      ensures b.parent.Of?
    {
      assert UnfoldChain(0);
      assert TdKnown(genesis, tds, b.ParentKey());
    }

    /** Write a block with its state. The commit of the state and the write of the batch
        may fail. */
    method WriteBlockWithState(block: Block, coin: bool, commitFails: bool, batchFails: bool) returns (status: Status)
      requires Valid() && Numbered(block)
      modifies this
      ensures Valid()
      ensures status == NonStat(UnknownAncestor) <==> block.ParentKey() !in old(tds)
      ensures status == NonStat(UnknownAncestor) || status == NonStat(SameBlock) ==> tds == old(tds) && blocks == old(blocks)
      ensures status.NonStat? && status.err != BatchFailed ==>
                canon == old(canon) && current == old(current) && lookup == old(lookup) && blocks == old(blocks)
      ensures !status.NonStat? ==>
                && blocks == old(blocks)[block.Key() := block]
                && tds == old(tds)[block.Key() := TotalDifficulty(genesis, block)]
                && (status == Canon <==>
                      var mine, best := TotalDifficulty(genesis, block), TotalDifficulty(genesis, old(current));
                      mine > best || (mine == best && (block.number < old(current).number || (block.number == old(current).number && coin))))
      ensures status == Canon ==> current == block
      ensures TotalDifficulty(genesis, current) >= TotalDifficulty(genesis, old(current))
      ensures status == Side ==> current == old(current) && canon == old(canon) && lookup == old(lookup)
      ensures old(Indexed()) && NoRepeats(genesis, block) && !status.NonStat? ==> Indexed()
      ensures old(Heaviest(genesis, tds, current)) && !status.NonStat? ==> Heaviest(genesis, tds, current)
      ensures old(HeadsAgree() && Positive(genesis, tds)) && block.difficulty >= 1 ==> HeadsAgree() && Positive(genesis, tds)
      ensures old(Indexed() && HeadsAgree() && Positive(genesis, tds)) && block.difficulty >= 1 && NoRepeats(genesis, block) ==>
                Indexed()
      ensures old(AllStored(tds, blocks)) && !status.NonStat? ==> AllStored(tds, blocks)
      ensures old(AllStored(tds, blocks)) && !commitFails && !batchFails && block != old(current) ==>
                !status.NonStat? || status.err == UnknownAncestor
    {
      var ptd := GetTd(block.parent, PrevNumber(block.number));
      if ptd.None? {
        return NonStat(UnknownAncestor);
      }
      if current == block {
        return NonStat(SameBlock);
      }
      status := WriteKnown(block, ptd.value, coin, commitFails, batchFails);
    }

    /** Add a block to the total difficulties. */
    method AddTd(block: Block, ptd: nat) returns (td: nat)
      requires Valid() && Numbered(block) && block.ParentKey() in tds && ptd == tds[block.ParentKey()]
      modifies this`tds
      ensures Valid() && td == TotalDifficulty(genesis, block) && tds == old(tds)[block.Key() := td]
      ensures Rooted(genesis, block) && block != genesis
      ensures old(Positive(genesis, tds)) && block.difficulty >= 1 ==> Positive(genesis, tds)
      ensures old(AllStored(tds, blocks)) ==> Closed(genesis, blocks, current) && Closed(genesis, blocks, block)
    {
      ParentTd(block);
      td := block.difficulty + ptd;
      if AllStored(tds, blocks) {
        NoGaps(block);
      }
      if Positive(genesis, tds) && block.difficulty >= 1 {
        PositiveGrows(genesis, tds, block, td);
      }
      WriteTd(block, td);
    }

    /** Write a block whose parent is known. */
    method WriteKnown(block: Block, ptd: nat, coin: bool, commitFails: bool, batchFails: bool) returns (status: Status)
      requires Valid() && Numbered(block) && block.ParentKey() in tds && ptd == tds[block.ParentKey()] && block != current
      modifies this
      ensures Valid() && status != NonStat(UnknownAncestor) && status != NonStat(SameBlock)
      ensures status.NonStat? && status.err != BatchFailed ==>
                canon == old(canon) && current == old(current) && lookup == old(lookup) && blocks == old(blocks)
      ensures !status.NonStat? ==>
                && blocks == old(blocks)[block.Key() := block]
                && tds == old(tds)[block.Key() := TotalDifficulty(genesis, block)]
                && (status == Canon <==>
                      Prefers(TotalDifficulty(genesis, block), TotalDifficulty(genesis, old(current)), block.number,
                              old(current).number, coin))
      ensures status == Canon ==> current == block
      ensures TotalDifficulty(genesis, current) >= TotalDifficulty(genesis, old(current))
      ensures status == Side ==> current == old(current) && canon == old(canon) && lookup == old(lookup)
      ensures old(Indexed()) && NoRepeats(genesis, block) && !status.NonStat? ==> Indexed()
      ensures old(Heaviest(genesis, tds, current)) && !status.NonStat? ==> Heaviest(genesis, tds, current)
      ensures old(HeadsAgree() && Positive(genesis, tds)) && block.difficulty >= 1 ==> HeadsAgree() && Positive(genesis, tds)
      ensures old(Indexed() && HeadsAgree() && Positive(genesis, tds)) && block.difficulty >= 1 && NoRepeats(genesis, block) ==>
                Indexed()
      ensures old(AllStored(tds, blocks)) && !status.NonStat? ==> AllStored(tds, blocks)
      ensures old(AllStored(tds, blocks)) && !commitFails && !batchFails ==> !status.NonStat?
    {
      var externTd := AddTd(block, ptd);
      if commitFails {
        return NonStat(CommitFailed);
      }
      status := Choose(block, coin, batchFails);
      Growing(genesis, old(tds), old(blocks), block, externTd, old(current), current);
    }

    /** Decide between the current block and a block whose total difficulty is recorded, and
        write the block. */
    method Choose(block: Block, coin: bool, batchFails: bool) returns (status: Status)
      requires Valid() && block.Key() in tds && Rooted(genesis, block) && block != genesis && block != current
      modifies this`blocks, this`lookup, this`canon, this`headHash, this`current, this`headHeader, this`headFast
      ensures Valid()
      ensures status.NonStat? ==> status.err == BatchFailed || status.err == InvalidOldChain || status.err == InvalidNewChain
      ensures status.NonStat? ==> blocks == old(blocks) && (status.err == BatchFailed ==> batchFails)
      ensures status.NonStat? && status.err != BatchFailed ==> canon == old(canon) && current == old(current) && lookup == old(lookup)
      ensures !status.NonStat? ==>
                && blocks == old(blocks)[block.Key() := block]
                && (status == Canon <==>
                      Prefers(TotalDifficulty(genesis, block), TotalDifficulty(genesis, old(current)), block.number,
                              old(current).number, coin))
      ensures status == Canon ==> current == block
      ensures TotalDifficulty(genesis, current) >= TotalDifficulty(genesis, old(current))
      ensures status == Side ==> current == old(current) && canon == old(canon) && lookup == old(lookup)
      ensures old(Indexed()) && NoRepeats(genesis, block) && !status.NonStat? ==> Indexed()
      ensures old(HeadsAgree() && Positive(genesis, tds)) ==> HeadsAgree()
      ensures old(Indexed() && HeadsAgree() && Positive(genesis, tds)) && NoRepeats(genesis, block) ==> Indexed()
      ensures old(Closed(genesis, blocks, current) && Closed(genesis, blocks, block)) && !batchFails ==> !status.NonStat?
    {
      TdTrue(current);
      TdTrue(block);
      var localTd, externTd := GetTd(Of(current), current.number).value, GetTd(Of(block), block.number).value;
      status := Side;
      if Prefers(externTd, localTd, block.number, current.number, coin) {
        if HeadsAgree() && Positive(genesis, tds) {
          NewOnIndex(block, coin);
        }
        var err := MakeWay(block);
        if err.Some? {
          return NonStat(err.value);
        }
        status := Canon;
      }
      if batchFails {
        return NonStat(BatchFailed);
      }
      FinishWrite(block, status == Canon);
    }

    /** Write a block and its total difficulty only. */
    method WriteBlockWithoutState(block: Block, td: nat)
      requires Valid() && Numbered(block) && block.ParentKey() in tds && td == tds[block.ParentKey()] + block.difficulty
      modifies this`tds, this`blocks
      ensures Valid() && blocks == old(blocks)[block.Key() := block] && tds == old(tds)[block.Key() := td]
      ensures td == TotalDifficulty(genesis, block)
    {
      ParentTd(block);
      WriteTd(block, td);
      assert UnfoldChain(0);
      blocks := blocks[block.Key() := block];
    }

    /** A block whose ancestors have lost their state is only stored while its branch is
        lighter than the current block: the current block stays the heaviest. */
    method StorePruned(block: Block) returns (stored: bool)
      requires Valid() && Numbered(block) && block.ParentKey() in tds
      modifies this`tds, this`blocks
      ensures Valid() && block.parent.Of?
      ensures stored <==> TotalDifficulty(genesis, current) > TotalDifficulty(genesis, block.parent.block) + block.difficulty
      ensures stored ==> block.Key() in blocks && block.Key() in tds
      ensures !stored ==> tds == old(tds) && blocks == old(blocks)
      ensures old(Heaviest(genesis, tds, current)) ==> Heaviest(genesis, tds, current)
      ensures old(AllStored(tds, blocks)) ==> AllStored(tds, blocks)
      ensures old(Positive(genesis, tds)) && block.difficulty >= 1 ==> Positive(genesis, tds)
    {
      ParentTd(block);
      TdTrue(current);
      TdTrue(block.parent.block);
      var localTd := GetTd(Of(current), current.number).value;
      var externTd := GetTd(block.parent, PrevNumber(block.number)).value + block.difficulty;
      stored := localTd > externTd;
      if stored {
        WriteBlockWithoutState(block, externTd);
      }
    }

    /** One write; ok unless it was given up half-way. */
    method Take(op: Operation) returns (ok: bool)
      requires Valid() && HeadsAgree() && Positive(genesis, tds) && Numbered(op.block) && op.block.difficulty >= 1
      modifies this
      ensures Valid() && HeadsAgree() && Positive(genesis, tds)
      ensures old(Indexed()) && NoRepeats(genesis, op.block) ==> Indexed()
      ensures TotalDifficulty(genesis, current) >= TotalDifficulty(genesis, old(current))
      ensures ok && old(Heaviest(genesis, tds, current)) ==> Heaviest(genesis, tds, current)
    {
      match op
      case WithState(block, coin, commitFails, batchFails) =>
        var status := WriteBlockWithState(block, coin, commitFails, batchFails);
        ok := !status.NonStat? || status.err == UnknownAncestor || status.err == SameBlock;
      case Pruned(block) =>
        ok := true;
        if block.ParentKey() in tds {
          var stored := StorePruned(block);
        }
    }

    /** Any writes in any order, failing ones among them: the canonical index, the lookup
        index and the heads stay in step, the current block gets no lighter, and if no
        write was given up it is the heaviest of all. */
    method TakeAll(ops: seq<Operation>) returns (ok: bool)
      requires Valid() && Indexed() && HeadsAgree() && Positive(genesis, tds) && Heaviest(genesis, tds, current)
      requires forall i :: 0 <= i < |ops| ==> Numbered(ops[i].block) && ops[i].block.difficulty >= 1
      requires forall i :: 0 <= i < |ops| ==> NoRepeats(genesis, ops[i].block)
      modifies this
      ensures Valid() && Indexed() && HeadsAgree() && Positive(genesis, tds)
      ensures TotalDifficulty(genesis, current) >= TotalDifficulty(genesis, old(current))
      ensures ok ==> Heaviest(genesis, tds, current)
    {
      ok := true;
      for i := 0 to |ops|
        invariant Valid() && Indexed() && HeadsAgree() && Positive(genesis, tds)
        invariant TotalDifficulty(genesis, current) >= TotalDifficulty(genesis, old(current))
        invariant ok ==> Heaviest(genesis, tds, current)
      {
        var done := Take(ops[i]);
        ok := ok && done;
      }
    }

    /** The canonical index up to the current block: the genesis block first, the current
        block last, each linked to the one before. */
    lemma Canonical(n: nat)
      requires Valid() && n <= current.number
      ensures n in canon && 0 in canon && canon[0] == Of(genesis)
      ensures current.number in canon && canon[current.number] == Of(current)
      ensures n > 0 ==>
                n - 1 in canon && canon[n].Of? && canon[n].block.number == n && canon[n].block.parent == canon[n - 1]
    {
      assert UnfoldChain(0);
      LineKeys(genesis, current);
      if n > 0 {
        LineLinked(genesis, current, n);
      }
      var a := Along(genesis, current, 0);
    }

    /** The lookup index holds exactly the transactions of the canonical chain, each with
        its canonical block and its position there. */
    lemma LookupExact(tx: Tx)
      requires Valid() && Indexed()
      ensures tx in lookup <==> tx in ChainTxs(genesis, current)
      ensures tx in lookup ==>
                var e := lookup[tx];
                && e.number in canon && e.number <= current.number && canon[e.number] == e.block
                && e.block.Of? && e.index < |e.block.block.txs| && e.block.block.txs[e.index] == tx
    {
      assert UnfoldChain(0);
      IndexHolds(genesis, current, tx);
      LineKeys(genesis, current);
    }

    /** Reorganise the chain unless the block extends it. */
    method MakeWay(block: Block) returns (err: Option<Error>)
      requires Valid() && Rooted(genesis, block) && block.Key() in tds && block != genesis
      modifies this`canon, this`headHash, this`current, this`headHeader, this`headFast, this`lookup
      ensures Valid()
      ensures err.Some? ==> canon == old(canon) && current == old(current) && lookup == old(lookup)
      ensures err.Some? ==> headHeader == old(headHeader) && headFast == old(headFast)
      ensures err.Some? ==> err.value == InvalidOldChain || err.value == InvalidNewChain
      ensures current == block || current == old(current)
      ensures err.None? ==> OnChain(genesis, canon, block) || OnChain(genesis, canon, block.parent.block)
      ensures err.None? && old(HeadsAgree()) && Improves(old(canon), old(current), block) ==>
                HeadsAgree() && (current == block || Improves(canon, current, block))
      ensures err.None? && old(Indexed()) ==> Entries(lookup, block, |block.txs|) == Index(genesis, block)
      ensures err.None? && old(Indexed() && HeadsAgree()) && Improves(old(canon), old(current), block) && NoRepeats(genesis, block) ==>
                Indexed()
      ensures Closed(genesis, blocks, old(current)) && Closed(genesis, blocks, block) ==> err.None?
    {
      err := None;
      if block.parent != Of(current) {
        err := Reorg(block);
        EntriesTwice(genesis, block);
      } else {
        assert UnfoldChain(0);
      }
    }

    lemma NewOnIndex(block: Block, coin: bool)
      requires Valid() && HeadsAgree() && Positive(genesis, tds) && block != current
      requires Prefers(TotalDifficulty(genesis, block), TotalDifficulty(genesis, current), block.number, current.number, coin)
      ensures !Has(canon, block)
    {
      assert UnfoldChain(0);
      PreferredIsNew(genesis, tds, canon, current, block, coin);
    }

    /** If every block with a total difficulty is stored, so are the ancestors of the
        current block and of one whose parent is known. */
    lemma NoGaps(block: Block)
      requires Valid() && AllStored(tds, blocks) && Numbered(block) && block.ParentKey() in tds
      ensures Closed(genesis, blocks, current) && Closed(genesis, blocks, block)
    {
      assert UnfoldChain(0);
      assert TdKnown(genesis, tds, current.Key()) && TdKnown(genesis, tds, block.ParentKey());
      ClosedIfStored(genesis, tds, blocks, current);
      ClosedIfStored(genesis, tds, blocks, block);
    }

    /** The batch goes to the database, and the block becomes the head. */
    method FinishWrite(block: Block, canonical: bool)
      requires Valid() && block.Key() in tds && Rooted(genesis, block) && block != genesis
      requires canonical ==> OnChain(genesis, canon, block) || OnChain(genesis, canon, block.parent.block)
      modifies this`blocks, this`lookup, this`canon, this`headHash, this`current, this`headHeader, this`headFast
      ensures Valid() && blocks == old(blocks)[block.Key() := block]
      ensures canonical ==> current == block && lookup == Entries(old(lookup), block, |block.txs|)
      ensures !canonical ==> canon == old(canon) && current == old(current) && lookup == old(lookup)
      ensures !canonical ==> headHeader == old(headHeader) && headFast == old(headFast)
      ensures canonical && old(HeadsAgree()) && (old(current) == block || Improves(old(canon), old(current), block)) ==> HeadsAgree()
    {
      assert UnfoldChain(0);
      blocks := blocks[block.Key() := block];
      if canonical {
        WriteTxLookupEntries(block);
        if OnChain(genesis, canon, block) {
          BranchOnChain(genesis, canon, [block], block, block.parent.block);
        }
        Insert(block);
      }
    }
  }

  /** The current block is as heavy as any with a total difficulty. */
  ghost predicate Heaviest(g: Block, tds: map<Key, nat>, head: Block) {
    forall k :: k in tds ==> tds[k] <= TotalDifficulty(g, head)
  }

  /** The rule of choice between the head and a new block: the heavier one, then the one
      with the lower number, then a coin. */
  predicate Prefers(mine: nat, best: nat, number: nat, head: nat, coin: bool) {
    mine > best || (mine == best && (number < head || (number == head && coin)))
  }

  /** The rule is a choice: of two blocks that differ in weight the heavier one is preferred to
      the other, of two as heavy the one with the lower number, and never both, whatever the
      coins; only between two as heavy and as high does the coin decide. */
  lemma ForkChoice(x: Block, y: Block, tx: nat, ty: nat, c: bool, d: bool)
    ensures tx != ty ==> (Prefers(tx, ty, x.number, y.number, c) <==> tx > ty)
    ensures tx == ty && x.number != y.number ==> (Prefers(tx, ty, x.number, y.number, c) <==> x.number < y.number)
    ensures tx != ty || x.number != y.number ==>
              Prefers(tx, ty, x.number, y.number, c) != Prefers(ty, tx, y.number, x.number, d)
    ensures tx == ty && x.number == y.number ==> Prefers(tx, ty, x.number, y.number, c) == c
  {
  }

  /** Writing the entries of the last block again changes nothing. */
  lemma EntriesTwice(g: Block, b: Block)
    ensures Entries(Index(g, b), b, |b.txs|) == Index(g, b)
  {
    var m := if b == g || b.parent.Zero? then map[] else Index(g, b.parent.block);
    var r := Entries(m, b, |b.txs|);
    assert b.txs[..|b.txs|] == b.txs;
    forall tx ensures (tx in Entries(r, b, |b.txs|) <==> tx in r) && (tx in r ==> Entries(r, b, |b.txs|)[tx] == r[tx]) {
      EntriesAt(r, b, |b.txs|, tx);
      EntriesAt(m, b, |b.txs|, tx);
    }
  }

  lemma SameDifference(a: seq<Tx>, b: seq<Tx>, c: seq<Tx>)
    requires forall tx :: tx in b <==> tx in c
    ensures TxDifference(a, b) == TxDifference(a, c)
  {
  }
}
