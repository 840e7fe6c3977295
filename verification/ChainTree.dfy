/** Blocks and the tree they form. A hash is taken to be free of collisions: it is the
    value it was computed from. */
module ChainTree {
  import opened Wrappers

  type Tx = nat

  datatype Hash = Zero | Of(block: Block)

  /** A block, or its header: the header commits to the transactions. */
  datatype Block = Block(parent: Hash, number: nat, difficulty: nat, txs: seq<Tx>) {
    function Hash(): (h: Hash) { Of(this) }
    function Key(): (k: (nat, Hash)) { (number, Of(this)) }
    function ParentKey(): (k: (nat, Hash)) { (PrevNumber(number), parent) }
  }

  /** number - 1 in 64 bits. */
  function PrevNumber(n: nat): (p: nat)
    ensures n <= MAX_UINT64 ==> p <= MAX_UINT64
  {
    if n == 0 then MAX_UINT64 else n - 1
  }

  /** A genesis block. */
  predicate IsGenesis(g: Block) {
    g.parent.Zero? && g.number == 0 && g.txs == []
  }

  /** What the consensus engine has checked of a block: its number follows its parent's. */
  predicate Numbered(b: Block) {
    b.parent.Of? ==> b.number == b.parent.block.number + 1
  }

  /** b descends from g. */
  predicate Rooted(g: Block, b: Block)
    decreases b
  {
    b == g || (b.parent.Of? && b.number == b.parent.block.number + 1 && Rooted(g, b.parent.block))
  }

  /** The sum of the difficulties from g to b. */
  function TotalDifficulty(g: Block, b: Block): (d: nat)
    decreases b
  {
    if b == g || b.parent.Zero? then b.difficulty else TotalDifficulty(g, b.parent.block) + b.difficulty
  }

  /** The chain from g to b, by number. */
  function Line(g: Block, b: Block): (m: map<nat, Hash>)
    decreases b
  {
    if b == g || b.parent.Zero? then map[b.number := Of(b)] else Line(g, b.parent.block)[b.number := Of(b)]
  }

  lemma {:induction false} LineKeys(g: Block, b: Block)
    requires IsGenesis(g) && Rooted(g, b)
    ensures forall n: nat :: n in Line(g, b) <==> n <= b.number
    ensures Line(g, b)[b.number] == Of(b)
    decreases b
  {
    if b != g {
      LineKeys(g, b.parent.block);
    }
  }

  /** The ancestor of b at number n. */
  lemma {:induction false} Along(g: Block, b: Block, n: nat) returns (a: Block)
    requires IsGenesis(g) && Rooted(g, b) && n <= b.number
    ensures Rooted(g, a) && a.number == n && n in Line(g, b) && Line(g, b)[n] == Of(a)
    ensures forall k: nat :: k <= n ==> k in Line(g, b) && k in Line(g, a) && Line(g, b)[k] == Line(g, a)[k]
    decreases b
  {
    LineKeys(g, b);
    if n == b.number {
      a := b;
    } else {
      LineKeys(g, b.parent.block);
      a := Along(g, b.parent.block, n);
      LineKeys(g, a);
    }
  }

  /** In a chain every block but the first is linked to the one before. */
  lemma LineLinked(g: Block, b: Block, n: nat)
    requires IsGenesis(g) && Rooted(g, b) && 0 < n <= b.number
    ensures n in Line(g, b) && n - 1 in Line(g, b) && Line(g, b)[n].Of?
    ensures Line(g, b)[n].block.parent == Line(g, b)[n - 1] && Line(g, b)[n].block.number == n
    ensures 0 in Line(g, b) && Line(g, b)[0] == Of(g)
  {
    var a := Along(g, b, n);
    var z := Along(g, b, 0);
    LineKeys(g, a.parent.block);
    assert Line(g, b)[n - 1] == Line(g, a)[n - 1];
  }

  /** The transactions of a that are not in b. */
  function TxDifference<T(==, !new)>(a: seq<T>, b: seq<T>): (d: seq<T>)
    ensures forall tx :: tx in d <==> tx in a && tx !in b
  {
    if a == [] then [] else (if a[0] in b then [] else [a[0]]) + TxDifference(a[1..], b)
  }
}
