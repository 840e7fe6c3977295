/** The function behind the BLOCKHASH instruction: hashes of the ancestors of a block, with
    a memo that fills as it walks down. */
module HashFns {
  import opened Wrappers
  import opened ChainTree

  type Store = map<(nat, Hash), Block>

  /** Headers are stored under their number and hash, and numbered one after the other. */
  predicate StoreOk(store: Store) {
    forall k :: k in store ==> k.1 == Of(store[k]) && k.0 == store[k].number <= MAX_UINT64 && Numbered(store[k])
  }

  /** The hash of the ancestor of b at number n as a walk over the stored headers finds it;
      the zero hash if there is none. */
  function AncestorHash(store: Store, b: Block, n: Uint64): (h: Hash)
    decreases b
  {
    if n == PrevNumber(b.number) then b.parent
    else if b.parent.Of? && b.ParentKey() in store then AncestorHash(store, b.parent.block, n)
    else Zero
  }

  /** With all ancestors stored that is the entry of the chain to b, below b. */
  lemma {:induction false} AncestorIsLine(g: Block, store: Store, b: Block, n: Uint64)
    requires IsGenesis(g) && Rooted(g, b) && b.number <= MAX_UINT64
    requires forall k: nat :: k < b.number && k in Line(g, b) ==> (k, Line(g, b)[k]) in store
    ensures n < b.number ==> n in Line(g, b) && AncestorHash(store, b, n) == Line(g, b)[n]
    ensures n >= b.number ==> AncestorHash(store, b, n) == Zero
    decreases b
  {
    if b != g {
      var p := b.parent.block;
      LineKeys(g, b);
      LineKeys(g, p);
      assert Line(g, b)[p.number] == Of(p);
      assert forall k: nat :: k < p.number ==> Line(g, b)[k] == Line(g, p)[k];
      AncestorIsLine(g, store, p, n);
    }
  }

  class HashFn {
    const ref: Block
    const store: Store
    var cache: Option<map<Uint64, Hash>>

    /** The memo holds nothing but hashes of ancestors; the number before zero, in 64 bits,
        stands for the parent of the genesis block, the zero hash. */
    ghost predicate Valid()
      reads this
    {
      && StoreOk(store) && Numbered(ref) && ref.number <= MAX_UINT64
      && (cache.Some? ==>
            PrevNumber(ref.number) in cache.value &&
            forall k :: k in cache.value ==> cache.value[k] == AncestorHash(store, ref, k))
    }

    constructor (ref: Block, store: Store)
      requires StoreOk(store) && Numbered(ref) && ref.number <= MAX_UINT64
      ensures Valid() && this.ref == ref && this.store == store
    {
      this.ref, this.store, cache := ref, store, None;
    }

    /** Whatever was asked before, the answer is that of a walk without memo. */
    method Get(n: Uint64) returns (h: Hash)
      requires Valid()
      modifies this
      ensures Valid() && h == AncestorHash(store, ref, n)
    {
      if cache.None? {
        cache := Some(map[PrevNumber(ref.number) := ref.parent]);
      }
      if n in cache.value {
        return cache.value[n];
      }
      var below, number := ref.parent, PrevNumber(ref.number);
      ghost var x := ref;
      while (number, below) in store
        invariant Valid() && cache.Some? && Numbered(x)
        invariant below == x.parent && number == PrevNumber(x.number)
        invariant n != number && x.number <= MAX_UINT64
        invariant forall k: Uint64 {:trigger AncestorHash(store, ref, k)} ::
                    k < x.number || k == n || k == MAX_UINT64 ==> AncestorHash(store, ref, k) == AncestorHash(store, x, k)
        decreases x
      {
        var header := store[(number, below)];
        x := header;
        cache := Some(cache.value[PrevNumber(header.number) := header.parent]);
        if n == PrevNumber(header.number) {
          return header.parent;
        }
        below, number := header.parent, PrevNumber(header.number);
      }
      h := Zero;
    }
  }
}
