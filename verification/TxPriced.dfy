/** The lookup of all pooled transactions and the price heap over them. The heap is
    cleaned lazily: a transaction that left the lookup stays behind as a stale
    entry, and a counter decides when to rebuild. */
module TxPriced {
  import opened Wrappers
  import opened Transactions
  import Heap

  /** Cheaper first; at equal prices the higher nonce first. */
  predicate PriceLess(a: Tx, b: Tx) {
    if a.gasPrice < b.gasPrice then true
    else if a.gasPrice > b.gasPrice then false
    else a.nonce > b.nonce
  }

  function PriceRank(tx: Tx): int {
    tx.gasPrice * (MAX_UINT64 + 1) - tx.nonce
  }

  /** The integer rank orders transactions as the heap's comparison does. */
  lemma PriceRankFaithful(a: Tx, b: Tx)
    ensures PriceLess(a, b) <==> PriceRank(a) < PriceRank(b)
  {
  }

  lemma RankBoundsPrice(a: Tx, b: Tx)
    requires PriceRank(a) <= PriceRank(b)
    ensures a.gasPrice <= b.gasPrice
  {
  }

  /** `live` is covered by the heap, and the counter is at least the number of
      entries in excess of it. */
  ghost predicate Tracked(items: seq<Tx>, stales: int, live: set<Tx>) {
    forall k {:trigger UnfoldPriced(k)} :: UnfoldPriced(k) ==>
                                             && Heap.IsHeap(PriceRank, items)
                                             && (forall tx :: tx in live ==> tx in items)
                                             && stales >= |items| - |live|
  }

  /** Guards the definition of Tracked: a proof sees it only where it mentions this
      predicate. */
  ghost predicate UnfoldPriced(k: int) { true }

  /** Number of entries that are no longer live. */
  ghost function StaleEntries(items: seq<Tx>, live: set<Tx>): nat {
    if items == [] then 0
    else StaleEntries(items[..|items| - 1], live) + if items[|items| - 1] in live then 0 else 1
  }

  /** A heap that covers the live transactions has at least one entry for each
      besides its stale ones. */
  lemma {:induction false} StalesBound(items: seq<Tx>, live: set<Tx>, covered: set<Tx>)
    requires covered <= live && forall tx :: tx in covered ==> tx in items
    ensures |items| - |covered| >= StaleEntries(items, live)
  {
    if items == [] {
      assert covered == {};
    } else {
      var l := |items| - 1;
      assert items == items[..l] + [items[l]];
      if items[l] in covered {
        StalesBound(items[..l], live, covered - {items[l]});
      } else {
        StalesBound(items[..l], live, covered);
      }
    }
  }

  /** Every live transaction has an entry, and the counter bounds the excess
      entries, which bound the stale ones. Two entries for one live transaction make
      the second bound strict. */
  lemma TrackedCounts(items: seq<Tx>, stales: int, live: set<Tx>)
    requires Tracked(items, stales, live)
    ensures forall tx :: tx in live ==> tx in items
    ensures stales >= |items| - |live| >= StaleEntries(items, live) >= 0
  {
    assert UnfoldPriced(0);
    StalesBound(items, live, live);
  }

  function SetOf(s: seq<Tx>): (r: set<Tx>) {
    set tx | tx in s
  }

  lemma SetOfNext(s: seq<Tx>, i: nat)
    requires i < |s|
    ensures SetOf(s[..i + 1]) == SetOf(s[..i]) + {s[i]} && s[i] in SetOf(s)
  {
    assert s[..i + 1] == s[..i] + [s[i]];
  }

  lemma {:induction false} SetOfSize(s: seq<Tx>)
    ensures |SetOf(s)| <= |s|
  {
    if s != [] {
      var l := |s| - 1;
      assert s == s[..l] + [s[l]];
      SetOfSize(s[..l]);
      assert SetOf(s) == SetOf(s[..l]) + {s[l]};
    }
  }

  /** Fewer transactions than entries: one of them was there twice. */
  lemma {:induction false} SomeDouble(s: seq<Tx>) returns (tx: Tx)
    requires |SetOf(s)| < |s|
    ensures tx in s && multiset(s)[tx] >= 2
  {
    var l := |s| - 1;
    assert s == s[..l] + [s[l]];
    assert SetOf(s) == SetOf(s[..l]) + {s[l]};
    if s[l] in s[..l] {
      tx := s[l];
      assert multiset(s[..l])[tx] >= 1;
    } else {
      tx := SomeDouble(s[..l]);
    }
  }

  /** `drop` has the cheapest of the live remote entries, an entry as often as it comes. */
  ghost predicate CheapestEntries(items: seq<Tx>, drop: seq<Tx>, live: set<Tx>, locals: set<Address>) {
    && multiset(drop) <= multiset(items) && (forall tx :: tx in drop ==> tx in live && tx.from !in locals)
    && (forall x, y :: x in drop && y in multiset(items) - multiset(drop) && y in live && y.from !in locals ==>
                         PriceRank(x) <= PriceRank(y))
  }

  class TxLookup {
    var all: set<Tx>

    constructor ()
      ensures all == {}
    {
      all := {};
    }
  }

  class TxPricedList {
    const all: TxLookup
    var items: seq<Tx>
    var stales: int

    constructor (all: TxLookup)
      ensures this.all == all && items == [] && stales == 0
      ensures Tracked(items, stales, {})
    {
      this.all := all;
      items, stales := [], 0;
    }

    ghost predicate Tracks(live: set<Tx>)
      reads this
    {
      Tracked(items, stales, live)
    }

    method Put(tx: Tx, ghost live: set<Tx>)
      requires Tracks(live) && tx !in live
      modifies this
      ensures Tracks(live + {tx})
    {
      assert UnfoldPriced(0);
      items := Heap.Push(PriceRank, items, tx);
      PushedSeq(old(items), items, tx);
    }

    /** Told that one transaction left the lookup: counts one more stale entry, and rebuilds the heap from the lookup once a
        quarter of it may be stale. */
    method Removed()
      requires Tracked(items, stales + 1, all.all)
      modifies this
      ensures Tracks(all.all)
      ensures if old(stales) + 1 <= |old(items)| / 4 then items == old(items) && stales == old(stales) + 1
              else stales == 0 && |items| == |all.all|
    {
      assert UnfoldPriced(0);
      stales := stales + 1;
      if stales <= |items| / 4 {
        return;
      }
      Reheap();
    }

    /** Rebuilds the heap from the lookup, after which nothing is stale. */
    method Reheap()
      modifies this
      ensures Tracks(all.all) && stales == 0 && |items| == |all.all|
    {
      items := [];
      var todo := all.all;
      while todo != {}
        invariant todo <= all.all
        invariant |items| == |all.all| - |todo|
        invariant forall tx :: tx in all.all - todo ==> tx in items
        decreases todo
      {
        var tx :| tx in todo;
        todo := todo - {tx};
        items := items + [tx];
      }
      ghost var loose := items;
      items := Heap.Init(PriceRank, items);
      Permuted(loose, items);
      stales := 0;
    }

    /** Entries popped so far: `save` and `drop` are live, `dead` is not, and every
        popped entry ranks no higher than what is left. */
    ghost predicate Popped(first: seq<Tx>, count: int, save: seq<Tx>, drop: seq<Tx>, dead: seq<Tx>)
      reads this, all
    {
      && Heap.IsHeap(PriceRank, items)
      && multiset(first) == multiset(items) + multiset(save) + multiset(drop) + multiset(dead)
      && stales == count - |dead|
      && (forall tx :: tx in save || tx in drop ==> tx in all.all)
      && (forall tx :: tx in dead ==> tx !in all.all)
    }

    /** Pops the cheapest entry; a stale one is taken off the counter. */
    method PopNext(ghost first: seq<Tx>, ghost count: int, ghost save: seq<Tx>, ghost drop: seq<Tx>, ghost dead: seq<Tx>)
      returns (tx: Tx, live: bool)
      requires Popped(first, count, save, drop, dead) && |items| > 0
      modifies this
      ensures live == (tx in all.all) && tx == old(items)[0] && |items| == |old(items)| - 1
      ensures live ==> Popped(first, count, save + [tx], drop, dead) && Popped(first, count, save, drop + [tx], dead)
      ensures !live ==> Popped(first, count, save, drop, dead + [tx])
      ensures forall y :: y in items ==> y in old(items)
      ensures forall y :: y in old(items) ==> PriceRank(tx) <= PriceRank(y)
    {
      items, tx := Heap.Pop(PriceRank, items);
      PushedSeq(items, old(items), tx);
      live := tx in all.all;
      if !live {
        stales := stales - 1;
      }
    }

    /** Puts the saved entries back; what remains tracked is the lookup without
        the dropped transactions. */
    method Restore(save: seq<Tx>, ghost first: seq<Tx>, ghost count: int, ghost drop: seq<Tx>, ghost dead: seq<Tx>)
      requires Popped(first, count, save, drop, dead) && Tracked(first, count, all.all)
      modifies this
      ensures Tracks(all.all - SetOf(drop))
    {
      assert UnfoldPriced(0);
      ghost var rest := items;
      for i := 0 to |save|
        invariant Heap.IsHeap(PriceRank, items) && stales == old(stales)
        invariant multiset(items) == multiset(rest) + multiset(save[..i])
      {
        assert save[..i + 1] == save[..i] + [save[i]];
        items := Heap.Push(PriceRank, items, save[i]);
      }
      assert save[..|save|] == save;
      RestoredCovers(first, items, drop, dead, all.all);
    }

    /** Drops everything below the threshold that no local account sent. */
    method Cap(threshold: nat, locals: set<Address>) returns (drop: seq<Tx>)
      requires Tracks(all.all)
      modifies this
      ensures Tracks(all.all - SetOf(drop))
      ensures forall tx :: tx in drop <==> tx in all.all && tx.from !in locals && tx.gasPrice < threshold
    {
      assert UnfoldPriced(0);
      var save: seq<Tx> := [];
      drop := [];
      ghost var dead: seq<Tx> := [];
      var done := false;
      while |items| > 0 && !done
        invariant Popped(old(items), old(stales), save, drop, dead)
        invariant forall tx :: tx in drop ==> tx.from !in locals && tx.gasPrice < threshold
        invariant forall tx :: tx in save ==> tx.from in locals || tx.gasPrice >= threshold
        invariant done ==> forall tx :: tx in items ==> tx.gasPrice >= threshold
        decreases |items|, !done
      {
        var tx, live := PopNext(old(items), old(stales), save, drop, dead);
        if !live {
          dead := dead + [tx];
        } else if tx.gasPrice >= threshold {
          forall y | y in items ensures y.gasPrice >= threshold { RankBoundsPrice(tx, y); }
          save := save + [tx];
          done := true;
        } else if tx.from in locals {
          save := save + [tx];
        } else {
          drop := drop + [tx];
        }
      }
      AllPopped(old(items), items, save, drop, dead, all.all);
      Restore(save, old(items), old(stales), drop, dead);
    }

    /** Whether tx costs no more than every transaction in the pool. */
    method Underpriced(tx: Tx, locals: set<Address>) returns (under: bool)
      requires Tracks(all.all)
      modifies this
      ensures Tracks(all.all) && multiset(items) <= multiset(old(items))
      ensures under <==> tx.from !in locals && all.all != {} && forall t :: t in all.all ==> tx.gasPrice <= t.gasPrice
    {
      assert UnfoldPriced(0);
      if tx.from in locals {
        return false;
      }
      ghost var dead: seq<Tx> := [];
      while |items| > 0 && items[0] !in all.all
        invariant Popped(old(items), old(stales), [], [], dead)
        decreases |items|
      {
        var stale, live := PopNext(old(items), old(stales), [], [], dead);
        dead := dead + [stale];
      }
      AllPopped(old(items), items, [], [], dead, all.all);
      RestoredCovers(old(items), items, [], dead, all.all);
      assert all.all - SetOf([]) == all.all;
      if |items| == 0 {
        assert all.all == {};
        return false;
      }
      under := items[0].gasPrice >= tx.gasPrice;
      CheapestFirst(items, all.all);
    }

    /** Drops up to `count` of the cheapest transactions that no local account sent. */
    method Discard(count: nat, locals: set<Address>) returns (drop: seq<Tx>)
      requires Tracks(all.all)
      modifies this
      ensures Tracks(all.all - SetOf(drop))
      ensures |drop| <= count && CheapestEntries(old(items), drop, all.all, locals)
      ensures forall x, y :: x in drop && y in all.all && y !in drop && y.from !in locals ==> PriceRank(x) <= PriceRank(y)
      ensures |drop| < count ==> forall tx :: tx in all.all && tx.from !in locals ==> tx in drop
    {
      assert UnfoldPriced(0);
      var save: seq<Tx> := [];
      drop := [];
      ghost var dead: seq<Tx> := [];
      while |items| > 0 && |drop| < count
        invariant Popped(old(items), old(stales), save, drop, dead)
        invariant |drop| <= count && forall tx :: tx in drop ==> tx.from !in locals
        invariant forall tx :: tx in save ==> tx.from in locals
        invariant forall x, y :: x in drop && y in items ==> PriceRank(x) <= PriceRank(y)
        decreases |items|
      {
        var tx, live := PopNext(old(items), old(stales), save, drop, dead);
        if !live {
          dead := dead + [tx];
        } else if tx.from in locals {
          save := save + [tx];
        } else {
          drop := drop + [tx];
        }
      }
      AllPopped(old(items), items, save, drop, dead, all.all);
      Cheapest(old(items), items, save, drop, dead, all.all, locals);
      Restore(save, old(items), old(stales), drop, dead);
    }
  }

  /** What is popped in the order of the heap is the cheapest. */
  lemma Cheapest(first: seq<Tx>, items: seq<Tx>, save: seq<Tx>, drop: seq<Tx>, dead: seq<Tx>, all: set<Tx>,
                 locals: set<Address>)
    requires multiset(first) == multiset(items) + multiset(save) + multiset(drop) + multiset(dead)
    requires forall tx :: tx in dead ==> tx !in all
    requires forall tx :: tx in save ==> tx.from in locals
    requires forall tx :: tx in drop ==> tx in all && tx.from !in locals
    requires forall x, y :: x in drop && y in items ==> PriceRank(x) <= PriceRank(y)
    ensures CheapestEntries(first, drop, all, locals)
  {
    forall x, y | x in drop && y in multiset(first) - multiset(drop) && y in all && y.from !in locals
      ensures PriceRank(x) <= PriceRank(y)
    {
      assert y in multiset(items) + multiset(save) + multiset(dead);
      assert y in items;
    }
  }

  /** A transaction that left the pool and came back, while the entry it left behind was
      still counted as stale: it has two entries, and two entries dropped are then one
      transaction dropped. */
  lemma DoubleExample(a: Tx, b: Tx, c: Tx, d: Tx, drop: seq<Tx>)
    requires a.gasPrice < b.gasPrice && a.gasPrice < c.gasPrice && a.gasPrice < d.gasPrice && |{a, b, c, d}| == 4
    requires CheapestEntries([a, a, b, c, d], drop, {a, b, c, d}, {}) && |drop| == 2
    ensures Tracked([a, a, b, c, d], 1, {a, b, c, d}) && SetOf(drop) == {a}
  {
    var items := [a, a, b, c, d];
    forall k ensures Heap.InOrder(PriceRank, items, k) {
      if k == 2 { PriceRankFaithful(a, b); }
      if k == 3 { PriceRankFaithful(a, c); }
      if k == 4 { PriceRankFaithful(a, d); }
    }
    assert drop == [drop[0], drop[1]];
    forall i | 0 <= i < 2 ensures drop[i] == a {
      OnlyCheapest(a, b, c, d, drop, drop[i]);
    }
  }

  lemma OnlyCheapest(a: Tx, b: Tx, c: Tx, d: Tx, drop: seq<Tx>, x: Tx)
    requires a.gasPrice < b.gasPrice && a.gasPrice < c.gasPrice && a.gasPrice < d.gasPrice && |drop| == 2
    requires CheapestEntries([a, a, b, c, d], drop, {a, b, c, d}, {}) && x in drop
    ensures x == a
  {
    if x != a {
      assert multiset([a, a, b, c, d])[a] == 2;
      assert drop == [drop[0], drop[1]] && multiset(drop) == multiset{drop[0], drop[1]};
      assert a in multiset([a, a, b, c, d]) - multiset(drop);
      PriceRankFaithful(a, x);
    }
  }

  /** A live transaction is still in the heap, or was saved, or was dropped. */
  lemma AllPopped(first: seq<Tx>, items: seq<Tx>, save: seq<Tx>, drop: seq<Tx>, dead: seq<Tx>, all: set<Tx>)
    requires multiset(first) == multiset(items) + multiset(save) + multiset(drop) + multiset(dead)
    requires forall tx :: tx in dead ==> tx !in all
    requires forall tx :: tx in all ==> tx in first
    ensures forall tx :: tx in all ==> tx in items || tx in save || tx in drop
  {
    forall tx | tx in all ensures tx in items || tx in save || tx in drop {
      assert tx in multiset(first);
    }
  }

  lemma CheapestFirst(items: seq<Tx>, all: set<Tx>)
    requires Heap.IsHeap(PriceRank, items) && items != [] && items[0] in all
    requires forall tx :: tx in all ==> tx in items
    ensures forall tx :: tx in all ==> items[0].gasPrice <= tx.gasPrice
  {
    forall tx | tx in all ensures items[0].gasPrice <= tx.gasPrice {
      var k: nat :| k < |items| && items[k] == tx;
      Heap.RootIsLeast(PriceRank, items, k);
      RankBoundsPrice(items[0], tx);
    }
  }

  lemma RestoredCovers(first: seq<Tx>, items: seq<Tx>, drop: seq<Tx>, dead: seq<Tx>, all: set<Tx>)
    requires multiset(first) == multiset(items) + multiset(drop) + multiset(dead)
    requires forall tx :: tx in drop ==> tx in all
    requires forall tx :: tx in dead ==> tx !in all
    requires forall tx :: tx in all ==> tx in first
    ensures forall tx :: tx in all - SetOf(drop) ==> tx in items
    ensures |first| - |dead| - |all| >= |items| - |all - SetOf(drop)|
  {
    assert |multiset(first)| == |multiset(items)| + |multiset(drop)| + |multiset(dead)|;
    SetOfSize(drop);
    assert SetOf(drop) <= all;
    forall tx | tx in all - SetOf(drop) ensures tx in items {
      assert tx in multiset(first);
    }
  }

  lemma PushedSeq(s: seq<Tx>, r: seq<Tx>, x: Tx)
    requires multiset(r) == multiset(s) + multiset{x}
    ensures |r| == |s| + 1 && forall tx :: tx in r <==> tx in s || tx == x
  {
    assert |multiset(r)| == |multiset(s)| + 1;
    assert forall tx :: tx in r <==> tx in multiset(r);
  }

  lemma Permuted(s: seq<Tx>, r: seq<Tx>)
    requires multiset(r) == multiset(s)
    ensures |r| == |s| && forall tx :: tx in r <==> tx in s
  {
    assert |multiset(r)| == |multiset(s)|;
    assert forall tx :: tx in r <==> tx in multiset(r);
  }
}
