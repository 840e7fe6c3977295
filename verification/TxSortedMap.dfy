/** The nonce-to-transaction map of one account: a hash map, a heap of its nonces
    and a cache of its contents in nonce order. */
module TxSortedMaps {
  import opened Wrappers
  import opened Transactions
  import Heap

  function NonceRank(n: Uint64): int { n }

  function TxNonce(tx: Tx): int { tx.nonce }

  /** A heap that holds every key of m exactly once. */
  ghost predicate Indexes(index: seq<Uint64>, m: TxMap) {
    Heap.IsHeap(NonceRank, index) && multiset(index) == multiset(m.Keys)
  }

  lemma IndexMember(index: seq<Uint64>, m: TxMap, n: Uint64)
    requires multiset(index) == multiset(m.Keys)
    ensures n in index <==> n in m
  {
    assert n in multiset(index) <==> n in multiset(m.Keys);
  }

  lemma IndexInsert(m: TxMap, tx: Tx)
    requires tx.nonce !in m
    ensures multiset(m[tx.nonce := tx].Keys) == multiset(m.Keys) + multiset{tx.nonce}
  {
    assert m[tx.nonce := tx].Keys == m.Keys + {tx.nonce};
  }

  lemma IndexDelete(index: seq<Uint64>, m: TxMap, n: Uint64)
    requires multiset(m.Keys) == multiset(index) + multiset{n}
    ensures n in m && multiset(index) == multiset((m - {n}).Keys)
  {
    assert multiset(m.Keys)[n] == multiset(index)[n] + 1;
    assert (m - {n}).Keys == m.Keys - {n};
    forall x ensures multiset(index)[x] == multiset(m.Keys - {n})[x] {
      assert multiset(m.Keys)[x] == (multiset(index) + multiset{n})[x];
    }
  }

  lemma {:induction false} IndexSize(s: seq<Uint64>, keys: set<Uint64>)
    requires multiset(s) == multiset(keys)
    ensures |s| == |keys|
  {
    assert |multiset(s)| == |multiset(keys)|;
  }

  /** What is gone from m is its lowest nonces, listed in `taken`. */
  ghost predicate Drained(m: TxMap, items: TxMap, taken: seq<Tx>) {
    && (forall n :: n in items ==> n in m && items[n] == m[n])
    && (forall a, b :: a in m && a !in items && b in items ==> a < b)
    && Lists(taken, m - items.Keys)
  }

  lemma DrainStep(m: TxMap, items: TxMap, taken: seq<Tx>, n: Uint64)
    requires WellKeyed(m) && Drained(m, items, taken)
    requires n in items && forall k :: k in items ==> n <= k
    ensures Drained(m, items - {n}, taken + [items[n]])
  {
    var gone := m - items.Keys;
    ListsAppend(taken, gone, items[n]);
    assert m - (items - {n}).Keys == gone[n := items[n]];
  }

  lemma CacheTail(m: TxMap, items: TxMap, taken: seq<Tx>, cache: seq<Tx>)
    requires WellKeyed(m) && Drained(m, items, taken) && Lists(cache, m)
    ensures |taken| <= |cache| && Lists(cache[|taken|..], items)
  {
    var gone := m - items.Keys;
    assert items == m - gone.Keys;
    var a, b := SplitLists(cache, m, gone, items);
    ListsUnique(a, taken, gone);
    assert cache[|taken|..] == b;
  }

  /** The front of the index is the lowest nonce. */
  lemma LeastKey(index: seq<Uint64>, m: TxMap)
    requires Indexes(index, m)
    ensures index == [] ==> m == map[]
    ensures index != [] ==> index[0] in m && forall n :: n in m ==> index[0] <= n
  {
    forall n | n in m ensures index != [] && index[0] <= n {
      IndexMember(index, m, n);
      var k: nat :| k < |index| && index[k] == n;
      Heap.RootIsLeast(NonceRank, index, k);
    }
    if index != [] {
      IndexMember(index, m, index[0]);
    }
  }

  lemma CacheHead(m: TxMap, items: TxMap, drops: seq<Tx>, cache: seq<Tx>)
    requires WellKeyed(m) && LowPart(items, m) && Lists(cache, m)
    requires Enumerates(drops, m - items.Keys)
    ensures |drops| <= |cache| && Lists(cache[..|cache| - |drops|], items)
  {
    var gone := m - items.Keys;
    EnumeratesSize(drops, gone);
    var a, b := SplitLists(cache, m, items, gone);
    ListsSize(b, gone);
    assert cache[..|cache| - |drops|] == a;
  }

  /** The highest nonces of m are gone into `drops`; the sorted index still holds
      the remaining `size` ones at its front. */
  ghost predicate Capped(m: TxMap, items: TxMap, index: seq<Uint64>, size: nat, drops: seq<Tx>) {
    && size == |items| <= |index| && multiset(index[..size]) == multiset(items.Keys)
    && Heap.SortedBy(NonceRank, index)
    && WellKeyed(items) && LowPart(items, m) && Enumerates(drops, m - items.Keys)
  }

  lemma CapStart(m: TxMap, index: seq<Uint64>)
    requires WellKeyed(m) && multiset(index) == multiset(m.Keys) && Heap.SortedBy(NonceRank, index)
    ensures Capped(m, m, index, |m|, [])
  {
    IndexSize(index, m.Keys);
    assert index[..|m|] == index && m - m.Keys == map[];
  }

  lemma CapStep(m: TxMap, items: TxMap, index: seq<Uint64>, size: nat, drops: seq<Tx>)
    requires Capped(m, items, index, size, drops) && size > 0
    ensures index[size - 1] in items
    ensures Capped(m, items - {index[size - 1]}, index, size - 1, drops + [items[index[size - 1]]])
  {
    var nonce := index[size - 1];
    assert index[..size] == index[..size - 1] + [nonce];
    IndexDelete(index[..size - 1], items, nonce);
    var less := items - {nonce};
    forall n | n in less ensures n < nonce {
      IndexMember(index[..size - 1], less, n);
      var i :| 0 <= i < size - 1 && index[..size - 1][i] == n;
      assert NonceRank(index[i]) <= NonceRank(nonce);
    }
    EnumeratesAppend(drops, m - items.Keys, items[nonce]);
    assert m - less.Keys == (m - items.Keys)[nonce := items[nonce]];
    assert items.Keys == less.Keys + {nonce};
  }

  /** Guards the invariant below: a proof sees its definition only where it mentions
      this predicate. */
  ghost predicate UnfoldMap(k: int) { true }

  /** The fields of a sorted map as a value. */
  datatype SavedMap = SavedMap(items: TxMap, index: seq<Uint64>, cache: Option<seq<Tx>>) {
    ghost predicate Valid() {
      forall k {:trigger UnfoldMap(k)} :: UnfoldMap(k) ==>
                                            && WellKeyed(items)
                                            && Indexes(index, items)
                                            && (cache.Some? ==> Lists(cache.value, items))
    }
  }

  class TxSortedMap {
    var items: TxMap
    var index: seq<Uint64>
    var cache: Option<seq<Tx>>

    function Save(): (saved: SavedMap)
      reads this
    {
      SavedMap(items, index, cache)
    }

    ghost predicate Valid()
      reads this
    {
      Save().Valid()
    }

    constructor ()
      ensures Valid() && items == map[]
    {
      items, index, cache := map[], [], None;
    }

    constructor Load(saved: SavedMap)
      requires saved.Valid()
      ensures Valid() && items == saved.items
    {
      items, index, cache := saved.items, saved.index, saved.cache;
      new;
      assert UnfoldMap(0);
    }

    method Put(tx: Tx)
      requires Valid()
      modifies this
      ensures Valid() && items == WithTx(old(items), tx)
    {
      assert UnfoldMap(0);
      if tx.nonce !in items {
        IndexInsert(items, tx);
        index := Heap.Push(NonceRank, index, tx.nonce);
      } else {
        assert items[tx.nonce := tx].Keys == items.Keys;
      }
      items, cache := items[tx.nonce := tx], None;
    }

    /** Pops the lowest nonce off the index and takes its transaction out. */
    method TakeLowest(ghost m: TxMap, ghost taken: seq<Tx>) returns (tx: Tx)
      requires WellKeyed(items) && Indexes(index, items) && |index| > 0
      requires WellKeyed(m) && Drained(m, items, taken)
      modifies this`items, this`index
      ensures WellKeyed(items) && Indexes(index, items)
      ensures Drained(m, items, taken + [tx])
      ensures tx.nonce == old(index)[0] && |index| < |old(index)|
      ensures tx.nonce in old(items) && items == old(items) - {tx.nonce}
    {
      LeastKey(index, items);
      var nonce;
      index, nonce := Heap.Pop(NonceRank, index);
      assert |multiset(old(index))| == |multiset(index)| + 1;
      IndexDelete(index, items, nonce);
      DrainStep(m, items, taken, nonce);
      tx := items[nonce];
      items := items - {nonce};
    }

    /** Removes and returns, in nonce order, everything below the threshold. */
    method Forward(threshold: Uint64) returns (removed: seq<Tx>)
      requires Valid()
      modifies this
      ensures Valid()
      ensures items == Drop(old(items), Below(threshold))
      ensures Lists(removed, Keep(old(items), Below(threshold)))
    {
      assert UnfoldMap(0);
      removed := [];
      assert items - items.Keys == map[];
      while |index| > 0 && index[0] < threshold
        invariant WellKeyed(items) && Indexes(index, items) && cache == old(cache)
        invariant Drained(old(items), items, removed)
        invariant forall n :: n in old(items) && n !in items ==> n < threshold
        decreases |index|
      {
        var tx := TakeLowest(old(items), removed);
        removed := removed + [tx];
      }
      LeastKey(index, items);
      assert old(items) - items.Keys == Keep(old(items), Below(threshold));
      if cache.Some? {
        CacheTail(old(items), items, removed, cache.value);
        cache := Some(cache.value[|removed|..]);
      }
    }

    /** Drains the whole map in nonce order, whatever the gaps between nonces. */
    method Ready(start: Uint64) returns (ready: seq<Tx>)
      requires Valid()
      modifies this
      ensures Valid() && items == map[]
      ensures Lists(ready, old(items))
    {
      assert UnfoldMap(0);
      ready := [];
      if |index| == 0 {
        LeastKey(index, items);
        return;
      }
      assert items - items.Keys == map[];
      var next := index[0];
      while |index| > 0
        invariant WellKeyed(items) && Indexes(index, items)
        invariant Drained(old(items), items, ready)
        decreases |index|
      {
        if index[0] == next {
          var tx := TakeLowest(old(items), ready);
          ready := ready + [tx];
        } else {
          var tx := TakeLowest(old(items), ready);
          ready := ready + [tx];
        }
        next := if next == MAX_UINT64 then 0 else next + 1;
      }
      LeastKey(index, items);
      assert old(items) - items.Keys == old(items);
      cache := None;
    }

    /** Removes and returns everything the filter selects, in any order. */
    method Filter(filter: Tx -> bool) returns (removed: seq<Tx>)
      requires Valid()
      modifies this
      ensures Valid()
      ensures items == Drop(old(items), filter)
      ensures Enumerates(removed, Keep(old(items), filter))
    {
      assert UnfoldMap(0);
      removed := Sift(filter);
      if |removed| > 0 {
        Reindex();
        cache := None;
      } else {
        NothingSifted(old(items), filter);
      }
    }

    /** Deletes what the filter selects, leaving heap and cache behind. */
    method Sift(filter: Tx -> bool) returns (removed: seq<Tx>)
      requires WellKeyed(items)
      modifies this`items
      ensures items == Drop(old(items), filter)
      ensures Enumerates(removed, Keep(old(items), filter))
    {
      removed := [];
      var todo := items.Keys;
      assert items - items.Keys == map[];
      while todo != {}
        invariant todo <= items.Keys
        invariant Sifted(old(items), items, todo, filter, removed)
        decreases todo
      {
        var nonce :| nonce in todo;
        ghost var was := todo;
        todo := todo - {nonce};
        assert todo + {nonce} == was;
        if filter(items[nonce]) {
          SiftStep(old(items), items, todo, filter, removed, nonce);
          removed := removed + [items[nonce]];
          items := items - {nonce};
        }
      }
      assert items == Drop(old(items), filter);
      assert old(items) - items.Keys == Keep(old(items), filter);
    }

    /** Rebuilds the nonce heap from the stored transactions. */
    method Reindex()
      modifies this`index
      ensures Indexes(index, items)
    {
      index := [];
      var todo := items.Keys;
      while todo != {}
        invariant todo <= items.Keys
        invariant multiset(index) == multiset(items.Keys - todo)
        decreases todo
      {
        var nonce :| nonce in todo;
        assert items.Keys - (todo - {nonce}) == items.Keys - todo + {nonce};
        todo := todo - {nonce};
        index := index + [nonce];
      }
      assert items.Keys - {} == items.Keys;
      index := Heap.Init(NonceRank, index);
    }

    /** Keeps the `threshold` lowest nonces and returns the rest. */
    method Cap(threshold: nat) returns (drops: seq<Tx>)
      requires Valid()
      modifies this
      ensures Valid() && LowPart(items, old(items))
      ensures |items| == if |old(items)| <= threshold then |old(items)| else threshold
      ensures Enumerates(drops, old(items) - items.Keys)
    {
      assert UnfoldMap(0);
      drops := [];
      assert items - items.Keys == map[];
      if |items| <= threshold {
        return;
      }
      index := Heap.Sort(NonceRank, index);
      drops := DropHighest(threshold);
      index := index[..threshold];
      index := Heap.Init(NonceRank, index);
      if cache.Some? {
        CacheHead(old(items), items, drops, cache.value);
        cache := Some(cache.value[..|cache.value| - |drops|]);
      }
    }

    /** Deletes from the top of the sorted index until `threshold` are left. */
    method DropHighest(threshold: nat) returns (drops: seq<Tx>)
      requires WellKeyed(items) && multiset(index) == multiset(items.Keys)
      requires Heap.SortedBy(NonceRank, index) && threshold <= |items|
      modifies this`items
      ensures Capped(old(items), items, index, threshold, drops)
    {
      drops := [];
      CapStart(items, index);
      var size := |items|;
      while size > threshold
        invariant threshold <= size
        invariant Capped(old(items), items, index, size, drops)
      {
        CapStep(old(items), items, index, size, drops);
        drops := drops + [items[index[size - 1]]];
        items := items - {index[size - 1]};
        size := size - 1;
      }
    }

    method Remove(nonce: Uint64) returns (found: bool)
      requires Valid()
      modifies this
      ensures Valid() && found == (nonce in old(items))
      ensures items == old(items) - {nonce}
    {
      assert UnfoldMap(0);
      found := nonce in items;
      if !found {
        assert items - {nonce} == items;
        return;
      }
      IndexMember(index, items, nonce);
      var i := 0;
      while index[i] != nonce
        invariant 0 <= i < |index| && nonce in index[i..]
        decreases |index| - i
      {
        i := i + 1;
      }
      index := Heap.Remove(NonceRank, index, i);
      IndexDelete(index, items, nonce);
      items := items - {nonce};
      cache := None;
    }

    /** The contents in nonce order, sorted once and then kept in the cache. */
    method Flatten() returns (txs: seq<Tx>)
      requires Valid()
      modifies this`cache
      ensures Valid() && Lists(txs, items)
    {
      assert UnfoldMap(0);
      if cache.None? {
        var s := [];
        var todo := items.Keys;
        while todo != {}
          invariant todo <= items.Keys && Enumerates(s, items - todo)
          decreases todo
        {
          var nonce :| nonce in todo;
          EnumeratesAppend(s, items - todo, items[nonce]);
          assert items - (todo - {nonce}) == (items - todo)[nonce := items[nonce]];
          todo := todo - {nonce};
          s := s + [items[nonce]];
        }
        assert items - {} == items;
        var t := Heap.Sort(TxNonce, s);
        EnumeratesPermuted(s, t, items);
        SortedLists(t, items);
        cache := Some(t);
      }
      txs := cache.value;
    }
  }

  lemma {:induction false} SortedLists(s: seq<Tx>, m: TxMap)
    requires Enumerates(s, m) && WellKeyed(m) && Heap.SortedBy(TxNonce, s)
    ensures Lists(s, m)
  {
    if s != [] {
      var l := |s| - 1;
      forall n | n in m ensures n <= s[l].nonce {
        EnumeratesMember(s, m, m[n]);
        var i :| 0 <= i < |s| && s[i] == m[n];
        assert TxNonce(s[i]) <= TxNonce(s[l]);
      }
      SortedLists(s[..l], m - {s[l].nonce});
    }
  }

  /** m without the selection of the filter, where `todo` is still to be looked at. */
  ghost predicate Sifted(m: TxMap, items: TxMap, todo: set<Uint64>, filter: Tx -> bool, removed: seq<Tx>) {
    && (forall n :: n in items ==> n in m && items[n] == m[n])
    && (forall n :: n in m ==> (n in items <==> n in todo || !filter(m[n])))
    && Enumerates(removed, m - items.Keys)
  }

  lemma SiftStep(m: TxMap, items: TxMap, todo: set<Uint64>, filter: Tx -> bool, removed: seq<Tx>, n: Uint64)
    requires n in items && n !in todo && filter(items[n]) && items[n].nonce == n
    requires Sifted(m, items, todo + {n}, filter, removed)
    ensures Sifted(m, items - {n}, todo, filter, removed + [items[n]])
  {
    var gone := m - items.Keys;
    EnumeratesAppend(removed, gone, items[n]);
    assert m - (items - {n}).Keys == gone[n := items[n]];
  }

  lemma NothingSifted(m: TxMap, filter: Tx -> bool)
    requires Enumerates([], Keep(m, filter))
    ensures Drop(m, filter) == m
  {
    assert forall n :: n in m ==> n !in Keep(m, filter);
  }
}
