/** The lists of one kind, pending or queued, for all accounts. */
module AccountBooks {
  import opened Wrappers
  import opened Transactions
  import opened TxLists

  /** Guards the invariant below: a proof sees its definition only where it mentions
      this predicate. */
  ghost predicate UnfoldBook(k: int) { true }

  class AccountBook {
    const strict: bool
    var lists: map<Address, SavedList>
    ghost var view: Book

    ghost predicate Valid()
      reads this
    {
      forall k {:trigger UnfoldBook(k)} :: UnfoldBook(k) ==>
                                             view.Keys == lists.Keys && forall a :: a in lists ==> Stored(a)
    }

    ghost predicate Stored(a: Address)
      reads this
    {
      a in lists && a in view && lists[a].Valid() && lists[a].strict == strict && lists[a].txs.items == view[a]
    }

    constructor (strict: bool)
      ensures Valid() && view == map[] && this.strict == strict
    {
      this.strict := strict;
      lists, view := map[], map[];
    }

    /** The list of an account, as an object to work on. */
    method Load(a: Address) returns (list: TxList)
      requires Valid() && a in view
      ensures fresh(list) && fresh(list.txs) && list.Valid() && list.strict == strict && list.Items() == view[a]
    {
      assert UnfoldBook(0) && Stored(a);
      list := new TxList.Load(lists[a]);
    }

    method Store(a: Address, list: TxList)
      requires Valid() && list.Valid() && list.strict == strict
      modifies this
      ensures Valid() && view == old(view)[a := list.Items()]
    {
      assert UnfoldBook(0);
      lists, view := lists[a := list.Save()], view[a := list.Items()];
      assert forall b :: b in old(lists) ==> old(Stored(b));
    }

    /** Offers a transaction to the list of an account, creating the list if there
        is none. */
    method Add(a: Address, tx: Tx, priceBump: nat) returns (ok: bool, prior: Option<Tx>)
      requires Valid()
      modifies this
      ensures Valid()
      ensures ok == Accepts(At(old(view), a), tx, priceBump)
      ensures prior == if ok then Occupant(At(old(view), a), tx.nonce) else None
      ensures view == if ok then old(view)[a := WithTx(At(old(view), a), tx)] else old(view)
    {
      var list;
      if !Has(a) {
        list := new TxList(strict);
      } else {
        list := Load(a);
      }
      ok, prior := list.Add(tx, priceBump);
      Store(a, list);
    }

    method Forward(a: Address, threshold: Uint64) returns (removed: seq<Tx>)
      requires Valid() && a in view
      modifies this
      ensures Valid()
      ensures view == old(view)[a := Drop(old(view)[a], Below(threshold))]
      ensures Lists(removed, Keep(old(view)[a], Below(threshold)))
    {
      var list := Load(a);
      removed := list.Forward(threshold);
      Store(a, list);
    }

    method Filter(a: Address, costLimit: nat, gasLimit: Uint64) returns (removed: seq<Tx>, invalids: seq<Tx>)
      requires Valid() && a in view
      modifies this
      ensures Valid()
      ensures var m, over := old(view)[a], Unpayable(costLimit, gasLimit);
              && Enumerates(removed, Keep(m, over))
              && Enumerates(invalids, if strict then Stranded(m, over) else map[])
              && view == old(view)[a := if strict then Grounded(m, over) else Drop(m, over)]
    {
      var list := Load(a);
      removed, invalids := list.Filter(costLimit, gasLimit);
      Store(a, list);
    }

    method Remove(a: Address, tx: Tx) returns (found: bool, invalids: seq<Tx>)
      requires Valid() && a in view
      modifies this
      ensures Valid() && found == (tx.nonce in old(view)[a])
      ensures Enumerates(invalids, if found && strict then Keep(old(view)[a], Above(tx.nonce)) else map[])
      ensures view == old(view)[a := if found && strict then Drop(old(view)[a] - {tx.nonce}, Above(tx.nonce))
                                     else old(view)[a] - {tx.nonce}]
    {
      var list := Load(a);
      found, invalids := list.Remove(tx);
      assert !found ==> old(view)[a] - {tx.nonce} == old(view)[a];
      Store(a, list);
    }

    method Ready(a: Address, start: Uint64) returns (ready: seq<Tx>)
      requires Valid() && a in view
      modifies this
      ensures Valid()
      ensures Lists(ready, old(view)[a]) && view == old(view)[a := map[]]
    {
      var list := Load(a);
      ready := list.Ready(start);
      Store(a, list);
    }

    method Cap(a: Address, threshold: nat) returns (drops: seq<Tx>)
      requires Valid() && a in view
      modifies this
      ensures Valid()
      ensures a in view && view == old(view)[a := view[a]] && LowPart(view[a], old(view)[a])
      ensures |view[a]| == if |old(view)[a]| <= threshold then |old(view)[a]| else threshold
      ensures Enumerates(drops, old(view)[a] - view[a].Keys)
    {
      var list := Load(a);
      drops := list.Cap(threshold);
      Store(a, list);
    }

    method Flatten(a: Address) returns (txs: seq<Tx>)
      requires Valid() && a in view
      modifies this
      ensures Valid() && view == old(view) && Lists(txs, view[a])
    {
      var list := Load(a);
      txs := list.Flatten();
      Store(a, list);
    }

    /** Forgets the list of an account once it is empty. */
    method Prune(a: Address) returns (gone: bool)
      requires Valid() && a in view
      modifies this
      ensures Valid() && gone == (old(view)[a] == map[]) && view == With(old(view), a, old(view)[a])
    {
      assert UnfoldBook(0) && Stored(a);
      gone := |lists[a].txs.items| == 0;
      if gone {
        lists, view := lists - {a}, view - {a};
        assert forall b :: b in lists ==> old(Stored(b));
      }
    }

    function Accounts(): (accounts: set<Address>)
      requires Valid()
      reads this
      ensures accounts == view.Keys
    {
      assert UnfoldBook(0);
      lists.Keys
    }

    predicate Has(a: Address)
      requires Valid()
      reads this
      ensures Has(a) <==> a in view
    {
      assert UnfoldBook(0);
      a in lists
    }

    predicate Overlaps(tx: Tx)
      requires Valid() && tx.from in view
      reads this
      ensures Overlaps(tx) <==> tx.nonce in view[tx.from]
    {
      assert UnfoldBook(0) && Stored(tx.from);
      tx.nonce in lists[tx.from].txs.items
    }

    function Len(a: Address): (n: nat)
      requires Valid() && a in view
      reads this
      ensures n == |view[a]|
    {
      assert UnfoldBook(0) && Stored(a);
      |lists[a].txs.items|
    }
  }
}
