/** The transaction list of one account: a sorted map with a strictness mode and
    cached upper bounds on the cost and gas of what it holds. */
module TxLists {
  import opened Wrappers
  import opened Transactions
  import opened TxSortedMaps

  /** The price a replacement has to reach: strictly above the old price and at
      least `bump` percent above it. */
  predicate Outbids(tx: Tx, prior: Tx, bump: nat) {
    tx.gasPrice > prior.gasPrice && tx.gasPrice >= prior.gasPrice * (100 + bump) / 100
  }

  /** The rule in whole percents: the price is higher, and less than one unit short of the old
      price with the bump. */
  lemma OutbidsIff(tx: Tx, prior: Tx, bump: nat)
    ensures Outbids(tx, prior, bump) <==>
            tx.gasPrice > prior.gasPrice && 100 * tx.gasPrice > prior.gasPrice * (100 + bump) - 100
  {
    Floor(prior.gasPrice * (100 + bump), tx.gasPrice);
  }

  lemma Floor(x: nat, p: nat)
    ensures p >= x / 100 <==> 100 * p > x - 100
  {
  }

  /** tx may take its nonce in m. */
  predicate Accepts(m: TxMap, tx: Tx, bump: nat) {
    tx.nonce in m ==> Outbids(tx, m[tx.nonce], bump)
  }

  function Occupant(m: TxMap, nonce: Uint64): (r: Option<Tx>) {
    if nonce in m then Some(m[nonce]) else None
  }

  function AsSet(o: Option<Tx>): (s: set<Tx>) {
    if o.Some? then {o.value} else {}
  }

  /** Selects what costs more than the balance or needs more gas than the limit. */
  function Unpayable(costLimit: nat, gasLimit: Uint64): Tx -> bool {
    (tx: Tx) => tx.cost > costLimit || tx.gas > gasLimit
  }

  /** Payable transactions behind an unpayable one. */
  ghost function Stranded(m: TxMap, over: Tx -> bool): (r: TxMap) {
    map n | n in m && !over(m[n]) && exists u :: u in m && over(m[u]) && u < n :: m[n]
  }

  /** Payable transactions with no unpayable one before them. */
  ghost function Grounded(m: TxMap, over: Tx -> bool): (r: TxMap) {
    map n | n in m && !over(m[n]) && forall u :: u in m && over(m[u]) ==> n < u :: m[n]
  }

  /** Guards the invariant below: a proof sees its definition only where it mentions
      this predicate. */
  ghost predicate UnfoldList(k: int) { true }

  /** The fields of a list as a value. */
  datatype SavedList = SavedList(strict: bool, txs: SavedMap, costcap: nat, gascap: Uint64) {
    /** The caps bound the cost and the gas of everything in the list. */
    ghost predicate Valid() {
      forall k {:trigger UnfoldList(k)} :: UnfoldList(k) ==>
        && txs.Valid()
        && forall n :: n in txs.items ==> txs.items[n].cost <= costcap && txs.items[n].gas <= gascap
    }
  }

  class TxList {
    const strict: bool
    const txs: TxSortedMap
    var costcap: nat
    var gascap: Uint64

    function Save(): (saved: SavedList)
      reads this, txs
    {
      SavedList(strict, txs.Save(), costcap, gascap)
    }

    ghost predicate Valid()
      reads this, txs
    {
      Save().Valid()
    }

    ghost function Items(): (m: TxMap)
      reads txs
    {
      txs.items
    }

    constructor (strict: bool)
      ensures Valid() && Items() == map[] && this.strict == strict && fresh(txs)
    {
      this.strict := strict;
      txs := new TxSortedMap();
      costcap, gascap := 0, 0;
    }

    constructor Load(saved: SavedList)
      requires saved.Valid()
      ensures Valid() && Items() == saved.txs.items && strict == saved.strict && fresh(txs)
    {
      assert UnfoldList(0);
      strict := saved.strict;
      txs := new TxSortedMap.Load(saved.txs);
      costcap, gascap := saved.costcap, saved.gascap;
    }

    predicate Overlaps(tx: Tx)
      reads txs
    {
      tx.nonce in txs.items
    }

    method Add(tx: Tx, priceBump: nat) returns (inserted: bool, prior: Option<Tx>)
      requires Valid()
      modifies this, txs
      ensures Valid()
      ensures inserted == Accepts(old(Items()), tx, priceBump)
      ensures Items() == if inserted then WithTx(old(Items()), tx) else old(Items())
      ensures prior == if inserted then Occupant(old(Items()), tx.nonce) else None
    {
      assert UnfoldList(0);
      prior := Occupant(txs.items, tx.nonce);
      if prior.Some? && !Outbids(tx, prior.value, priceBump) {
        return false, None;
      }
      txs.Put(tx);
      if costcap < tx.cost {
        costcap := tx.cost;
      }
      if gascap < tx.gas {
        gascap := tx.gas;
      }
      inserted := true;
    }

    method Forward(threshold: Uint64) returns (removed: seq<Tx>)
      requires Valid()
      modifies txs
      ensures Valid()
      ensures Items() == Drop(old(Items()), Below(threshold))
      ensures Lists(removed, Keep(old(Items()), Below(threshold)))
    {
      assert UnfoldList(0);
      removed := txs.Forward(threshold);
    }

    /** Removes the unpayable transactions and, in strict mode, also those stranded
        behind one of them. The caps only ever skip a scan that would find nothing. */
    method Filter(costLimit: nat, gasLimit: Uint64) returns (removed: seq<Tx>, invalids: seq<Tx>)
      requires Valid()
      modifies this, txs
      ensures Valid()
      ensures Enumerates(removed, Keep(old(Items()), Unpayable(costLimit, gasLimit)))
      ensures strict ==> Enumerates(invalids, Stranded(old(Items()), Unpayable(costLimit, gasLimit)))
      ensures strict ==> Items() == Grounded(old(Items()), Unpayable(costLimit, gasLimit))
      ensures !strict ==> invalids == [] && Items() == Drop(old(Items()), Unpayable(costLimit, gasLimit))
    {
      assert UnfoldList(0);
      removed, invalids := [], [];
      assert WellKeyed(txs.items) by { assert UnfoldMap(0); }
      ghost var over := Unpayable(costLimit, gasLimit);
      if costcap <= costLimit && gascap <= gasLimit {
        NothingSelected(Items(), over);
        return;
      }
      costcap := costLimit;
      gascap := gasLimit;
      removed := txs.Filter(Unpayable(costLimit, gasLimit));
      if strict && |removed| > 0 {
        invalids := Strand(removed, over, old(Items()));
      } else if strict {
        EmptySelection(old(Items()), over);
      }
    }

    /** Takes out everything above the lowest removed nonce. */
    method Strand(removed: seq<Tx>, ghost over: Tx -> bool, ghost m: TxMap) returns (invalids: seq<Tx>)
      requires txs.Valid() && WellKeyed(m) && txs.items == Drop(m, over)
      requires |removed| > 0 && Enumerates(removed, Keep(m, over))
      modifies txs
      ensures txs.Valid() && txs.items == Grounded(m, over)
      ensures Enumerates(invalids, Stranded(m, over))
    {
      var lowest := Lowest(removed);
      LowestRemoved(m, over, removed, lowest);
      invalids := txs.Filter(Above(lowest));
    }

    static method Lowest(removed: seq<Tx>) returns (lowest: Uint64)
      requires |removed| > 0
      ensures forall i :: 0 <= i < |removed| ==> lowest <= removed[i].nonce
      ensures exists i :: 0 <= i < |removed| && lowest == removed[i].nonce
    {
      lowest := MAX_UINT64;
      for i := 0 to |removed|
        invariant forall k :: 0 <= k < i ==> lowest <= removed[k].nonce
        invariant lowest == MAX_UINT64 || exists k :: 0 <= k < i && lowest == removed[k].nonce
      {
        if lowest > removed[i].nonce {
          lowest := removed[i].nonce;
        }
      }
      assert lowest <= removed[0].nonce;
    }

    method Cap(threshold: nat) returns (drops: seq<Tx>)
      requires Valid()
      modifies txs
      ensures Valid() && LowPart(Items(), old(Items()))
      ensures |Items()| == if |old(Items())| <= threshold then |old(Items())| else threshold
      ensures Enumerates(drops, old(Items()) - Items().Keys)
    {
      assert UnfoldList(0);
      drops := txs.Cap(threshold);
    }

    /** Removes by nonce and, in strict mode, everything above that nonce. */
    method Remove(tx: Tx) returns (found: bool, invalids: seq<Tx>)
      requires Valid()
      modifies txs
      ensures Valid() && found == (tx.nonce in old(Items()))
      ensures !found ==> invalids == [] && Items() == old(Items())
      ensures found && !strict ==> invalids == [] && Items() == old(Items()) - {tx.nonce}
      ensures found && strict ==> Enumerates(invalids, Keep(old(Items()), Above(tx.nonce)))
      ensures found && strict ==> Items() == Drop(old(Items()) - {tx.nonce}, Above(tx.nonce))
    {
      assert UnfoldList(0);
      invalids := [];
      assert WellKeyed(txs.items) by { assert UnfoldMap(0); }
      found := txs.Remove(tx.nonce);
      if !found {
        return;
      }
      if strict {
        invalids := txs.Filter(Above(tx.nonce));
        assert Keep(old(Items()) - {tx.nonce}, Above(tx.nonce)) == Keep(old(Items()), Above(tx.nonce));
      }
    }

    method Ready(start: Uint64) returns (ready: seq<Tx>)
      requires Valid()
      modifies txs
      ensures Valid() && Items() == map[] && Lists(ready, old(Items()))
    {
      assert UnfoldList(0);
      ready := txs.Ready(start);
    }

    function Len(): (n: nat)
      reads txs
    {
      |txs.items|
    }

    method Flatten() returns (list: seq<Tx>)
      requires Valid()
      modifies txs`cache
      ensures Valid() && Lists(list, Items())
    {
      assert UnfoldList(0);
      list := txs.Flatten();
    }
  }

  lemma NothingSelected(m: TxMap, over: Tx -> bool)
    requires forall n :: n in m ==> !over(m[n])
    ensures Keep(m, over) == map[] && Stranded(m, over) == map[]
    ensures Grounded(m, over) == m && Drop(m, over) == m
  {
  }

  lemma EmptySelection(m: TxMap, over: Tx -> bool)
    requires Enumerates([], Keep(m, over))
    ensures Stranded(m, over) == map[] && Grounded(m, over) == Drop(m, over)
  {
    assert forall n :: n in m ==> n !in Keep(m, over);
    NothingSelected(m, over);
  }

  lemma LowestRemoved(m: TxMap, over: Tx -> bool, removed: seq<Tx>, lowest: Uint64)
    requires WellKeyed(m) && Enumerates(removed, Keep(m, over))
    requires forall i :: 0 <= i < |removed| ==> lowest <= removed[i].nonce
    requires exists i :: 0 <= i < |removed| && lowest == removed[i].nonce
    ensures Keep(Drop(m, over), Above(lowest)) == Stranded(m, over)
    ensures Drop(Drop(m, over), Above(lowest)) == Grounded(m, over)
  {
    var gone := Keep(m, over);
    forall n | n in gone ensures lowest <= n {
      EnumeratesMember(removed, gone, m[n]);
    }
    var i :| 0 <= i < |removed| && lowest == removed[i].nonce;
    EnumeratesMember(removed, gone, removed[i]);
    assert lowest in m && over(m[lowest]);
    forall n ensures n in Keep(Drop(m, over), Above(lowest)) <==> n in Stranded(m, over) {
      if n in Stranded(m, over) {
        var u :| u in m && over(m[u]) && u < n;
        assert u in gone;
      }
    }
    forall n ensures n in Drop(Drop(m, over), Above(lowest)) <==> n in Grounded(m, over) {
      if n in Drop(Drop(m, over), Above(lowest)) {
        assert n != lowest;
        forall u | u in m && over(m[u]) ensures n < u {
          assert u in gone;
        }
      }
    }
  }
}
