/** The transaction pool: pending and queued lists per account, the lookup of all
    transactions, and the price heap. */
module TxPools {
  import opened Wrappers
  import opened Transactions
  import opened TxLists
  import opened TxPriced
  import opened AccountBooks
  import opened PoolViews

  datatype Config = Config(priceBump: nat, accountSlots: nat, globalSlots: nat, accountQueue: nat, globalQueue: nat)

  /** The account state at the chain head. */
  datatype ChainState = ChainState(nonces: map<Address, Uint64>, balances: map<Address, nat>) {
    function Nonce(a: Address): (n: Uint64) { if a in nonces then nonces[a] else 0 }
    function Balance(a: Address): (b: nat) { if a in balances then balances[a] else 0 }
  }

  datatype AddResult =
    | Added(replaced: bool)
    | KnownTransaction
    | InvalidTransaction
    | Underpriced
    | ReplaceUnderpriced

  /** What an offer is measured by. */
  datatype Terms = Terms(config: Config, state: ChainState, maxGas: Uint64, gasPrice: nat)

  /** The checks of a transaction that depend on the pool: gas, price, nonce, and funds for all
      that it pays. */
  predicate Admits(t: Terms, tx: Tx) {
    && tx.gas <= t.maxGas && t.gasPrice <= tx.gasPrice
    && t.state.Nonce(tx.from) <= tx.nonce && tx.Total() <= t.state.Balance(tx.from)
  }

  predicate Crowded(c: Config, all: set<Tx>) {
    |all| >= c.globalSlots + c.globalQueue
  }

  /** A remote transaction is no better than anything in a full pool. */
  ghost predicate NoneWorse(c: Config, locals: set<Address>, all: set<Tx>, tx: Tx, local: bool) {
    Crowded(c, all) && !local && tx.from !in locals && all != {} && forall t :: t in all ==> tx.gasPrice <= t.gasPrice
  }

  /** `out` leaves the pool for lack of room: remote transactions, cheapest first, never more
      than what is over the limit. */
  ghost predicate Leaves(c: Config, locals: set<Address>, out: set<Tx>, before: set<Tx>) {
    var over := |before| - (c.globalSlots + c.globalQueue) + 1;
    && out <= before && |out| <= (if over > 0 then over else 0)
    && (forall t :: t in out ==> t.from !in locals)
    && (forall x, y :: x in out && y in before - out && y.from !in locals ==> PriceRank(x) <= PriceRank(y))
  }

  /** w is v with tx placed in it, unless the occupant of its nonce is not outbid. */
  ghost predicate Placing(bump: nat, v: PoolView, w: PoolView, tx: Tx, r: AddResult) {
    var p, q := At(v.pending, tx.from), At(v.queue, tx.from);
    && (r.Added? <==> Accepts(if tx.nonce in p then p else q, tx, bump))
    && (r.Added? ==> r.replaced == (tx.nonce in p || tx.nonce in q))
    && w == if !r.Added? then v else if tx.nonce in p then StorePending(v, tx) else StoreQueued(v, tx)
  }

  /** Guards the invariant below: a proof sees its definition only where it mentions
      this predicate. */
  ghost predicate UnfoldPool(k: int) { true }

  class TxPool {
    const config: Config
    const all: TxLookup
    const priced: TxPricedList
    const pending: AccountBook
    const queue: AccountBook
    var beats: map<Address, int>
    var locals: set<Address>
    var gasPrice: nat
    var state: ChainState
    var currentMaxGas: Uint64

    /** The parts are well formed and separate. */
    ghost predicate Shape()
      reads this, all, priced, pending, queue
    {
      && pending.strict && !queue.strict && pending != queue && priced.all == all
      && pending.Valid() && queue.Valid()
    }

    ghost function View(): (v: PoolView)
      reads this, all, priced, pending, queue
    {
      PoolView(pending.view, queue.view, all.all)
    }

    ghost predicate Valid()
      reads this, all, priced, pending, queue
    {
      && pending.Valid() && queue.Valid() && pending != queue && config.accountSlots >= 1
      && forall k {:trigger UnfoldPool(k)} :: UnfoldPool(k) ==> Shape() && Inv(View()) && priced.Tracks(all.all)
    }

    constructor (config: Config, gasPrice: nat, state: ChainState, maxGas: Uint64)
      requires config.accountSlots >= 1
      ensures Valid() && fresh(all) && fresh(priced) && fresh(pending) && fresh(queue) && View() == PoolView(map[], map[], {})
    {
      this.config, this.gasPrice, this.state, this.currentMaxGas := config, gasPrice, state, maxGas;
      beats, locals := map[], {};
      var lookup := new TxLookup();
      all := lookup;
      priced := new TxPricedList(lookup);
      pending := new AccountBook(true);
      queue := new AccountBook(false);
    }

    /** Takes over the account state and the gas limit of a new chain head. */
    method SetHead(state: ChainState, maxGas: Uint64)
      requires Valid()
      modifies this`state, this`currentMaxGas
      ensures Valid() && this.state == state && currentMaxGas == maxGas
    {
      assert UnfoldPool(0);
      this.state, currentMaxGas := state, maxGas;
    }

    /** Takes a transaction out of the lookup and tells the price heap. */
    method Unlist(tx: Tx)
      requires priced.all == all && priced.Tracks(all.all)
      modifies all, priced
      ensures all.all == old(all.all) - {tx} && priced.Tracks(all.all)
    {
      all.all := all.all - {tx};
      assert Tracked(priced.items, priced.stales + 1, all.all) by { assert UnfoldPriced(0); }
      priced.Removed();
    }

    method Enlist(tx: Tx)
      requires priced.all == all && tx !in all.all && priced.Tracks(all.all)
      modifies all, priced
      ensures all.all == old(all.all) + {tx} && priced.Tracks(all.all)
    {
      priced.Put(tx, all.all);
      all.all := all.all + {tx};
    }

    /** Takes a displaced transaction out of the lookup and puts the new one in. */
    method Relist(prior: Option<Tx>, tx: Tx)
      requires priced.all == all
      requires priced.Tracks(all.all) || (tx in all.all && prior.None?)
      modifies all, priced
      ensures all.all == old(all.all) - AsSet(prior) + {tx}
      ensures old(priced.Tracks(all.all)) ==> priced.Tracks(all.all)
      ensures tx in old(all.all) && prior.None? ==> unchanged(priced)
    {
      if prior.Some? {
        Unlist(prior.value);
      }
      if tx !in all.all {
        Enlist(tx);
      }
    }

    /** Offers a transaction to the queue of its sender. A transaction that is
        already in the lookup, and displaces nothing, leaves the price heap alone. */
    method EnqueueTx(tx: Tx) returns (ok: bool, replaced: bool)
      requires Shape()
      requires priced.Tracks(all.all) || (tx in all.all && tx.nonce !in At(queue.view, tx.from))
      modifies all, priced, queue
      ensures Shape()
      ensures var q := At(old(queue.view), tx.from);
              && ok == Accepts(q, tx, config.priceBump)
              && replaced == (ok && tx.nonce in q)
              && queue.view == (if ok then old(queue.view)[tx.from := WithTx(q, tx)] else old(queue.view))
              && all.all == (if ok then old(all.all) - AsSet(Occupant(q, tx.nonce)) + {tx} else old(all.all))
      ensures old(priced.Tracks(all.all)) ==> priced.Tracks(all.all)
      ensures tx in old(all.all) && tx.nonce !in At(old(queue.view), tx.from) ==> unchanged(priced)
    {
      var prior;
      ok, prior := queue.Add(tx.from, tx, config.priceBump);
      replaced := prior.Some?;
      if ok {
        Relist(prior, tx);
      }
    }

    /** Offers a transaction to the pending list of its sender; one that is not
        taken leaves the pool. */
    method PromoteTx(tx: Tx, now: int) returns (ok: bool)
      requires Shape() && priced.Tracks(all.all)
      modifies this`beats, all, priced, pending
      ensures Shape() && priced.Tracks(all.all)
      ensures var p := At(old(pending.view), tx.from);
              && ok == Accepts(p, tx, config.priceBump)
              && pending.view == (if ok then old(pending.view)[tx.from := WithTx(p, tx)] else old(pending.view))
              && all.all == (if ok then old(all.all) - AsSet(Occupant(p, tx.nonce)) + {tx} else old(all.all) - {tx})
      ensures beats == if ok then old(beats)[tx.from := now] else old(beats)
    {
      var prior;
      ok, prior := pending.Add(tx.from, tx, config.priceBump);
      if !ok {
        Unlist(tx);
        return;
      }
      Relist(prior, tx);
      beats := beats[tx.from := now];
    }

    /** Puts transactions of one account that are known to the lookup, and whose
        nonces are free, into the queue. */
    method Requeue(a: Address, txs: seq<Tx>, ghost m: TxMap)
      requires Shape() && NoEmptyList(queue.view) && Enumerates(txs, m)
      requires OwnList(a, m) && TxsOf(m) <= all.all && m.Keys !! At(queue.view, a).Keys
      modifies all, priced, queue
      ensures Shape() && queue.view == Merged(old(queue.view), a, m)
      ensures unchanged(priced) && all.all == old(all.all)
    {
      EnumeratesMapOf(txs, m);
      MergeNone(queue.view, a);
      for i := 0 to |txs|
        invariant Shape() && unchanged(priced) && all.all == old(all.all)
        invariant queue.view == Merged(old(queue.view), a, MapOf(txs[..i]))
      {
        MergeNext(old(queue.view), a, txs, m, i);
        var ok, replaced := EnqueueTx(txs[i]);
      }
      assert txs[..|txs|] == txs;
    }

    /** Removes a transaction from the pending list of its sender, if its nonce is
        there, and queues again what was pending above it. */
    method RemovePending(tx: Tx) returns (found: bool)
      requires Shape() && NoEmptyList(pending.view) && NoEmptyList(queue.view)
      requires var p, q := At(pending.view, tx.from), At(queue.view, tx.from);
               OwnList(tx.from, p) && p.Keys !! q.Keys && TxsOf(Keep(p, Above(tx.nonce))) <= all.all
      modifies this`beats, all, priced, pending, queue
      ensures Shape() && all.all == old(all.all) && unchanged(priced)
      ensures var p := At(old(pending.view), tx.from);
              && found == (tx.nonce in p)
              && pending.view == (if found then With(old(pending.view), tx.from, Drop(p - {tx.nonce}, Above(tx.nonce)))
                                  else old(pending.view))
              && queue.view == (if found then Merged(old(queue.view), tx.from, Keep(p, Above(tx.nonce)))
                                else old(queue.view))
      ensures beats == if tx.from in old(pending.view) && tx.from !in pending.view then old(beats) - {tx.from} else old(beats)
    {
      var a := tx.from;
      if !pending.Has(a) {
        return false;
      }
      var invalids;
      found, invalids := pending.Remove(a, tx);
      if !found {
        assert old(pending.view)[a] - {tx.nonce} == old(pending.view)[a];
        return;
      }
      WithTwice(old(pending.view), a, pending.view[a]);
      ShelvePending(a, invalids, Keep(old(pending.view)[a], Above(tx.nonce)));
    }

    /** Removes a transaction from the queue of its sender by its nonce. */
    method RemoveQueued(tx: Tx)
      requires Shape() && NoEmptyList(queue.view)
      modifies queue
      ensures Shape() && queue.view == With(old(queue.view), tx.from, At(old(queue.view), tx.from) - {tx.nonce})
    {
      var a := tx.from;
      if queue.Has(a) {
        var found, invalids := queue.Remove(a, tx);
        WithTwice(old(queue.view), a, queue.view[a]);
        var gone := queue.Prune(a);
      } else {
        assert At(queue.view, a) - {tx.nonce} == map[];
        assert queue.view - {a} == queue.view;
      }
    }

    /** Removes one transaction from the pool. Without `outofbound` the caller has
        already taken it off the price heap, which tracks `live`. */
    method RemoveTx(tx: Tx, outofbound: bool, ghost live: set<Tx>)
      requires Shape() && Inv(View()) && priced.Tracks(live)
      requires if outofbound then live == all.all else live <= all.all - {tx}
      modifies this`beats, all, priced, pending, queue
      ensures Shape() && View() == Removed(old(View()), tx) && Inv(View())
      ensures beats == if tx.from in old(pending.view) && tx.from !in pending.view then old(beats) - {tx.from} else old(beats)
      ensures outofbound ==> priced.Tracks(all.all)
      ensures !outofbound ==> unchanged(priced)
    {
      RemovedKeeps(View(), tx);
      if tx !in all.all {
        return;
      }
      RequeueFits(View(), tx);
      if outofbound {
        Unlist(tx);
      } else {
        all.all := all.all - {tx};
      }
      var found := RemovePending(tx);
      if !found {
        RemoveQueued(tx);
      }
    }

    /** Drops transactions that have left their list. */
    method ForgetAll(txs: seq<Tx>, ghost m: TxMap)
      requires priced.all == all && priced.Tracks(all.all) && Enumerates(txs, m)
      modifies all, priced
      ensures priced.Tracks(all.all) && all.all == old(all.all) - TxsOf(m)
    {
      EnumeratesMapOf(txs, m);
      for i := 0 to |txs|
        invariant priced.Tracks(all.all) && all.all == old(all.all) - TxsOf(MapOf(txs[..i]))
      {
        ForgetStep(old(all.all), txs, m, i);
        Unlist(txs[i]);
      }
      assert txs[..|txs|] == txs;
    }

    lemma ForgetStep(s: set<Tx>, txs: seq<Tx>, m: TxMap, i: nat)
      requires Enumerates(txs, m) && i < |txs|
      ensures s - TxsOf(MapOf(txs[..i])) - {txs[i]} == s - TxsOf(MapOf(txs[..i + 1]))
    {
      EnumeratesNext(txs, m, i);
      TxsOfWith(MapOf(txs[..i]), txs[i]);
      MinusTwice(s, TxsOf(MapOf(txs[..i])), {txs[i]});
    }

    /** Promotes transactions of one account whose nonces are free. */
    method PromoteAll(a: Address, txs: seq<Tx>, now: int, ghost m: TxMap)
      requires Shape() && priced.Tracks(all.all) && NoEmptyList(pending.view) && Enumerates(txs, m)
      requires OwnList(a, m) && TxsOf(m) <= all.all && m.Keys !! At(pending.view, a).Keys
      modifies this`beats, all, priced, pending
      ensures Shape() && priced.Tracks(all.all) && all.all == old(all.all)
      ensures pending.view == Merged(old(pending.view), a, m)
      ensures beats == if txs == [] then old(beats) else old(beats)[a := now]
    {
      EnumeratesMapOf(txs, m);
      MergeNone(pending.view, a);
      for i := 0 to |txs|
        invariant Shape() && priced.Tracks(all.all) && all.all == old(all.all)
        invariant pending.view == Merged(old(pending.view), a, MapOf(txs[..i]))
        invariant beats == if i == 0 then old(beats) else old(beats)[a := now]
      {
        PromoteNext(a, txs, i, now, m, old(pending.view));
      }
      assert txs[..|txs|] == txs;
    }

    /** Promotes one more transaction of an account. */
    method PromoteNext(a: Address, txs: seq<Tx>, i: nat, now: int, ghost m: TxMap, ghost first: Book)
      requires Shape() && priced.Tracks(all.all) && NoEmptyList(first) && Enumerates(txs, m) && i < |txs|
      requires OwnList(a, m) && TxsOf(m) <= all.all && m.Keys !! At(first, a).Keys
      requires pending.view == Merged(first, a, MapOf(txs[..i]))
      modifies this`beats, all, priced, pending
      ensures Shape() && priced.Tracks(all.all) && all.all == old(all.all)
      ensures pending.view == Merged(first, a, MapOf(txs[..i + 1])) && beats == old(beats)[a := now]
    {
      MergeNext(first, a, txs, m, i);
      var ok := PromoteTx(txs[i], now);
    }

    /** Drops from the queue of an account what is too old or unpayable. */
    method DropSpentQueued(a: Address)
      requires Shape() && priced.Tracks(all.all) && a in queue.view
      modifies all, priced, queue
      ensures Shape() && priced.Tracks(all.all)
      ensures var q, n, b := old(queue.view)[a], state.Nonce(a), state.Balance(a);
              && queue.view == old(queue.view)[a := Drop(Current(q, n), Unpayable(b, currentMaxGas))]
              && all.all == old(all.all) - Spent(q, n, b, currentMaxGas)
    {
      ghost var q, n := queue.view[a], state.Nonce(a);
      var stale := queue.Forward(a, state.Nonce(a));
      ListsEnumerates(stale, Keep(q, Below(n)));
      ForgetAll(stale, Keep(q, Below(n)));
      var poor, none := queue.Filter(a, state.Balance(a), currentMaxGas);
      ghost var over := Keep(Current(q, n), Unpayable(state.Balance(a), currentMaxGas));
      ForgetAll(poor, over);
      MinusTwice(old(all.all), TxsOf(Keep(q, Below(n))), TxsOf(over));
      UpdateTwice(old(queue.view), a, Current(q, n), queue.view[a]);
    }

    /** Empties the queue of an account into its pending list, dropping what is too
        old or unpayable. */
    method PromoteAccount(a: Address, now: int)
      requires Valid()
      modifies this`beats, all, priced, pending, queue
      ensures Valid()
      ensures View() == PromotedAccount(old(View()), a, state.Nonce(a), state.Balance(a), currentMaxGas)
      ensures var ready := Drop(Current(At(old(queue.view), a), state.Nonce(a)), Unpayable(state.Balance(a), currentMaxGas));
              beats == if ready == map[] then old(beats) else old(beats)[a := now]
    {
      assert UnfoldPool(0);
      PromotedKeeps(View(), a, state.Nonce(a), state.Balance(a), currentMaxGas);
      PromotedFits(View(), a, state.Nonce(a), state.Balance(a), currentMaxGas);
      if !queue.Has(a) {
        return;
      }
      DropSpentQueued(a);
      PromoteReady(a, now);
      UpdateGone(old(queue.view), a, Drop(Current(old(queue.view)[a], state.Nonce(a)), Unpayable(state.Balance(a), currentMaxGas)));
    }

    /** Promotes the whole queue of an account. */
    method PromoteReady(a: Address, now: int)
      requires Shape() && priced.Tracks(all.all) && NoEmptyList(pending.view) && a in queue.view
      requires var q := queue.view[a];
               OwnList(a, q) && TxsOf(q) <= all.all && q.Keys !! At(pending.view, a).Keys
      modifies this`beats, all, priced, pending, queue
      ensures Shape() && priced.Tracks(all.all) && all.all == old(all.all)
      ensures pending.view == Merged(old(pending.view), a, old(queue.view)[a])
      ensures queue.view == old(queue.view) - {a}
      ensures beats == if old(queue.view)[a] == map[] then old(beats) else old(beats)[a := now]
    {
      var ready := queue.Ready(a, state.Nonce(a));
      ListsEnumerates(ready, old(queue.view)[a]);
      PromoteAll(a, ready, now, old(queue.view)[a]);
      CloseQueue(a);
      NothingLow(At(queue.view, a));
      WithTwice(old(queue.view), a, map[]);
    }

    /** Drops the highest nonces of a queue over the per-account limit, unless the
        account is local, and the whole entry once it is empty. */
    method CloseQueue(a: Address)
      requires Shape() && priced.Tracks(all.all) && a in queue.view
      modifies all, priced, queue
      ensures Shape() && priced.Tracks(all.all)
      ensures var q, r := old(queue.view)[a], At(queue.view, a);
              && queue.view == With(old(queue.view), a, r) && LowPart(r, q)
              && |r| == (if a in locals || |q| <= config.accountQueue then |q| else config.accountQueue)
              && all.all == old(all.all) - TxsOf(q - r.Keys)
    {
      ghost var q := queue.view[a];
      if a !in locals {
        var over := queue.Cap(a, config.accountQueue);
        ForgetAll(over, q - queue.view[a].Keys);
      }
      WithTwice(old(queue.view), a, queue.view[a]);
      assert TxsOf(q - q.Keys) == {};
      var gone := queue.Prune(a);
    }

    /** Drops from the pending list of an account what is too old or unpayable and
        returns what is stranded behind it. */
    method DropSpentPending(a: Address) returns (invalids: seq<Tx>)
      requires Shape() && priced.Tracks(all.all) && a in pending.view
      modifies all, priced, pending
      ensures Shape() && priced.Tracks(all.all)
      ensures var p, n, over := old(pending.view)[a], state.Nonce(a), Unpayable(state.Balance(a), currentMaxGas);
              && Enumerates(invalids, Stranded(Current(p, n), over))
              && pending.view == old(pending.view)[a := Grounded(Current(p, n), over)]
              && all.all == old(all.all) - Spent(p, n, state.Balance(a), currentMaxGas)
    {
      ghost var p, n := pending.view[a], state.Nonce(a);
      var stale := pending.Forward(a, state.Nonce(a));
      ListsEnumerates(stale, Keep(p, Below(n)));
      ForgetAll(stale, Keep(p, Below(n)));
      var poor;
      poor, invalids := pending.Filter(a, state.Balance(a), currentMaxGas);
      ghost var over := Keep(Current(p, n), Unpayable(state.Balance(a), currentMaxGas));
      ForgetAll(poor, over);
      MinusTwice(old(all.all), TxsOf(Keep(p, Below(n))), TxsOf(over));
      UpdateTwice(old(pending.view), a, Current(p, n), pending.view[a]);
    }

    /** Drops from the pending list of an account what is too old or unpayable, and
        queues again what is stranded behind it. */
    method DemoteAccount(a: Address)
      requires Valid() && a in pending.view
      modifies this`beats, all, priced, pending, queue
      ensures Valid()
      ensures View() == DemotedAccount(old(View()), a, state.Nonce(a), state.Balance(a), currentMaxGas)
    {
      ghost var m := Stranded(Current(pending.view[a], state.Nonce(a)), Unpayable(state.Balance(a), currentMaxGas));
      Demotable(a, m);
      var invalids := DropSpentPending(a);
      WithTwice(old(pending.view), a, pending.view[a]);
      ShelvePending(a, invalids, m);
    }

    /** What a demotion of an account can rely on. */
    lemma Demotable(a: Address, m: TxMap)
      requires Valid() && a in pending.view
      requires m == Stranded(Current(pending.view[a], state.Nonce(a)), Unpayable(state.Balance(a), currentMaxGas))
      ensures Shape() && priced.Tracks(all.all) && NoEmptyList(queue.view)
      ensures OwnList(a, m) && m.Keys !! At(queue.view, a).Keys
      ensures TxsOf(m) <= all.all - Spent(pending.view[a], state.Nonce(a), state.Balance(a), currentMaxGas)
      ensures Inv(DemotedAccount(View(), a, state.Nonce(a), state.Balance(a), currentMaxGas))
    {
      assert UnfoldPool(0);
      DemotedKeeps(View(), a, state.Nonce(a), state.Balance(a), currentMaxGas);
      DemotedFits(View(), a, state.Nonce(a), state.Balance(a), currentMaxGas);
    }

    /** Queues what was taken out of a pending list, and forgets the list if nothing
        is left of it. */
    method ShelvePending(a: Address, invalids: seq<Tx>, ghost m: TxMap)
      requires Shape() && NoEmptyList(queue.view) && a in pending.view && Enumerates(invalids, m)
      requires OwnList(a, m) && TxsOf(m) <= all.all && m.Keys !! At(queue.view, a).Keys
      modifies this`beats, all, priced, pending, queue
      ensures Shape() && unchanged(priced) && all.all == old(all.all)
      ensures pending.view == With(old(pending.view), a, old(pending.view)[a])
      ensures queue.view == Merged(old(queue.view), a, m)
      ensures beats == if a in pending.view then old(beats) else old(beats) - {a}
    {
      Requeue(a, invalids, m);
      var gone := pending.Prune(a);
      if gone {
        beats := beats - {a};
      }
    }

    /** Drops the highest pending nonce of an account that has at least two. */
    method DropLast(a: Address)
      requires Valid() && a in pending.view && |pending.view[a]| >= 2
      modifies all, priced, pending
      ensures Valid() && queue.view == old(queue.view)
      ensures a in pending.view && pending.view == old(pending.view)[a := pending.view[a]]
      ensures LowPart(pending.view[a], old(pending.view)[a]) && |pending.view[a]| == |old(pending.view)[a]| - 1
      ensures all.all == old(all.all) - TxsOf(old(pending.view)[a] - pending.view[a].Keys)
    {
      assert UnfoldPool(0);
      var drops := pending.Cap(a, pending.Len(a) - 1);
      ghost var gone := old(pending.view)[a] - pending.view[a].Keys;
      ForgetAll(drops, gone);
      LowForget(old(View()), a, pending.view[a]);
    }

    /** The queue of an account in nonce order. */
    method FlattenQueued(a: Address) returns (txs: seq<Tx>)
      requires Valid() && a in queue.view
      modifies queue
      ensures Valid() && queue.view == old(queue.view) && Lists(txs, queue.view[a])
    {
      assert UnfoldPool(0);
      txs := queue.Flatten(a);
    }

    /** Removes transactions that the price heap has already let go of. */
    method RemoveAll(drop: seq<Tx>)
      requires Shape() && Inv(View()) && config.accountSlots >= 1
      requires priced.Tracks(all.all - SetOf(drop))
      modifies this`beats, all, priced, pending, queue
      ensures Valid() && all.all == old(all.all) - SetOf(drop)
    {
      ghost var live := all.all - SetOf(drop);
      for i := 0 to |drop|
        invariant Shape() && Inv(View()) && priced.Tracks(live)
        invariant all.all == old(all.all) - SetOf(drop[..i])
      {
        RemovedKeeps(View(), drop[i]);
        SetOfNext(drop, i);
        MinusTwice(old(all.all), SetOf(drop[..i]), {drop[i]});
        RemoveTx(drop[i], false, live);
      }
      assert drop[..|drop|] == drop;
    }

    /** Raises or lowers the price floor: exactly the transactions below it that no
        local account sent leave the pool. */
    method SetGasPrice(price: nat)
      requires Valid()
      modifies this`gasPrice, this`beats, all, priced, pending, queue
      ensures Valid() && gasPrice == price
      ensures forall tx :: tx in all.all <==> tx in old(all.all) && (tx.from in locals || tx.gasPrice >= price)
    {
      assert UnfoldPool(0);
      gasPrice := price;
      var drop := priced.Cap(price, locals);
      RemoveAll(drop);
    }

    predicate Full()
      reads this, all
    {
      Crowded(config, all.all)
    }

    function Now(): (t: Terms)
      reads this
    {
      Terms(config, state, currentMaxGas, gasPrice)
    }

    /** The checks of a transaction that depend on the pool. */
    predicate Admissible(tx: Tx)
      reads this
    {
      Admits(Now(), tx)
    }

    /** `out` leaves the pool for lack of room; some are fewer than those over the limit only
        if no other remote one is left, or if one of them had two entries in the price heap. */
    ghost predicate MakesRoom(out: set<Tx>, before: set<Tx>, entries: seq<Tx>)
      reads this
    {
      && Leaves(config, locals, out, before)
      && (|out| < |before| - (config.globalSlots + config.globalQueue) + 1 ==>
            || (forall t :: t in before - out ==> t.from in locals)
            || (exists t :: t in out && multiset(entries)[t] >= 2))
    }

    ghost predicate NoBetter(tx: Tx, local: bool)
      reads this, all
    {
      NoneWorse(config, locals, all.all, tx, local)
    }

    /** Makes room for a transaction in a full pool, unless it is itself no better
        than everything in it. */
    method MakeRoom(tx: Tx, local: bool) returns (ok: bool, ghost out: set<Tx>)
      requires Valid()
      modifies this`beats, all, priced, pending, queue
      ensures Valid() && all.all == old(all.all) - out
      ensures ok <==> !old(NoBetter(tx, local))
      ensures !ok ==> View() == old(View()) && out == {}
      ensures ok ==> MakesRoom(out, old(all.all), old(priced.items))
    {
      assert UnfoldPool(0);
      out := {};
      assert all.all - out == all.all;
      if !Full() {
        return true, {};
      }
      if !local {
        var under := priced.Underpriced(tx, locals);
        if under {
          return false, {};
        }
      }
      var over := |all.all| - (config.globalSlots + config.globalQueue - 1);
      var drop := priced.Discard(over, locals);
      out := SetOf(drop);
      SetOfSize(drop);
      if |out| < |drop| {
        var twice := SomeDouble(drop);
        assert multiset(drop)[twice] <= multiset(old(priced.items))[twice];
      }
      RemoveAll(drop);
      ok := true;
    }

    /** Puts a transaction over the pending one with its nonce, if it outbids it. */
    method ReplacePending(tx: Tx) returns (ok: bool)
      requires Valid() && tx !in all.all && tx.nonce in At(pending.view, tx.from)
      modifies all, priced, pending
      ensures Valid() && ok == Accepts(At(old(pending.view), tx.from), tx, config.priceBump)
      ensures View() == if ok then StorePending(old(View()), tx) else old(View())
    {
      assert UnfoldPool(0);
      StoreKeeps(View(), tx);
      AboutWith(queue.view, tx.from, At(queue.view, tx.from));
      var prior;
      ok, prior := pending.Add(tx.from, tx, config.priceBump);
      if ok {
        Relist(prior, tx);
      }
    }

    /** Puts a new transaction into the queue, over the one with its nonce if it
        outbids it. */
    method StoreInQueue(tx: Tx) returns (ok: bool, replaced: bool)
      requires Valid() && tx !in all.all && tx.nonce !in At(pending.view, tx.from)
      modifies all, priced, queue
      ensures Valid() && ok == Accepts(At(old(queue.view), tx.from), tx, config.priceBump)
      ensures View() == if ok then StoreQueued(old(View()), tx) else old(View())
      ensures replaced == (ok && tx.nonce in At(old(queue.view), tx.from))
    {
      assert UnfoldPool(0);
      StoreKeeps(View(), tx);
      AboutWith(pending.view, tx.from, At(pending.view, tx.from));
      ok, replaced := EnqueueTx(tx);
    }

    /** Places an admitted transaction: over the pending one with its nonce if there
        is one, else in the queue. */
    method Place(tx: Tx, local: bool) returns (r: AddResult)
      requires Valid() && tx !in all.all
      modifies this`locals, all, priced, pending, queue
      ensures Valid() && (r.Added? || r.ReplaceUnderpriced?)
      ensures Placed(old(View()), View(), tx, r)
      ensures locals == old(locals) + if r.Added? && local && tx.nonce !in At(old(pending.view), tx.from) then {tx.from} else {}
    {
      var ok, replaced;
      if pending.Has(tx.from) && pending.Overlaps(tx) {
        ok := ReplacePending(tx);
        replaced := true;
      } else {
        ok, replaced := StoreInQueue(tx);
        if ok && local {
          locals := locals + {tx.from};
        }
      }
      r := if ok then Added(replaced) else ReplaceUnderpriced;
    }

    ghost predicate Placed(v: PoolView, w: PoolView, tx: Tx, r: AddResult) {
      Placing(config.priceBump, v, w, tx, r)
    }

    /** Make room for an admissible transaction and place it. */
    method Admit(tx: Tx, local: bool) returns (r: AddResult, ghost out: set<Tx>, ghost mid: PoolView)
      requires Valid() && tx !in all.all && Admissible(tx)
      modifies this`beats, this`locals, all, priced, pending, queue
      ensures Valid() && Inv(mid) && mid.all == old(all.all) - out
      ensures r.Underpriced? || r.Added? || r.ReplaceUnderpriced?
      ensures r.Underpriced? <==> old(NoBetter(tx, local))
      ensures r.Underpriced? ==> out == {} && mid == old(View())
      ensures !r.Added? ==> View() == mid
      ensures r.Added? || r.ReplaceUnderpriced? ==> old(MakesRoom(out, all.all, priced.items)) && Placed(mid, View(), tx, r)
      ensures locals == old(locals) + if r.Added? && local && tx.nonce !in At(mid.pending, tx.from) then {tx.from} else {}
    {
      var room;
      room, out := MakeRoom(tx, local);
      mid := View();
      assert Inv(mid) by { assert UnfoldPool(0); }
      if !room {
        return Underpriced, out, mid;
      }
      r := Place(tx, local);
    }

    /** Offers a transaction to the pool. Whatever the outcome, the pool without the
        cheap transactions that made room is `mid`; an accepted transaction then
        takes its nonce among the pending ones or else in the queue. */
    method Add(tx: Tx, local: bool, wellFormed: bool) returns (r: AddResult, ghost out: set<Tx>, ghost mid: PoolView)
      requires Valid()
      modifies this`beats, this`locals, all, priced, pending, queue
      ensures Valid() && Inv(mid) && mid.all == old(all.all) - out
      ensures r.KnownTransaction? <==> tx in old(all.all)
      ensures r.InvalidTransaction? <==> tx !in old(all.all) && !(wellFormed && Admissible(tx))
      ensures r.KnownTransaction? || r.InvalidTransaction? || r.Underpriced? ==> out == {} && mid == old(View())
      ensures r.Underpriced? <==> tx !in old(all.all) && wellFormed && Admissible(tx) && old(NoBetter(tx, local))
      ensures !r.Added? ==> View() == mid
      ensures r.Added? || r.ReplaceUnderpriced? ==> old(MakesRoom(out, all.all, priced.items)) && Placed(mid, View(), tx, r)
      ensures locals == old(locals) + if r.Added? && local && tx.nonce !in At(mid.pending, tx.from) then {tx.from} else {}
    {
      out, mid := {}, View();
      assert Inv(mid) by { assert UnfoldPool(0); }
      if tx in all.all {
        return KnownTransaction, out, mid;
      }
      if !wellFormed || !Admissible(tx) {
        return InvalidTransaction, out, mid;
      }
      r, out, mid := Admit(tx, local);
    }
  }
}
