/** The operations on the whole pool: promotion, demotion, adding, resetting to a new
    chain head and eviction. */
module PoolRuns {
  import opened Wrappers
  import opened Transactions
  import opened PoolViews
  import opened TxPools
  import opened TxLists
  import opened TxPriced
  import opened WaterLevels
  import opened PoolOverflow
  import opened PoolCourses

  /** Promoting an account depends on that account and changes no other. */
  lemma PromotedLocal(v: PoolView, w: PoolView, n: Uint64, b: nat, gas: Uint64, x: Address)
    requires Inv(v) && Inv(w) && SameAccount(w, v, x)
    ensures SameAccount(PromotedAccount(w, x, n, b, gas), PromotedAccount(v, x, n, b, gas), x)
    ensures forall a :: a != x ==> SameAccount(PromotedAccount(w, x, n, b, gas), w, a)
  {
    var p, q := At(w.pending, x), At(w.queue, x);
    UpdateAt(w, x, p + Drop(Current(q, n), Unpayable(b, gas)), map[], w.all - Spent(q, n, b, gas));
    UpdateAt(v, x, p + Drop(Current(q, n), Unpayable(b, gas)), map[], v.all - Spent(q, n, b, gas));
  }

  lemma DemotedLocal(v: PoolView, w: PoolView, n: Uint64, b: nat, gas: Uint64, x: Address)
    requires Inv(v) && Inv(w) && SameAccount(w, v, x)
    ensures SameAccount(DemotedAccount(w, x, n, b, gas), DemotedAccount(v, x, n, b, gas), x)
    ensures forall a :: a != x ==> SameAccount(DemotedAccount(w, x, n, b, gas), w, a)
  {
    var p, q, over := At(w.pending, x), At(w.queue, x), Unpayable(b, gas);
    var g, s := Grounded(Current(p, n), over), Stranded(Current(p, n), over);
    UpdateAt(w, x, g, q + s, w.all - Spent(p, n, b, gas));
    UpdateAt(v, x, g, q + s, v.all - Spent(p, n, b, gas));
  }

  lemma PromotedNext(v: PoolView, w: PoolView, done: set<Address>, s: ChainState, gas: Uint64, x: Address)
    requires Inv(v) && Inv(w) && EachAccount(v, w, done, Promotions(v, s, gas)) && SameAccount(w, v, x)
    ensures EachAccount(v, Promotions(w, s, gas)(x), done + {x}, Promotions(v, s, gas))
  {
    PromotedLocal(v, w, s.Nonce(x), s.Balance(x), gas, x);
    EachNext(v, w, Promotions(w, s, gas)(x), done, Promotions(v, s, gas), x);
  }

  lemma DemotedNext(v: PoolView, w: PoolView, done: set<Address>, s: ChainState, gas: Uint64, x: Address)
    requires Inv(v) && Inv(w) && EachAccount(v, w, done, Demotions(v, s, gas)) && SameAccount(w, v, x)
    ensures EachAccount(v, Demotions(w, s, gas)(x), done + {x}, Demotions(v, s, gas))
  {
    DemotedLocal(v, w, s.Nonce(x), s.Balance(x), gas, x);
    EachNext(v, w, Demotions(w, s, gas)(x), done, Demotions(v, s, gas), x);
  }

  lemma InvOf(pool: TxPool)
    requires pool.Valid()
    ensures Inv(pool.View())
  {
    assert UnfoldPool(0);
  }

  lemma OneDone(accounts: set<Address>, todo: set<Address>, a: Address)
    requires a in todo && todo <= accounts
    ensures accounts - todo + {a} == accounts - (todo - {a})
  {
  }

  lemma StillThere(v: PoolView, w: PoolView, a: Address)
    requires Inv(v) && a in v.pending && SameAccount(w, v, a)
    ensures a in w.pending
  {
  }

  method PromoteAccounts(pool: TxPool, accounts: set<Address>, now: int)
    requires pool.Valid()
    modifies pool`beats, pool.all, pool.priced, pool.pending, pool.queue
    ensures pool.Valid()
    ensures EachAccount(old(pool.View()), pool.View(), accounts, Promotions(old(pool.View()), pool.state, pool.currentMaxGas))
  {
    ghost var v := pool.View();
    ghost var outcome := Promotions(v, pool.state, pool.currentMaxGas);
    InvOf(pool);
    var todo := accounts;
    while todo != {}
      invariant todo <= accounts && pool.Valid()
      invariant EachAccount(v, pool.View(), accounts - todo, outcome)
      decreases todo
    {
      var a :| a in todo;
      ghost var w := pool.View();
      InvOf(pool);
      assert SameAccount(w, v, a);
      pool.PromoteAccount(a, now);
      PromotedNext(v, w, accounts - todo, pool.state, pool.currentMaxGas, a);
      OneDone(accounts, todo, a);
      todo := todo - {a};
    }
    assert accounts - {} == accounts;
  }

  /** Promotes the given accounts, then shares the pending slots fairly and trims the
      queue. */
  method PromoteExecutables(pool: TxPool, accounts: set<Address>, now: int)
    returns (ghost mid: PoolView, ghost level: nat)
    requires pool.Valid()
    modifies pool`beats, pool.all, pool.priced, pool.pending, pool.queue
    ensures pool.Valid() && pool.all.all <= old(pool.all.all)
    ensures Promoted(pool.Now(), pool.locals, pool.beats, old(pool.View()), mid, pool.View(), accounts, level)
  {
    InvOf(pool);
    PromoteAccounts(pool, accounts, now);
    mid := pool.View();
    InvOf(pool);
    PromotionsWithin(old(pool.View()), mid, accounts, pool.state, pool.currentMaxGas);
    level := Overflow(pool);
    InvOf(pool);
  }

  /** Shares the pending slots fairly and trims the queue. */
  method Overflow(pool: TxPool) returns (ghost level: nat)
    requires pool.Valid()
    modifies pool`beats, pool.all, pool.priced, pool.pending, pool.queue
    ensures pool.Valid() && pool.all.all <= old(pool.all.all)
    ensures FairShare(old(pool.pending.view), pool.pending.view, pool.locals, pool.config.accountSlots, pool.config.globalSlots, level)
    ensures Trimmed(old(pool.queue.view), pool.queue.view, pool.locals, pool.beats, pool.config.globalQueue)
  {
    InvOf(pool);
    level := EqualizePending(pool);
    TrimQueue(pool);
    InvOf(pool);
    PartsWithin(old(pool.View()), pool.View());
  }

  /** Demotes one more account. */
  method DemoteNext(pool: TxPool, a: Address, ghost v: PoolView, ghost done: set<Address>, ghost outcome: Address -> PoolView)
    requires pool.Valid() && Inv(v) && a in v.pending && a !in done
    requires outcome == Demotions(v, pool.state, pool.currentMaxGas) && EachAccount(v, pool.View(), done, outcome)
    modifies pool`beats, pool.all, pool.priced, pool.pending, pool.queue
    ensures pool.Valid() && EachAccount(v, pool.View(), done + {a}, outcome)
  {
    InvOf(pool);
    ghost var w := pool.View();
    Undone(v, w, done, outcome, a);
    StillThere(v, w, a);
    DemotedNext(v, w, done, pool.state, pool.currentMaxGas, a);
    pool.DemoteAccount(a);
    assert pool.View() == Demotions(w, pool.state, pool.currentMaxGas)(a);
  }

  lemma Undone(v: PoolView, w: PoolView, done: set<Address>, outcome: Address -> PoolView, a: Address)
    requires EachAccount(v, w, done, outcome) && a !in done
    ensures SameAccount(w, v, a)
  {
    assert SameAccount(w, if a in done then outcome(a) else v, a);
  }

  method DemoteAccounts(pool: TxPool, accounts: set<Address>)
    requires pool.Valid() && forall a :: a in accounts ==> a in pool.pending.view
    modifies pool`beats, pool.all, pool.priced, pool.pending, pool.queue
    ensures pool.Valid()
    ensures EachAccount(old(pool.View()), pool.View(), accounts, Demotions(old(pool.View()), pool.state, pool.currentMaxGas))
  {
    ghost var v := pool.View();
    ghost var outcome := Demotions(v, pool.state, pool.currentMaxGas);
    InvOf(pool);
    var todo := accounts;
    while todo != {}
      invariant todo <= accounts && pool.Valid()
      invariant EachAccount(v, pool.View(), accounts - todo, outcome)
      decreases todo
    {
      var a :| a in todo;
      OneDone(accounts, todo, a);
      DemoteNext(pool, a, v, accounts - todo, outcome);
      todo := todo - {a};
    }
    assert accounts - {} == accounts;
  }

  /** Brings the pending lists in line with the chain state. Nothing is lost but
      what is too old or unpayable. */
  method DemoteUnexecutables(pool: TxPool)
    requires pool.Valid()
    modifies pool`beats, pool.all, pool.priced, pool.pending, pool.queue
    ensures pool.Valid() && pool.all.all <= old(pool.all.all)
    ensures EachAccount(old(pool.View()), pool.View(), old(pool.pending.view).Keys,
                        Demotions(old(pool.View()), pool.state, pool.currentMaxGas))
  {
    InvOf(pool);
    DemoteAccounts(pool, pool.pending.Accounts());
    InvOf(pool);
    DemotionsWithin(old(pool.View()), pool.View(), old(pool.pending.view).Keys, pool.state, pool.currentMaxGas);
  }

  /** Offers a transaction to the pool. */
  method Offer(pool: TxPool, tx: Tx, local: bool, wellFormed: bool) returns (r: AddResult, ghost o: Offering)
    requires pool.Valid()
    modifies pool`beats, pool`locals, pool.all, pool.priced, pool.pending, pool.queue
    ensures pool.Valid() && Offered(pool.Now(), old(pool.View()), o, pool.View()) && pool.all.all <= old(pool.all.all) + {tx}
    ensures o == Offering(tx, local, wellFormed, old(pool.locals), r, o.out, o.mid) && pool.locals == LocalsAfter(o)
  {
    ghost var out, mid;
    InvOf(pool);
    r, out, mid := pool.Add(tx, local, wellFormed);
    InvOf(pool);
    o := Offering(tx, local, wellFormed, old(pool.locals), r, out, mid);
    OfferKeeps(pool.Now(), old(pool.View()), o, pool.View(), tx);
  }

  /** Adds a transaction and, unless it replaced another, promotes its sender. */
  method AddTx(pool: TxPool, tx: Tx, local: bool, wellFormed: bool, now: int)
    returns (r: AddResult, ghost o: Offering, ghost placed: PoolView, ghost mid: PoolView, ghost level: nat)
    requires pool.Valid()
    modifies pool`beats, pool`locals, pool.all, pool.priced, pool.pending, pool.queue
    ensures pool.Valid() && Offered(pool.Now(), old(pool.View()), o, placed) && pool.all.all <= old(pool.all.all) + {tx}
    ensures o == Offering(tx, local, wellFormed, old(pool.locals), r, o.out, o.mid) && pool.locals == LocalsAfter(o)
    ensures if r.Added? && !r.replaced then Promoted(pool.Now(), pool.locals, pool.beats, placed, mid, pool.View(), {tx.from}, level)
            else pool.View() == placed
  {
    r, o := Offer(pool, tx, local, wellFormed);
    placed, mid, level := pool.View(), pool.View(), 0;
    if r.Added? && !r.replaced {
      mid, level := PromoteExecutables(pool, {tx.from}, now);
    }
  }

  /** Adds a batch of transactions one after the other, then promotes the senders of the
      new ones at once. */
  method AddTxs(pool: TxPool, txs: seq<Tx>, local: bool, wellFormed: Tx -> bool, now: int)
    returns (errs: seq<AddResult>, ghost offers: seq<Offering>, ghost views: seq<PoolView>, ghost mid: PoolView, ghost level: nat)
    requires pool.Valid()
    modifies pool`beats, pool`locals, pool.all, pool.priced, pool.pending, pool.queue
    ensures pool.Valid() && Batched(pool.Now(), old(pool.View()), txs, local, wellFormed, offers, views)
    ensures |errs| == |txs| && forall i :: 0 <= i < |txs| ==> errs[i] == offers[i].result
    ensures pool.all.all <= old(pool.all.all) + SetOf(txs) && (!local ==> pool.locals == old(pool.locals))
    ensures if Newcomers(offers) != {}
            then Promoted(pool.Now(), pool.locals, pool.beats, views[|txs|], mid, pool.View(), Newcomers(offers), level)
            else pool.View() == views[|txs|]
  {
    var dirty: set<Address> := {};
    errs, offers, views := [], [], [pool.View()];
    for i := 0 to |txs|
      invariant pool.Valid() && |errs| == i && Batched(pool.Now(), old(pool.View()), txs[..i], local, wellFormed, offers, views)
      invariant views[i] == pool.View() && forall k :: 0 <= k < i ==> errs[k] == offers[k].result
      invariant dirty == Newcomers(offers) && pool.all.all <= old(pool.all.all) + SetOf(txs[..i])
      invariant !local ==> pool.locals == old(pool.locals)
    {
      var r;
      ghost var o;
      r, o := Offer(pool, txs[i], local, wellFormed(txs[i]));
      NewcomersNext(offers, o);
      SetOfNext(txs, i);
      BatchedNext(pool.Now(), old(pool.View()), txs, i, local, wellFormed, offers, views, o, pool.View());
      if r.Added? && !r.replaced {
        dirty := dirty + {txs[i].from};
      }
      errs, offers, views := errs + [r], offers + [o], views + [pool.View()];
    }
    assert txs[..|txs|] == txs;
    mid, level := pool.View(), 0;
    if dirty != {} {
      mid, level := PromoteExecutables(pool, dirty, now);
    }
  }

  /** Every pending transaction is current and payable at the chain head. */
  ghost predicate PendingCurrent(b: Book, s: ChainState, gas: Uint64) {
    forall a :: ListCurrent(At(b, a), s.Nonce(a), s.Balance(a), gas)
  }

  ghost predicate ListCurrent(m: TxMap, nonce: Uint64, balance: nat, gas: Uint64) {
    forall n :: n in m ==> nonce <= n && !Unpayable(balance, gas)(m[n])
  }

  /** Filtering a list looks at the first payment only: a pending transaction would be let in
      again if and only if what it pays on top is covered, too, and its price is not below
      the floor. */
  lemma CurrentInFull(v: PoolView, t: Terms, tx: Tx)
    requires Inv(v) && PendingCurrent(v.pending, t.state, t.maxGas) && InList(At(v.pending, tx.from), tx)
    ensures Admits(t, tx) <==> tx.Total() <= t.state.Balance(tx.from) && tx.gasPrice >= t.gasPrice
    ensures tx.further == 0 && tx.gasPrice >= t.gasPrice ==> Admits(t, tx)
  {
    assert ListCurrent(At(v.pending, tx.from), t.state.Nonce(tx.from), t.state.Balance(tx.from), t.maxGas);
  }

  /** A one-to-many transaction that was let in with just enough funds stays pending when the
      balance falls to its first payment. */
  lemma UncoveredExample(tx: Tx, t: Terms)
    requires t.state.Nonce(tx.from) == tx.nonce && tx.gas <= t.maxGas && tx.cost <= t.state.Balance(tx.from) < tx.Total()
    ensures var v := PoolView(map[tx.from := map[tx.nonce := tx]], map[], {tx});
            && Inv(v) && DemotedAccount(v, tx.from, t.state.Nonce(tx.from), t.state.Balance(tx.from), t.maxGas) == v
            && PendingCurrent(v.pending, t.state, t.maxGas) && !Admits(t, tx)
  {
    var a, p, over := tx.from, map[tx.nonce := tx], Unpayable(t.state.Balance(tx.from), t.maxGas);
    var v := PoolView(map[a := p], map[], {tx});
    assert tx.nonce in p;
    OneKept(tx, tx.nonce, t.state.Balance(a), t.maxGas);
    assert v.all - {} == v.all;
    AboutWith(v.pending, a, p);
    AboutWith(v.queue, a, map[]);
  }

  /** A list of one current and payable transaction, and what a demotion makes of it. */
  lemma OneKept(tx: Tx, nonce: Uint64, balance: nat, gas: Uint64)
    requires nonce <= tx.nonce && !Unpayable(balance, gas)(tx)
    ensures var p: TxMap := map[tx.nonce := tx];
            && Current(p, nonce) == p && Grounded(p, Unpayable(balance, gas)) == p
            && map[] + Stranded(p, Unpayable(balance, gas)) == map[] && Spent(p, nonce, balance, gas) == {}
  {
    var p: TxMap := map[tx.nonce := tx];
    assert Current(p, nonce) == p;
    assert Stranded(p, Unpayable(balance, gas)) == map[];
    assert Spent(p, nonce, balance, gas) == {} by {
      forall x ensures x !in Spent(p, nonce, balance, gas) {
        InSpent(p, nonce, balance, gas, x);
      }
    }
  }

  lemma DemotedCurrent(v: PoolView, w: PoolView, s: ChainState, gas: Uint64)
    requires Inv(v) && EachAccount(v, w, v.pending.Keys, Demotions(v, s, gas))
    ensures PendingCurrent(w.pending, s, gas)
  {
    forall a: Address ensures ListCurrent(At(w.pending, a), s.Nonce(a), s.Balance(a), gas) {
      assert AccountOk(v, a);
      assert SameAccount(w, if a in v.pending.Keys then Demotions(v, s, gas)(a) else v, a);
      var p, q, over := At(v.pending, a), At(v.queue, a), Unpayable(s.Balance(a), gas);
      UpdateAt(v, a, Grounded(Current(p, s.Nonce(a)), over), q + Stranded(Current(p, s.Nonce(a)), over),
               v.all - Spent(p, s.Nonce(a), s.Balance(a), gas));
    }
  }

  lemma PromotedListCurrent(v: PoolView, w: PoolView, s: ChainState, gas: Uint64, a: Address)
    requires Inv(v) && PendingCurrent(v.pending, s, gas)
    requires EachAccount(v, w, v.queue.Keys, Promotions(v, s, gas))
    ensures ListCurrent(At(w.pending, a), s.Nonce(a), s.Balance(a), gas) && At(w.queue, a) == map[]
  {
    assert AccountOk(v, a);
    assert ListCurrent(At(v.pending, a), s.Nonce(a), s.Balance(a), gas);
    assert SameAccount(w, if a in v.queue.Keys then Promotions(v, s, gas)(a) else v, a);
    if a in v.queue {
      var p, q := At(v.pending, a), At(v.queue, a);
      MergedCurrent(p, q, s.Nonce(a), s.Balance(a), gas);
      UpdateAt(v, a, p + Drop(Current(q, s.Nonce(a)), Unpayable(s.Balance(a), gas)), map[],
               v.all - Spent(q, s.Nonce(a), s.Balance(a), gas));
    }
  }

  lemma MergedCurrent(p: TxMap, q: TxMap, nonce: Uint64, balance: nat, gas: Uint64)
    requires ListCurrent(p, nonce, balance, gas) && WellKeyed(q)
    ensures ListCurrent(p + Drop(Current(q, nonce), Unpayable(balance, gas)), nonce, balance, gas)
  {
  }

  /** Once all queued accounts are promoted, the queue is empty and everything
      pending is current and payable. */
  lemma PromotedCurrent(v: PoolView, w: PoolView, s: ChainState, gas: Uint64)
    requires Inv(v) && NoEmptyList(w.queue) && PendingCurrent(v.pending, s, gas)
    requires EachAccount(v, w, v.queue.Keys, Promotions(v, s, gas))
    ensures PendingCurrent(w.pending, s, gas) && w.queue == map[]
  {
    forall a: Address ensures ListCurrent(At(w.pending, a), s.Nonce(a), s.Balance(a), gas) && At(w.queue, a) == map[] {
      PromotedListCurrent(v, w, s, gas, a);
    }
    assert w.queue.Keys == {} by {
      forall a: Address ensures a !in w.queue {
        assert At(w.queue, a) == map[];
      }
    }
  }

  /** The overflow passes only take away. */
  lemma OverflowCurrent(mid: PoolView, p: Book, q: Book, locals: set<Address>, beats: map<Address, int>, c: Config,
                        level: nat, s: ChainState, gas: Uint64)
    requires PendingCurrent(mid.pending, s, gas) && mid.queue == map[]
    requires FairShare(mid.pending, p, locals, c.accountSlots, c.globalSlots, level)
    requires Trimmed(mid.queue, q, locals, beats, c.globalQueue)
    ensures PendingCurrent(p, s, gas) && q == map[]
  {
    forall a: Address ensures ListCurrent(At(p, a), s.Nonce(a), s.Balance(a), gas) {
      assert ListCurrent(At(mid.pending, a), s.Nonce(a), s.Balance(a), gas);
      assert a in p ==> LowPart(p[a], mid.pending[a]);
    }
    assert forall a: Address :: a !in q;
  }

  /** Moves the pool to the state of a new chain head. Transactions of abandoned blocks are
      offered again, all pending accounts are demoted and all queued ones promoted; afterwards
      nothing is queued, and everything pending is current and payable. */
  method Rebase(pool: TxPool, state: ChainState, maxGas: Uint64, reinject: seq<Tx>, wellFormed: Tx -> bool, now: int)
    returns (ghost course: Course)
    requires pool.Valid()
    modifies pool`state, pool`currentMaxGas, pool`beats, pool`locals, pool.all, pool.priced, pool.pending, pool.queue
    ensures pool.Valid() && pool.state == state && pool.currentMaxGas == maxGas && pool.locals == old(pool.locals)
    ensures pool.queue.view == map[] && PendingCurrent(pool.pending.view, state, maxGas)
    ensures pool.all.all <= old(pool.all.all) + SetOf(reinject)
    ensures Rebased(pool.Now(), pool.locals, old(pool.View()), reinject, wellFormed, course, pool.View())
  {
    pool.SetHead(state, maxGas);
    var errs;
    ghost var offers, views, mid, level;
    errs, offers, views, mid, level := AddTxs(pool, reinject, false, wellFormed, now);
    ghost var first, added := Pass(mid, level, pool.beats), pool.View();
    ghost var demoted, last := Settle(pool, now);
    course := Course(offers, views, first, added, demoted, last);
  }

  /** Demotes what the chain head has made unexecutable, then promotes the rest. */
  method Settle(pool: TxPool, now: int) returns (ghost demoted: PoolView, ghost last: Pass)
    requires pool.Valid()
    modifies pool`beats, pool.all, pool.priced, pool.pending, pool.queue
    ensures pool.Valid() && pool.all.all <= old(pool.all.all) && Inv(old(pool.View())) && Inv(demoted)
    ensures pool.queue.view == map[] && PendingCurrent(pool.pending.view, pool.state, pool.currentMaxGas)
    ensures EachAccount(old(pool.View()), demoted, old(pool.pending.view).Keys,
                        Demotions(old(pool.View()), pool.state, pool.currentMaxGas))
    ensures last.beats == pool.beats
    ensures Promoted(pool.Now(), pool.locals, last.beats, demoted, last.mid, pool.View(), demoted.queue.Keys, last.level)
  {
    InvOf(pool);
    DemoteUnexecutables(pool);
    DemotedCurrent(old(pool.View()), pool.View(), pool.state, pool.currentMaxGas);
    InvOf(pool);
    demoted := pool.View();
    last := PromoteQueue(pool, now);
  }

  method PromoteQueue(pool: TxPool, now: int) returns (ghost last: Pass)
    requires pool.Valid() && PendingCurrent(pool.pending.view, pool.state, pool.currentMaxGas)
    modifies pool`beats, pool.all, pool.priced, pool.pending, pool.queue
    ensures pool.Valid() && pool.all.all <= old(pool.all.all)
    ensures pool.queue.view == map[] && PendingCurrent(pool.pending.view, pool.state, pool.currentMaxGas)
    ensures last.beats == pool.beats
    ensures Promoted(pool.Now(), pool.locals, pool.beats, old(pool.View()), last.mid, pool.View(), old(pool.queue.view).Keys, last.level)
  {
    InvOf(pool);
    ghost var mid, level := PromoteExecutables(pool, pool.queue.Accounts(), now);
    PromotedCurrent(old(pool.View()), mid, pool.state, pool.currentMaxGas);
    OverflowCurrent(mid, pool.pending.view, pool.queue.view, pool.locals, pool.beats, pool.config, level,
                    pool.state, pool.currentMaxGas);
    last := Pass(mid, level, pool.beats);
  }

  datatype TxStatus = Unknown | Queued | Pending

  /** Looks up where a transaction is; only the pending list is searched, and only by
      nonce. */
  method Status(pool: TxPool, tx: Tx) returns (s: TxStatus)
    requires pool.Valid()
    ensures s.Unknown? <==> tx !in pool.all.all
    ensures s.Pending? <==> InList(At(pool.pending.view, tx.from), tx)
    ensures s.Queued? <==> InList(At(pool.queue.view, tx.from), tx)
  {
    InvOf(pool);
    assert AccountOk(pool.View(), tx.from);
    if tx !in pool.all.all {
      return Unknown;
    }
    if pool.pending.Has(tx.from) && pool.pending.Overlaps(tx) {
      return Pending;
    }
    return Queued;
  }

  /** Takes one transaction out of the pool, such as one that enough nodes report as wrong:
      what was pending behind it is queued again, and nothing else is lost. */
  method Discard(pool: TxPool, tx: Tx)
    requires pool.Valid()
    modifies pool`beats, pool.all, pool.priced, pool.pending, pool.queue
    ensures pool.Valid() && pool.View() == Removed(old(pool.View()), tx)
    ensures pool.all.all == old(pool.all.all) - {tx}
  {
    assert UnfoldPool(0);
    RemovedKeeps(pool.View(), tx);
    pool.RemoveTx(tx, true, pool.all.all);
  }

  predicate Expired(pool: TxPool, a: Address, now: int, lifetime: int)
    reads pool
  {
    a !in pool.locals && now - (if a in pool.beats then pool.beats[a] else 0) > lifetime
  }

  /** Drops the queues of accounts that have been inactive for too long. */
  method Evict(pool: TxPool, now: int, lifetime: int)
    requires pool.Valid()
    modifies pool`beats, pool.all, pool.priced, pool.pending, pool.queue
    ensures pool.Valid() && pool.pending.view == old(pool.pending.view) && pool.all.all <= old(pool.all.all)
    ensures pool.queue.view == map a | a in old(pool.queue.view) && !old(Expired(pool, a, now, lifetime)) :: old(pool.queue.view)[a]
  {
    InvOf(pool);
    DropExpired(pool, now, lifetime);
    InvOf(pool);
    PartsWithin(old(pool.View()), pool.View());
  }

  method DropExpired(pool: TxPool, now: int, lifetime: int)
    requires pool.Valid()
    modifies pool`beats, pool.all, pool.priced, pool.pending, pool.queue
    ensures pool.Valid() && pool.pending.view == old(pool.pending.view)
    ensures pool.queue.view == map a | a in old(pool.queue.view) && !old(Expired(pool, a, now, lifetime)) :: old(pool.queue.view)[a]
  {
    var todo := pool.queue.Accounts();
    while todo != {}
      invariant pool.Valid() && pool.pending.view == old(pool.pending.view) && pool.beats == old(pool.beats)
      invariant todo <= pool.queue.view.Keys
      invariant pool.queue.view == map a | a in old(pool.queue.view) && (a in todo || !old(Expired(pool, a, now, lifetime))) :: old(pool.queue.view)[a]
      decreases todo
    {
      var a :| a in todo;
      if Expired(pool, a, now, lifetime) {
        DropWhole(pool, a);
      }
      todo := todo - {a};
    }
  }
}
