/** The contents of the transaction pool as plain values, the invariant that ties
    its three views together, and the moves that keep it. */
module PoolViews {
  import opened Wrappers
  import opened Transactions
  import opened TxLists

  predicate InList(m: TxMap, tx: Tx) {
    tx.nonce in m && m[tx.nonce] == tx
  }

  ghost predicate OwnList(a: Address, m: TxMap) {
    forall n :: n in m ==> m[n].nonce == n && m[n].from == a
  }

  /** p and q hold only transactions sent by a, never the same nonce, and together
      exactly those of `all` that a sent. */
  ghost predicate AccountInv(a: Address, p: TxMap, q: TxMap, all: set<Tx>) {
    && OwnList(a, p) && OwnList(a, q)
    && p.Keys !! q.Keys
    && (forall tx: Tx :: tx.from == a ==> (tx in all <==> InList(p, tx) || InList(q, tx)))
  }

  datatype PoolView = PoolView(pending: Book, queue: Book, all: set<Tx>)

  /** The lookup is exactly the disjoint union of the pending and the queued
      transactions, no account has a nonce both pending and queued, and every
      stored list is non-empty and holds only its own sender. */
  ghost predicate Inv(v: PoolView) {
    && NoEmptyList(v.pending) && NoEmptyList(v.queue)
    && forall a :: AccountOk(v, a)
  }

  ghost predicate AccountOk(v: PoolView, a: Address) {
    AccountInv(a, At(v.pending, a), At(v.queue, a), v.all)
  }

  /** v with new lists for account a and a new lookup. */
  function Update(v: PoolView, a: Address, p: TxMap, q: TxMap, all: set<Tx>): (r: PoolView) {
    PoolView(With(v.pending, a, p), With(v.queue, a, q), all)
  }

  lemma AboutWith(b: Book, a: Address, m: TxMap)
    requires NoEmptyList(b)
    ensures At(With(b, a, m), a) == m && NoEmptyList(With(b, a, m))
    ensures forall x :: x != a ==> At(With(b, a, m), x) == At(b, x)
    ensures m == At(b, a) ==> With(b, a, m) == b
  {
  }

  /** An update that keeps account a consistent and touches no other account's
      transactions keeps the invariant. */
  lemma UpdateKeeps(v: PoolView, a: Address, p: TxMap, q: TxMap, all: set<Tx>)
    requires Inv(v) && AccountInv(a, p, q, all)
    requires forall tx: Tx :: tx.from != a ==> (tx in all <==> tx in v.all)
    ensures Inv(Update(v, a, p, q, all))
  {
    AboutWith(v.pending, a, p);
    AboutWith(v.queue, a, q);
    var r := Update(v, a, p, q, all);
    forall x ensures AccountOk(r, x) {
      assert AccountOk(v, x);
    }
  }

  lemma NothingLow(lo: TxMap)
    requires LowPart(lo, map[])
    ensures lo == map[] && TxsOf(map[] - lo.Keys) == {}
  {
  }

  lemma MinusTwice<T>(s: set<T>, x: set<T>, y: set<T>)
    ensures s - x - y == s - (x + y)
  {
  }

  lemma UpdateTwice(b: Book, a: Address, m: TxMap, n: TxMap)
    ensures b[a := m][a := n] == b[a := n]
  {
  }

  lemma UpdateGone(b: Book, a: Address, m: TxMap)
    ensures b[a := m] - {a} == b - {a}
  {
  }

  lemma WithTwice(b: Book, a: Address, m: TxMap)
    ensures With(b[a := m], a, m) == With(b, a, m)
  {
  }

  /** b with m added to the list of account a. */
  function Merged(b: Book, a: Address, m: TxMap): (r: Book) {
    With(b, a, At(b, a) + m)
  }

  lemma MergeNone(b: Book, a: Address)
    requires NoEmptyList(b)
    ensures Merged(b, a, MapOf([])) == b
  {
    assert At(b, a) + map[] == At(b, a);
  }

  /** Adding the transactions of an enumeration one by one, each finds its nonce
      free. */
  lemma MergeNext(b: Book, a: Address, txs: seq<Tx>, m: TxMap, i: nat)
    requires NoEmptyList(b) && Enumerates(txs, m) && OwnList(a, m) && i < |txs|
    requires m.Keys !! At(b, a).Keys
    ensures var w := Merged(b, a, MapOf(txs[..i]));
            && txs[i].from == a && txs[i] in TxsOf(m) && txs[i].nonce !in At(w, a)
            && w[a := WithTx(At(w, a), txs[i])] == Merged(b, a, MapOf(txs[..i + 1]))
  {
    EnumeratesNext(txs, m, i);
    MergeOne(b, a, MapOf(txs[..i]), txs[i]);
  }

  lemma MergeOne(b: Book, a: Address, m: TxMap, tx: Tx)
    requires NoEmptyList(b) && tx.nonce !in m && tx.nonce !in At(b, a)
    ensures var w := Merged(b, a, m);
            tx.nonce !in At(w, a) && w[a := WithTx(At(w, a), tx)] == Merged(b, a, WithTx(m, tx))
  {
    var l := At(b, a) + m;
    AboutWith(b, a, l);
    assert WithTx(l, tx) == At(b, a) + WithTx(m, tx);
  }

  function TxsOf(m: TxMap): (s: set<Tx>) {
    set n | n in m :: m[n]
  }

  lemma TxsOfWith(m: TxMap, tx: Tx)
    requires tx.nonce !in m
    ensures TxsOf(WithTx(m, tx)) == TxsOf(m) + {tx}
  {
    var w := WithTx(m, tx);
    assert w[tx.nonce] == tx;
    assert forall n :: n in m ==> w[n] == m[n];
  }

  ghost predicate SubMap(m: TxMap, of: TxMap) {
    forall n :: n in m ==> n in of && of[n] == m[n]
  }

  /** Dropping transactions of an account for good. */
  function Forget(v: PoolView, a: Address, m: TxMap): (r: PoolView) {
    Update(v, a, At(v.pending, a) - m.Keys, At(v.queue, a) - m.Keys, v.all - TxsOf(m))
  }

  lemma ForgetKeeps(v: PoolView, a: Address, m: TxMap)
    requires Inv(v) && (SubMap(m, At(v.pending, a)) || SubMap(m, At(v.queue, a)))
    ensures Inv(Forget(v, a, m))
  {
    var p, q := At(v.pending, a), At(v.queue, a);
    assert AccountOk(v, a);
    UpdateKeeps(v, a, p - m.Keys, q - m.Keys, v.all - TxsOf(m));
  }

  /** Storing a transaction in the queue, over the one with its nonce if any. */
  function StoreQueued(v: PoolView, tx: Tx): (r: PoolView) {
    var p, q := At(v.pending, tx.from), At(v.queue, tx.from);
    Update(v, tx.from, p, WithTx(q, tx), v.all - AsSet(Occupant(q, tx.nonce)) + {tx})
  }

  /** Storing a transaction as pending, over the one with its nonce if any. */
  function StorePending(v: PoolView, tx: Tx): (r: PoolView) {
    var p, q := At(v.pending, tx.from), At(v.queue, tx.from);
    Update(v, tx.from, WithTx(p, tx), q, v.all - AsSet(Occupant(p, tx.nonce)) + {tx})
  }

  lemma StoreKeeps(v: PoolView, tx: Tx)
    requires Inv(v) && tx !in v.all
    ensures tx.nonce !in At(v.pending, tx.from) ==> Inv(StoreQueued(v, tx))
    ensures tx.nonce in At(v.pending, tx.from) ==> Inv(StorePending(v, tx))
  {
    var p, q := At(v.pending, tx.from), At(v.queue, tx.from);
    assert AccountOk(v, tx.from);
    if tx.nonce in p {
      UpdateKeeps(v, tx.from, WithTx(p, tx), q, v.all - AsSet(Occupant(p, tx.nonce)) + {tx});
    } else {
      UpdateKeeps(v, tx.from, p, WithTx(q, tx), v.all - AsSet(Occupant(q, tx.nonce)) + {tx});
    }
  }

  /** Removing one transaction: those pending above it go back to the queue. */
  function Removed(v: PoolView, tx: Tx): (r: PoolView) {
    var a, p, q := tx.from, At(v.pending, tx.from), At(v.queue, tx.from);
    if tx !in v.all then v
    else if tx.nonce in p then
      Update(v, a, Drop(p - {tx.nonce}, Above(tx.nonce)), q + Keep(p, Above(tx.nonce)), v.all - {tx})
    else
      Update(v, a, p, q - {tx.nonce}, v.all - {tx})
  }

  lemma RemovedAccount(a: Address, p: TxMap, q: TxMap, all: set<Tx>, tx: Tx)
    requires AccountInv(a, p, q, all) && tx in all && tx.from == a
    ensures tx.nonce in p ==>
              AccountInv(a, Drop(p - {tx.nonce}, Above(tx.nonce)), q + Keep(p, Above(tx.nonce)), all - {tx})
    ensures tx.nonce !in p ==> AccountInv(a, p, q - {tx.nonce}, all - {tx})
  {
  }

  /** Removing a transaction removes exactly that one and keeps the invariant. */
  lemma RemovedKeeps(v: PoolView, tx: Tx)
    requires Inv(v)
    ensures Inv(Removed(v, tx)) && Removed(v, tx).all == v.all - {tx}
  {
    if tx in v.all {
      var a, p, q := tx.from, At(v.pending, tx.from), At(v.queue, tx.from);
      assert AccountOk(v, a);
      RemovedAccount(a, p, q, v.all, tx);
      if tx.nonce in p {
        UpdateKeeps(v, a, Drop(p - {tx.nonce}, Above(tx.nonce)), q + Keep(p, Above(tx.nonce)), v.all - {tx});
      } else {
        UpdateKeeps(v, a, p, q - {tx.nonce}, v.all - {tx});
      }
    }
  }

  /** Where another transaction of the pool is after a removal: still pending, unless it was behind
      the one removed; those behind it are queued. */
  lemma RemovedWhere(v: PoolView, tx: Tx, x: Tx)
    requires Inv(v) && tx in v.all && x in v.all && x != tx
    ensures var w := Removed(v, tx);
            var behind := x.from == tx.from && x.nonce > tx.nonce && InList(At(v.pending, tx.from), tx);
            && (InList(At(w.pending, x.from), x) <==> InList(At(v.pending, x.from), x) && !behind)
            && (InList(At(w.queue, x.from), x) <==> InList(At(v.queue, x.from), x) || (InList(At(v.pending, x.from), x) && behind))
  {
    var a, p, q := tx.from, At(v.pending, tx.from), At(v.queue, tx.from);
    assert AccountOk(v, a);
    RemovedLists(a, p, q, v.all, tx, x);
    if tx.nonce in p {
      AboutWith(v.pending, a, Drop(p - {tx.nonce}, Above(tx.nonce)));
      AboutWith(v.queue, a, q + Keep(p, Above(tx.nonce)));
    } else {
      AboutWith(v.pending, a, p);
      AboutWith(v.queue, a, q - {tx.nonce});
    }
  }

  lemma RemovedLists(a: Address, p: TxMap, q: TxMap, all: set<Tx>, tx: Tx, x: Tx)
    requires AccountInv(a, p, q, all) && tx in all && tx.from == a && x != tx
    ensures InList(p, tx) <==> tx.nonce in p
    ensures tx.nonce in p ==> (InList(Drop(p - {tx.nonce}, Above(tx.nonce)), x) <==> InList(p, x) && x.nonce <= tx.nonce)
    ensures InList(q + Keep(p, Above(tx.nonce)), x) <==> InList(q, x) || (InList(p, x) && x.nonce > tx.nonce)
    ensures tx.nonce !in p ==> (InList(q - {tx.nonce}, x) <==> InList(q, x))
  {
    var low, high := p - {tx.nonce}, Keep(p, Above(tx.nonce));
    assert InList(p, tx) || InList(q, tx);
    InDropped(low, Above(tx.nonce), x);
    InEither(q, high, x);
  }

  /** What is pending above a pooled transaction can be queued again. */
  lemma RequeueFits(v: PoolView, tx: Tx)
    requires Inv(v) && tx in v.all
    ensures var p, q := At(v.pending, tx.from), At(v.queue, tx.from);
            && OwnList(tx.from, p) && p.Keys !! q.Keys
            && TxsOf(Keep(p, Above(tx.nonce))) <= v.all - {tx}
            && With(v.pending, tx.from, p) == v.pending
  {
    assert AccountOk(v, tx.from);
    AboutWith(v.pending, tx.from, At(v.pending, tx.from));
  }

  function Current(m: TxMap, nonce: Uint64): (r: TxMap) { Drop(m, Below(nonce)) }

  /** What is dropped from a list: the too old and the unpayable. */
  function Spent(m: TxMap, nonce: Uint64, balance: nat, gas: Uint64): (s: set<Tx>) {
    TxsOf(Keep(m, Below(nonce))) + TxsOf(Keep(Current(m, nonce), Unpayable(balance, gas)))
  }

  lemma InTxsOf(m: TxMap, tx: Tx)
    requires WellKeyed(m)
    ensures tx in TxsOf(m) <==> InList(m, tx)
  {
    if InList(m, tx) {
      assert m[tx.nonce] in TxsOf(m);
    }
  }

  lemma InSpent(m: TxMap, nonce: Uint64, balance: nat, gas: Uint64, tx: Tx)
    requires WellKeyed(m)
    ensures tx in Spent(m, nonce, balance, gas) <==>
            InList(m, tx) && (tx.nonce < nonce || Unpayable(balance, gas)(tx))
  {
    InTxsOf(Keep(m, Below(nonce)), tx);
    InTxsOf(Keep(Current(m, nonce), Unpayable(balance, gas)), tx);
  }

  lemma InCurrent(m: TxMap, nonce: Uint64, tx: Tx)
    ensures InList(Current(m, nonce), tx) <==> InList(m, tx) && tx.nonce >= nonce
  {
  }

  lemma InEither(q: TxMap, s: TxMap, tx: Tx)
    requires q.Keys !! s.Keys
    ensures InList(q + s, tx) <==> InList(q, tx) || InList(s, tx)
  {
  }

  lemma InDropped(m: TxMap, over: Tx -> bool, tx: Tx)
    ensures InList(Drop(m, over), tx) <==> InList(m, tx) && !over(tx)
  {
  }

  /** Promoting an account: its whole queue becomes pending, except what is too old
      or unpayable, which is dropped. */
  function PromotedAccount(v: PoolView, a: Address, nonce: Uint64, balance: nat, gas: Uint64): (r: PoolView) {
    var p, q := At(v.pending, a), At(v.queue, a);
    Update(v, a, p + Drop(Current(q, nonce), Unpayable(balance, gas)), map[], v.all - Spent(q, nonce, balance, gas))
  }

  lemma PromotedKeeps(v: PoolView, a: Address, nonce: Uint64, balance: nat, gas: Uint64)
    requires Inv(v)
    ensures Inv(PromotedAccount(v, a, nonce, balance, gas))
  {
    var p, q := At(v.pending, a), At(v.queue, a);
    assert AccountOk(v, a);
    PromotedLists(a, p, q, v.all, nonce, balance, gas);
    UpdateKeeps(v, a, p + Drop(Current(q, nonce), Unpayable(balance, gas)), map[], v.all - Spent(q, nonce, balance, gas));
  }

  /** What an account's queue is left with finds its nonces free among the pending
      ones; an account without a queue is not changed. */
  lemma PromotedFits(v: PoolView, a: Address, nonce: Uint64, balance: nat, gas: Uint64)
    requires Inv(v)
    ensures var q, good := At(v.queue, a), Drop(Current(At(v.queue, a), nonce), Unpayable(balance, gas));
            && OwnList(a, q) && good.Keys !! At(v.pending, a).Keys
            && TxsOf(good) <= v.all - Spent(q, nonce, balance, gas)
            && (a !in v.queue ==> PromotedAccount(v, a, nonce, balance, gas) == v)
  {
    var p, q := At(v.pending, a), At(v.queue, a);
    var good := Drop(Current(q, nonce), Unpayable(balance, gas));
    assert AccountOk(v, a);
    forall tx | tx in TxsOf(good) ensures tx in v.all - Spent(q, nonce, balance, gas) {
      InSpent(q, nonce, balance, gas, tx);
    }
    if a !in v.queue {
      assert p + good == p;
      assert v.all - Spent(q, nonce, balance, gas) == v.all;
      AboutWith(v.pending, a, p);
      AboutWith(v.queue, a, q);
    }
  }

  lemma PromotedLists(a: Address, p: TxMap, q: TxMap, all: set<Tx>, nonce: Uint64, balance: nat, gas: Uint64)
    requires AccountInv(a, p, q, all)
    ensures AccountInv(a, p + Drop(Current(q, nonce), Unpayable(balance, gas)), map[], all - Spent(q, nonce, balance, gas))
    ensures forall tx :: tx in Spent(q, nonce, balance, gas) ==> tx.from == a
  {
    var r := Drop(Current(q, nonce), Unpayable(balance, gas));
    forall tx: Tx ensures tx.from == a ==> (tx in all - Spent(q, nonce, balance, gas) <==> InList(p + r, tx))
                  ensures tx in Spent(q, nonce, balance, gas) ==> tx.from == a
    {
      InSpent(q, nonce, balance, gas, tx);
      InCurrent(q, nonce, tx);
      InDropped(Current(q, nonce), Unpayable(balance, gas), tx);
      InEither(p, r, tx);
    }
  }

  /** Demoting an account: what is too old or unpayable is dropped, and what was
      pending behind an unpayable transaction goes back to the queue. */
  ghost function DemotedAccount(v: PoolView, a: Address, nonce: Uint64, balance: nat, gas: Uint64): (r: PoolView) {
    var p, q, over := At(v.pending, a), At(v.queue, a), Unpayable(balance, gas);
    Update(v, a, Grounded(Current(p, nonce), over), q + Stranded(Current(p, nonce), over),
           v.all - Spent(p, nonce, balance, gas))
  }

  lemma DemotedKeeps(v: PoolView, a: Address, nonce: Uint64, balance: nat, gas: Uint64)
    requires Inv(v)
    ensures Inv(DemotedAccount(v, a, nonce, balance, gas))
  {
    var p, q, over := At(v.pending, a), At(v.queue, a), Unpayable(balance, gas);
    assert AccountOk(v, a);
    DemotedLists(a, p, q, v.all, nonce, balance, gas);
    UpdateKeeps(v, a, Grounded(Current(p, nonce), over), q + Stranded(Current(p, nonce), over),
                v.all - Spent(p, nonce, balance, gas));
  }

  /** A payable transaction is either grounded or stranded. */
  lemma GroundedOrStranded(m: TxMap, over: Tx -> bool, tx: Tx)
    ensures InList(m, tx) && !over(tx) <==> InList(Grounded(m, over), tx) || InList(Stranded(m, over), tx)
    ensures !(InList(Grounded(m, over), tx) && InList(Stranded(m, over), tx))
  {
    if InList(m, tx) && !over(tx) && tx.nonce !in Stranded(m, over) {
      assert tx.nonce in Grounded(m, over);
    }
  }

  /** A transaction is in the lookup after a demotion if and only if one of the lists has
      it. */
  lemma DemotedMember(a: Address, p: TxMap, q: TxMap, all: set<Tx>, nonce: Uint64, balance: nat, gas: Uint64, tx: Tx)
    requires AccountInv(a, p, q, all)
    ensures var over, m := Unpayable(balance, gas), Current(p, nonce);
            tx.from == a ==>
              (tx in all - Spent(p, nonce, balance, gas) <==>
               InList(Grounded(m, over), tx) || InList(q + Stranded(m, over), tx))
    ensures tx in Spent(p, nonce, balance, gas) ==> tx.from == a
  {
    var over, m := Unpayable(balance, gas), Current(p, nonce);
    InSpent(p, nonce, balance, gas, tx);
    InCurrent(p, nonce, tx);
    GroundedOrStranded(m, over, tx);
    InEither(q, Stranded(m, over), tx);
  }

  /** The lists of a demoted account hold its own transactions, and no nonce twice. */
  lemma DemotedOwn(a: Address, p: TxMap, q: TxMap, nonce: Uint64, over: Tx -> bool)
    requires OwnList(a, p) && OwnList(a, q) && p.Keys !! q.Keys
    ensures var g, s := Grounded(Current(p, nonce), over), Stranded(Current(p, nonce), over);
            OwnList(a, g) && OwnList(a, q + s) && g.Keys !! (q + s).Keys
  {
  }

  lemma DemotedLists(a: Address, p: TxMap, q: TxMap, all: set<Tx>, nonce: Uint64, balance: nat, gas: Uint64)
    requires AccountInv(a, p, q, all)
    ensures var over, m := Unpayable(balance, gas), Current(p, nonce);
            AccountInv(a, Grounded(m, over), q + Stranded(m, over), all - Spent(p, nonce, balance, gas))
    ensures forall tx :: tx in Spent(p, nonce, balance, gas) ==> tx.from == a
  {
    var over, m := Unpayable(balance, gas), Current(p, nonce);
    var g, s := Grounded(m, over), Stranded(m, over);
    DemotedOwn(a, p, q, nonce, over);
    forall tx: Tx ensures tx.from == a ==> (tx in all - Spent(p, nonce, balance, gas) <==> InList(g, tx) || InList(q + s, tx))
                  ensures tx in Spent(p, nonce, balance, gas) ==> tx.from == a
    {
      DemotedMember(a, p, q, all, nonce, balance, gas, tx);
    }
  }

  /** What is stranded finds its nonces free in the queue. */
  lemma DemotedFits(v: PoolView, a: Address, nonce: Uint64, balance: nat, gas: Uint64)
    requires Inv(v)
    ensures var p, s := At(v.pending, a), Stranded(Current(At(v.pending, a), nonce), Unpayable(balance, gas));
            && OwnList(a, s) && s.Keys !! At(v.queue, a).Keys
            && TxsOf(s) <= v.all - Spent(p, nonce, balance, gas)
  {
    var p := At(v.pending, a);
    var s := Stranded(Current(p, nonce), Unpayable(balance, gas));
    assert AccountOk(v, a);
    forall tx | tx in TxsOf(s) ensures tx in v.all - Spent(p, nonce, balance, gas) {
      InSpent(p, nonce, balance, gas, tx);
    }
  }

  /** Dropping the highest pending nonces of an account, but not all of them. */
  lemma LowForget(v: PoolView, a: Address, lo: TxMap)
    requires Inv(v) && a in v.pending && LowPart(lo, v.pending[a]) && lo != map[]
    ensures Inv(PoolView(v.pending[a := lo], v.queue, v.all - TxsOf(v.pending[a] - lo.Keys)))
  {
    var gone := v.pending[a] - lo.Keys;
    assert AccountOk(v, a);
    ForgetKeeps(v, a, gone);
    assert v.pending[a] - gone.Keys == lo;
    assert At(v.queue, a) - gone.Keys == At(v.queue, a);
    AboutWith(v.queue, a, At(v.queue, a));
  }
}
