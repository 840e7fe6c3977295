/** What happens to the pool between two states of it, as plain values: offers, promotions,
    demotions, and a move to a new chain head. What was there, and what is offered, stays
    unless there is a reason. */
module PoolCourses {
  import opened Wrappers
  import opened Transactions
  import opened PoolViews
  import opened TxPools
  import opened TxLists
  import opened TxPriced
  import opened WaterLevels
  import opened Sums

  ghost predicate SameAccount(v: PoolView, w: PoolView, a: Address) {
    At(v.pending, a) == At(w.pending, a) && At(v.queue, a) == At(w.queue, a)
  }

  /** w is v where each of the given accounts is as in its own outcome. */
  ghost predicate EachAccount(v: PoolView, w: PoolView, accounts: set<Address>, outcome: Address -> PoolView) {
    forall a: Address :: SameAccount(w, if a in accounts then outcome(a) else v, a)
  }

  lemma EachNext(v: PoolView, w: PoolView, u: PoolView, done: set<Address>, outcome: Address -> PoolView, x: Address)
    requires EachAccount(v, w, done, outcome) && SameAccount(u, outcome(x), x)
    requires forall a: Address :: a != x ==> SameAccount(u, w, a)
    ensures EachAccount(v, u, done + {x}, outcome)
  {
    forall a: Address ensures SameAccount(u, if a in done + {x} then outcome(a) else v, a) {
      if a != x {
        assert SameAccount(w, if a in done then outcome(a) else v, a);
        assert SameAccount(u, w, a);
      }
    }
  }

  function Promotions(v: PoolView, s: ChainState, gas: Uint64): Address -> PoolView {
    (a: Address) => PromotedAccount(v, a, s.Nonce(a), s.Balance(a), gas)
  }

  ghost function Demotions(v: PoolView, s: ChainState, gas: Uint64): Address -> PoolView {
    (a: Address) => DemotedAccount(v, a, s.Nonce(a), s.Balance(a), gas)
  }

  lemma UpdateAt(w: PoolView, x: Address, p: TxMap, q: TxMap, all: set<Tx>)
    requires Inv(w)
    ensures At(Update(w, x, p, q, all).pending, x) == p && At(Update(w, x, p, q, all).queue, x) == q
    ensures forall a :: a != x ==> SameAccount(Update(w, x, p, q, all), w, a)
  {
    AboutWith(w.pending, x, p);
    AboutWith(w.queue, x, q);
  }

  // ----------------------------------------------- nothing comes from nowhere

  /** If the lists of every account have only what was in the lookup, nothing is new. */
  lemma EachWithin(v: PoolView, w: PoolView, accounts: set<Address>, outcome: Address -> PoolView)
    requires Inv(v) && Inv(w) && EachAccount(v, w, accounts, outcome)
    requires forall a :: a in accounts ==> Inv(outcome(a)) && outcome(a).all <= v.all
    ensures w.all <= v.all
  {
    forall tx | tx in w.all ensures tx in v.all {
      var a := tx.from;
      var u := if a in accounts then outcome(a) else v;
      assert SameAccount(w, u, a) && AccountOk(w, a) && AccountOk(u, a);
    }
  }

  lemma PromotionsWithin(v: PoolView, w: PoolView, accounts: set<Address>, s: ChainState, gas: Uint64)
    requires Inv(v) && Inv(w) && EachAccount(v, w, accounts, Promotions(v, s, gas))
    ensures w.all <= v.all
  {
    forall a | a in accounts ensures Inv(Promotions(v, s, gas)(a)) && Promotions(v, s, gas)(a).all <= v.all {
      PromotedKeeps(v, a, s.Nonce(a), s.Balance(a), gas);
    }
    EachWithin(v, w, accounts, Promotions(v, s, gas));
  }

  lemma DemotionsWithin(v: PoolView, w: PoolView, accounts: set<Address>, s: ChainState, gas: Uint64)
    requires Inv(v) && Inv(w) && EachAccount(v, w, accounts, Demotions(v, s, gas))
    ensures w.all <= v.all
  {
    forall a | a in accounts ensures Inv(Demotions(v, s, gas)(a)) && Demotions(v, s, gas)(a).all <= v.all {
      DemotedKeeps(v, a, s.Nonce(a), s.Balance(a), gas);
    }
    EachWithin(v, w, accounts, Demotions(v, s, gas));
  }

  /** Parts of the lists of every account. */
  lemma PartsWithin(v: PoolView, w: PoolView)
    requires Inv(v) && Inv(w)
    requires forall a :: a in w.pending ==> a in v.pending && LowPart(w.pending[a], v.pending[a])
    requires forall a :: a in w.queue ==> a in v.queue && LowPart(w.queue[a], v.queue[a])
    ensures w.all <= v.all
  {
    forall tx | tx in w.all ensures tx in v.all {
      assert AccountOk(w, tx.from) && AccountOk(v, tx.from);
    }
  }

  // ------------------------------------------------------------------- offers

  /** One offer: whether it is local and whether the checks that the pool has no part in pass,
      the local accounts before it, its result, what left to make room, and the pool then. */
  datatype Offering = Offering(tx: Tx, local: bool, wellFormed: bool, locals: set<Address>,
                               result: AddResult, out: set<Tx>, mid: PoolView)

  /** The local accounts after an offer. */
  function LocalsAfter(o: Offering): (s: set<Address>) {
    o.locals + if o.result.Added? && o.local && o.tx.nonce !in At(o.mid.pending, o.tx.from) then {o.tx.from} else {}
  }

  ghost predicate UnfoldOffer(k: int) { true }

  /** What one offer does to the pool: it is known, fails a check, or is no better than anything
      in a full pool, and then changes nothing; else room is made, and it takes its nonce if
      that is free or outbid. */
  ghost predicate Offered(t: Terms, v: PoolView, o: Offering, w: PoolView) {
    forall k {:trigger UnfoldOffer(k)} :: UnfoldOffer(k) ==>
      var known, good := o.tx in v.all, o.wellFormed && Admits(t, o.tx);
      && Inv(o.mid) && Inv(w) && o.mid.all == v.all - o.out
      && (o.result.KnownTransaction? <==> known)
      && (o.result.InvalidTransaction? <==> !known && !good)
      && (o.result.Underpriced? <==> !known && good && NoneWorse(t.config, o.locals, v.all, o.tx, o.local))
      && (o.result.Added? || o.result.ReplaceUnderpriced? ==>
            Leaves(t.config, o.locals, o.out, v.all) && Placing(t.config.priceBump, o.mid, w, o.tx, o.result))
      && (o.result.KnownTransaction? || o.result.InvalidTransaction? || o.result.Underpriced? ==> o.out == {} && w == v)
  }

  predicate SameSlot(x: Tx, y: Tx) { x.from == y.from && x.nonce == y.nonce }

  /** Another transaction of these has the same sender and nonce. */
  ghost predicate Rivalled(txs: set<Tx>, x: Tx) {
    exists y :: y in txs && y != x && SameSlot(x, y)
  }

  /** Storing a transaction takes out at most the one with its sender and nonce. */
  lemma PlacingKeeps(bump: nat, v: PoolView, w: PoolView, tx: Tx, r: AddResult, x: Tx)
    requires Inv(v) && tx !in v.all && Placing(bump, v, w, tx, r)
    ensures w.all <= v.all + {tx}
    ensures r.Added? ==> tx in w.all
    ensures x in v.all ==> x in w.all || (r.Added? && SameSlot(x, tx) && x != tx)
    ensures !r.Added? ==> Rivalled(v.all, tx)
  {
    assert AccountOk(v, tx.from);
    var p, q := At(v.pending, tx.from), At(v.queue, tx.from);
    if !r.Added? {
      var y := if tx.nonce in p then p[tx.nonce] else q[tx.nonce];
      assert y in v.all;
    }
  }

  lemma NobodyLeaves(c: Config, locals: set<Address>, out: set<Tx>, before: set<Tx>)
    requires Leaves(c, locals, out, before) && !Crowded(c, before)
    ensures out == {}
  {
  }

  /** What an offer brings, and what it takes. */
  lemma OfferKeeps(t: Terms, v: PoolView, o: Offering, w: PoolView, x: Tx)
    requires Inv(v) && Offered(t, v, o, w)
    ensures Inv(w) && w.all <= v.all + {o.tx}
    ensures x in v.all ==> x in w.all || x in o.out || (SameSlot(x, o.tx) && x != o.tx)
    ensures o.wellFormed && Admits(t, o.tx) ==> o.tx in w.all || o.result.Underpriced? || Rivalled(v.all, o.tx)
    ensures !Crowded(t.config, v.all) ==> o.out == {} && !o.result.Underpriced?
    ensures o.result.Added? && o.tx !in v.all ==> o.tx in w.all
  {
    assert UnfoldOffer(0);
    if o.result.Added? || o.result.ReplaceUnderpriced? {
      PlacingKeeps(t.config.priceBump, o.mid, w, o.tx, o.result, x);
      if !Crowded(t.config, v.all) {
        NobodyLeaves(t.config, o.locals, o.out, v.all);
      }
    }
  }

  // ------------------------------------------------------------------ batches

  /** The offers of a batch, one after the other. */
  ghost predicate Batched(t: Terms, v: PoolView, txs: seq<Tx>, local: bool, wellFormed: Tx -> bool,
                          offers: seq<Offering>, views: seq<PoolView>)
  {
    && |offers| == |txs| && |views| == |txs| + 1 && views[0] == v
    && forall i {:trigger offers[i]} :: 0 <= i < |txs| ==>
         Offered(t, views[i], offers[i], views[i + 1]) && Asked(offers[i], txs[i], local, wellFormed)
  }

  predicate Asked(o: Offering, tx: Tx, local: bool, wellFormed: Tx -> bool) {
    o.tx == tx && o.local == local && o.wellFormed == wellFormed(tx)
  }

  /** The senders of new transactions. */
  ghost function Newcomers(offers: seq<Offering>): (s: set<Address>) {
    set i | 0 <= i < |offers| && offers[i].result.Added? && !offers[i].result.replaced :: offers[i].tx.from
  }

  lemma NewcomersNext(offers: seq<Offering>, o: Offering)
    ensures Newcomers(offers + [o]) == Newcomers(offers) + if o.result.Added? && !o.result.replaced then {o.tx.from} else {}
  {
    var all := offers + [o];
    forall a ensures a in Newcomers(all) <==> a in Newcomers(offers) || (o.result.Added? && !o.result.replaced && a == o.tx.from) {
      if a in Newcomers(all) {
        var i :| 0 <= i < |all| && all[i].result.Added? && !all[i].result.replaced && all[i].tx.from == a;
        assert i < |offers| ==> all[i] == offers[i];
      }
      if a in Newcomers(offers) {
        var i :| 0 <= i < |offers| && offers[i].result.Added? && !offers[i].result.replaced && offers[i].tx.from == a;
        assert all[i] == offers[i];
      }
      assert all[|offers|] == o;
    }
  }

  lemma BatchedNext(t: Terms, v: PoolView, txs: seq<Tx>, i: nat, local: bool, wellFormed: Tx -> bool,
                    offers: seq<Offering>, views: seq<PoolView>, o: Offering, w: PoolView)
    requires i < |txs| && Batched(t, v, txs[..i], local, wellFormed, offers, views)
    requires Offered(t, views[i], o, w) && Asked(o, txs[i], local, wellFormed)
    ensures Batched(t, v, txs[..i + 1], local, wellFormed, offers + [o], views + [w])
  {
    var more, all := offers + [o], views + [w];
    forall k | 0 <= k < i + 1 ensures Offered(t, all[k], more[k], all[k + 1]) && Asked(more[k], txs[..i + 1][k], local, wellFormed) {
      assert k < i ==> more[k] == offers[k] && all[k] == views[k] && all[k + 1] == views[k + 1] && txs[..i][k] == txs[k];
    }
  }

  lemma {:induction false} BatchWithin(t: Terms, v: PoolView, txs: seq<Tx>, local: bool, wellFormed: Tx -> bool,
                                       offers: seq<Offering>, views: seq<PoolView>, i: nat)
    requires Inv(v) && Batched(t, v, txs, local, wellFormed, offers, views) && i <= |txs|
    ensures Inv(views[i]) && views[i].all <= v.all + SetOf(txs[..i]) && |views[i].all| <= |v.all| + i
  {
    if i > 0 {
      var k := i - 1;
      BatchWithin(t, v, txs, local, wellFormed, offers, views, k);
      assert offers[k].tx == txs[k];
      OfferKeeps(t, views[k], offers[k], views[k + 1], txs[k]);
      SetOfNext(txs, k);
      OneMore(views[k + 1].all, views[k].all, v.all, SetOf(txs[..k]), txs[k]);
    }
  }

  lemma OneMore(w: set<Tx>, u: set<Tx>, v: set<Tx>, s: set<Tx>, tx: Tx)
    requires w <= u + {tx} && u <= v + s
    ensures w <= v + (s + {tx}) && |w| <= |u| + 1
  {
    SizeWithin(w, u + {tx});
  }

  lemma SizeWithin(s: set<Tx>, t: set<Tx>)
    requires s <= t
    ensures |s| <= |t|
  {
    assert t == s + (t - s);
  }

  /** It left to make room, or was refused for lack of it. */
  ghost predicate MadeRoom(offers: seq<Offering>, x: Tx) {
    exists i :: 0 <= i < |offers| && (x in offers[i].out || (offers[i].tx == x && offers[i].result.Underpriced?))
  }

  /** What is in the pool at some point of a batch is there at its end. */
  lemma {:induction false} BatchKeeps(t: Terms, v: PoolView, txs: seq<Tx>, local: bool, wellFormed: Tx -> bool,
                                      offers: seq<Offering>, views: seq<PoolView>, i: nat, x: Tx)
    requires Inv(v) && Batched(t, v, txs, local, wellFormed, offers, views) && i <= |txs| && x in views[i].all
    ensures x in views[|txs|].all || MadeRoom(offers, x) || Rivalled(v.all + SetOf(txs), x)
    decreases |txs| - i
  {
    if i < |txs| {
      BatchWithin(t, v, txs, local, wellFormed, offers, views, i);
      OfferKeeps(t, views[i], offers[i], views[i + 1], x);
      if x in views[i + 1].all {
        BatchKeeps(t, v, txs, local, wellFormed, offers, views, i + 1, x);
      } else {
        assert txs[i] in SetOf(txs);
      }
    }
  }

  /** What was in the pool, or is offered and passes the checks, is in it after the batch, unless
      it made room or another has its sender and nonce. */
  lemma BatchKept(t: Terms, v: PoolView, txs: seq<Tx>, local: bool, wellFormed: Tx -> bool,
                  offers: seq<Offering>, views: seq<PoolView>, x: Tx)
    requires Inv(v) && Batched(t, v, txs, local, wellFormed, offers, views)
    requires x in v.all || (x in txs && wellFormed(x) && Admits(t, x))
    ensures x in views[|txs|].all || MadeRoom(offers, x) || Rivalled(v.all + SetOf(txs), x)
  {
    if x in v.all {
      BatchKeeps(t, v, txs, local, wellFormed, offers, views, 0, x);
    } else {
      var i :| 0 <= i < |txs| && txs[i] == x;
      BatchWithin(t, v, txs, local, wellFormed, offers, views, i);
      OfferKeeps(t, views[i], offers[i], views[i + 1], x);
      if x in views[i + 1].all {
        BatchKeeps(t, v, txs, local, wellFormed, offers, views, i + 1, x);
      } else if Rivalled(views[i].all, x) {
        SetOfPrefix(txs, i);
        var y :| y in views[i].all && y != x && SameSlot(x, y);
        assert y in v.all + SetOf(txs);
      }
    }
  }

  lemma SetOfPrefix(txs: seq<Tx>, i: nat)
    requires i <= |txs|
    ensures SetOf(txs[..i]) <= SetOf(txs)
  {
    assert forall x :: x in txs[..i] ==> x in txs;
  }

  // ------------------------------------------------------- promotion, demotion

  /** What a promotion of some accounts does to the pool: each is promoted, then the pending
      slots are shared fairly and the queue is trimmed. */
  ghost predicate Promoted(t: Terms, locals: set<Address>, beats: map<Address, int>, v: PoolView, mid: PoolView, w: PoolView,
                           accounts: set<Address>, level: nat)
  {
    && Inv(mid) && Inv(w) && EachAccount(v, mid, accounts, Promotions(v, t.state, t.maxGas))
    && FairShare(mid.pending, w.pending, locals, t.config.accountSlots, t.config.globalSlots, level)
    && Trimmed(mid.queue, w.queue, locals, beats, t.config.globalQueue)
  }

  /** Neither too old nor unpayable. */
  predicate Lasting(t: Terms, x: Tx) {
    t.state.Nonce(x.from) <= x.nonce && x.cost <= t.state.Balance(x.from) && x.gas <= t.maxGas
  }

  /** A promotion of each account takes away what is too old or unpayable, and nothing else; an
      account that is promoted has no queue afterwards. */
  lemma PromotedKeepsTx(t: Terms, v: PoolView, mid: PoolView, accounts: set<Address>, x: Tx)
    requires Inv(v) && Inv(mid) && EachAccount(v, mid, accounts, Promotions(v, t.state, t.maxGas)) && x in v.all && Lasting(t, x)
    ensures x in mid.all
    ensures x.from in accounts || x.from !in v.queue ==> InList(At(mid.pending, x.from), x)
  {
    var a, p, q := x.from, At(v.pending, x.from), At(v.queue, x.from);
    assert AccountOk(v, a) && AccountOk(mid, a);
    assert SameAccount(mid, if a in accounts then Promotions(v, t.state, t.maxGas)(a) else v, a);
    if a in accounts {
      var good := Drop(Current(q, t.state.Nonce(a)), Unpayable(t.state.Balance(a), t.maxGas));
      UpdateAt(v, a, p + good, map[], v.all - Spent(q, t.state.Nonce(a), t.state.Balance(a), t.maxGas));
      InCurrent(q, t.state.Nonce(a), x);
      InDropped(Current(q, t.state.Nonce(a)), Unpayable(t.state.Balance(a), t.maxGas), x);
      InEither(p, good, x);
    }
  }

  lemma DemotedKeepsTx(t: Terms, v: PoolView, w: PoolView, x: Tx)
    requires Inv(v) && Inv(w) && EachAccount(v, w, v.pending.Keys, Demotions(v, t.state, t.maxGas)) && x in v.all && Lasting(t, x)
    ensures x in w.all
  {
    var a := x.from;
    assert AccountOk(w, a);
    assert SameAccount(w, if a in v.pending.Keys then Demotions(v, t.state, t.maxGas)(a) else v, a);
    if a in v.pending {
      DemotedHolds(v, a, t.state.Nonce(a), t.state.Balance(a), t.maxGas, x);
    } else {
      assert AccountOk(v, a);
    }
  }

  lemma DemotedHolds(v: PoolView, a: Address, n: Uint64, b: nat, gas: Uint64, x: Tx)
    requires Inv(v) && x in v.all && x.from == a && n <= x.nonce && x.cost <= b && x.gas <= gas
    ensures var u := DemotedAccount(v, a, n, b, gas); InList(At(u.pending, a), x) || InList(At(u.queue, a), x)
  {
    var p, q, over := At(v.pending, a), At(v.queue, a), Unpayable(b, gas);
    assert AccountOk(v, a) && !over(x);
    UpdateAt(v, a, Grounded(Current(p, n), over), q + Stranded(Current(p, n), over), v.all - Spent(p, n, b, gas));
    InSpent(p, n, b, gas, x);
    DemotedMember(a, p, q, v.all, n, b, gas, x);
  }

  /** The sharing of the slots or the trimming of the queue took it. */
  predicate CutOff(mid: PoolView, w: PoolView, x: Tx) { x in mid.all && x !in w.all }

  /** What the passes leave is where it was. */
  lemma StaysPending(t: Terms, locals: set<Address>, beats: map<Address, int>, v: PoolView, mid: PoolView, w: PoolView,
                     accounts: set<Address>, level: nat, x: Tx)
    requires Promoted(t, locals, beats, v, mid, w, accounts, level) && InList(At(mid.pending, x.from), x) && !CutOff(mid, w, x)
    ensures InList(At(w.pending, x.from), x)
  {
    var a := x.from;
    assert AccountOk(mid, a) && AccountOk(w, a);
    assert a in w.queue ==> LowPart(w.queue[a], mid.queue[a]);
  }

  // ----------------------------------------------------------- a new chain head

  /** The values of a promotion in between. */
  datatype Pass = Pass(mid: PoolView, level: nat, beats: map<Address, int>)

  /** A move to a new chain head: the offers with the pool before and after each, the pool once
      their senders are promoted, the pool once all pending accounts are demoted, and the
      promotion of what is queued then. */
  datatype Course = Course(offers: seq<Offering>, views: seq<PoolView>, first: Pass, added: PoolView, demoted: PoolView, last: Pass)

  ghost predicate Rebased(t: Terms, locals: set<Address>, v: PoolView, txs: seq<Tx>, wellFormed: Tx -> bool, c: Course, w: PoolView) {
    && Batched(t, v, txs, false, wellFormed, c.offers, c.views) && Inv(c.added) && Inv(c.demoted)
    && (if Newcomers(c.offers) == {} then c.added == c.views[|txs|]
        else Promoted(t, locals, c.first.beats, c.views[|txs|], c.first.mid, c.added, Newcomers(c.offers), c.first.level))
    && EachAccount(c.added, c.demoted, c.added.pending.Keys, Demotions(c.added, t.state, t.maxGas))
    && Promoted(t, locals, c.last.beats, c.demoted, c.last.mid, w, c.demoted.queue.Keys, c.last.level)
  }

  /** The transactions that a move to a new head should keep: those of the pool that are neither
      too old nor unpayable, and those of abandoned blocks that pass all checks. */
  predicate Worthy(t: Terms, v: PoolView, txs: seq<Tx>, wellFormed: Tx -> bool, x: Tx) {
    (x in v.all && Lasting(t, x)) || (x in txs && wellFormed(x) && Admits(t, x))
  }

  /** Such a transaction is pending afterwards, unless it made room, or another has its sender and
      nonce, or one of the two passes cut it off. */
  lemma Survives(t: Terms, locals: set<Address>, v: PoolView, txs: seq<Tx>, wellFormed: Tx -> bool, c: Course, w: PoolView, x: Tx)
    requires Inv(v) && Rebased(t, locals, v, txs, wellFormed, c, w) && Worthy(t, v, txs, wellFormed, x)
    ensures || InList(At(w.pending, x.from), x)
            || MadeRoom(c.offers, x)
            || Rivalled(v.all + SetOf(txs), x)
            || (Newcomers(c.offers) != {} && CutOff(c.first.mid, c.added, x))
            || CutOff(c.last.mid, w, x)
  {
    BatchKept(t, v, txs, false, wellFormed, c.offers, c.views, x);
    BatchWithin(t, v, txs, false, wellFormed, c.offers, c.views, |txs|);
    var offered := c.views[|txs|];
    if x in offered.all {
      if Newcomers(c.offers) != {} {
        PromotedKeepsTx(t, offered, c.first.mid, Newcomers(c.offers), x);
      }
      if x in c.added.all {
        DemotedKeepsTx(t, c.added, c.demoted, x);
        PromotedKeepsTx(t, c.demoted, c.last.mid, c.demoted.queue.Keys, x);
        if !CutOff(c.last.mid, w, x) {
          StaysPending(t, locals, c.last.beats, c.demoted, c.last.mid, w, c.demoted.queue.Keys, c.last.level, x);
        }
      }
    }
  }

  // ----------------------------------------------------------- below the limits

  lemma {:induction false} TxsOfSize(m: TxMap)
    requires WellKeyed(m)
    ensures |TxsOf(m)| == |m|
    decreases |m|
  {
    if m != map[] {
      var n :| n in m;
      var rest := m - {n};
      TxsOfSize(rest);
      TxsOfWith(rest, m[n]);
      assert WithTx(rest, m[n]) == m;
      assert m[n] !in TxsOf(rest);
    }
  }

  /** The lists of a book are in the lookup. */
  ghost predicate Covers(all: set<Tx>, b: Book) {
    forall a :: a in b ==> OwnList(a, b[a]) && TxsOf(b[a]) <= all
  }

  /** A book has no more transactions than the lookup. */
  lemma {:induction false} BookSize(b: Book, all: set<Tx>)
    requires Covers(all, b)
    ensures Sum(Sizes(b)) <= |all|
    decreases |b|
  {
    if b != map[] {
      var a :| a in b;
      SizesSplit(b, a);
      OthersCovered(b, all, a);
      BookSize(b - {a}, all - TxsOf(b[a]));
    }
  }

  lemma OthersCovered(b: Book, all: set<Tx>, a: Address)
    requires Covers(all, b) && a in b
    ensures Covers(all - TxsOf(b[a]), b - {a}) && |all| == |b[a]| + |all - TxsOf(b[a])|
  {
    TxsOfSize(b[a]);
    assert all == TxsOf(b[a]) + (all - TxsOf(b[a]));
  }

  lemma InvCovers(v: PoolView)
    requires Inv(v)
    ensures Covers(v.all, v.pending) && Covers(v.all, v.queue)
  {
    forall a | a in v.pending ensures OwnList(a, v.pending[a]) && TxsOf(v.pending[a]) <= v.all {
      assert AccountOk(v, a);
    }
    forall a | a in v.queue ensures OwnList(a, v.queue[a]) && TxsOf(v.queue[a]) <= v.all {
      assert AccountOk(v, a);
    }
  }

  /** A book that fits is not cut. */
  lemma ShareFits(orig: Book, cur: Book, locals: set<Address>, slots: nat, limit: nat, level: nat)
    requires FairShare(orig, cur, locals, slots, limit, level) && Sum(Sizes(orig)) <= limit
    ensures cur == orig
  {
    SumMonotone(Shares(orig, locals, level + 1), Sizes(orig));
  }

  /** So many transactions fit into the pending lists, and into the queue. */
  predicate Fits(c: Config, n: nat) { n <= c.globalSlots && n <= c.globalQueue }

  /** A pool below its limits loses nothing to the two passes. */
  lemma NothingCut(t: Terms, locals: set<Address>, beats: map<Address, int>, v: PoolView, mid: PoolView, w: PoolView,
                   accounts: set<Address>, level: nat, x: Tx)
    requires Promoted(t, locals, beats, v, mid, w, accounts, level) && Fits(t.config, |mid.all|)
    ensures !CutOff(mid, w, x)
  {
    InvCovers(mid);
    BookSize(mid.pending, mid.all);
    BookSize(mid.queue, mid.all);
    ShareFits(mid.pending, w.pending, locals, t.config.accountSlots, t.config.globalSlots, level);
    assert AccountOk(mid, x.from) && AccountOk(w, x.from);
  }

  /** With room for all that was there and all that is offered, nobody has to go. */
  lemma NobodyMakesRoom(t: Terms, v: PoolView, txs: seq<Tx>, local: bool, wellFormed: Tx -> bool,
                        offers: seq<Offering>, views: seq<PoolView>, x: Tx)
    requires Inv(v) && Batched(t, v, txs, local, wellFormed, offers, views) && Fits(t.config, |v.all| + |txs|)
    ensures !MadeRoom(offers, x)
  {
    forall i | 0 <= i < |offers| ensures x !in offers[i].out && !offers[i].result.Underpriced? {
      BatchWithin(t, v, txs, local, wellFormed, offers, views, i);
      OfferKeeps(t, views[i], offers[i], views[i + 1], x);
    }
  }

  /** As long as the pool is below its limits none of them is lost: it is pending, unless another
      has its sender and nonce. */
  lemma NoneLost(t: Terms, locals: set<Address>, v: PoolView, txs: seq<Tx>, wellFormed: Tx -> bool, c: Course, w: PoolView, x: Tx)
    requires Inv(v) && Rebased(t, locals, v, txs, wellFormed, c, w) && Worthy(t, v, txs, wellFormed, x)
    requires Fits(t.config, |v.all| + |txs|)
    ensures InList(At(w.pending, x.from), x) || Rivalled(v.all + SetOf(txs), x)
  {
    Survives(t, locals, v, txs, wellFormed, c, w, x);
    NobodyMakesRoom(t, v, txs, false, wellFormed, c.offers, c.views, x);
    CourseShrinks(t, locals, v, txs, wellFormed, c, w);
    if Newcomers(c.offers) != {} {
      NothingCut(t, locals, c.first.beats, c.views[|txs|], c.first.mid, c.added, Newcomers(c.offers), c.first.level, x);
    }
    NothingCut(t, locals, c.last.beats, c.demoted, c.last.mid, w, c.demoted.queue.Keys, c.last.level, x);
  }

  /** After the offers the pool only gets smaller. */
  lemma CourseShrinks(t: Terms, locals: set<Address>, v: PoolView, txs: seq<Tx>, wellFormed: Tx -> bool, c: Course, w: PoolView)
    requires Inv(v) && Rebased(t, locals, v, txs, wellFormed, c, w)
    ensures |c.last.mid.all| <= |v.all| + |txs| && (Newcomers(c.offers) != {} ==> |c.first.mid.all| <= |v.all| + |txs|)
  {
    var offered := c.views[|txs|];
    BatchWithin(t, v, txs, false, wellFormed, c.offers, c.views, |txs|);
    if Newcomers(c.offers) != {} {
      PromotionsWithin(offered, c.first.mid, Newcomers(c.offers), t.state, t.maxGas);
      PassShrinks(t, locals, c.first.beats, offered, c.first.mid, c.added, Newcomers(c.offers), c.first.level);
      SizeWithin(c.first.mid.all, offered.all);
    }
    DemotionsWithin(c.added, c.demoted, c.added.pending.Keys, t.state, t.maxGas);
    PromotionsWithin(c.demoted, c.last.mid, c.demoted.queue.Keys, t.state, t.maxGas);
    SizeWithin(c.last.mid.all, offered.all);
  }

  lemma PassShrinks(t: Terms, locals: set<Address>, beats: map<Address, int>, v: PoolView, mid: PoolView, w: PoolView,
                    accounts: set<Address>, level: nat)
    requires Promoted(t, locals, beats, v, mid, w, accounts, level)
    ensures w.all <= mid.all
  {
    PartsWithin(mid, w);
  }
}
