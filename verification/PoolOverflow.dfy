/** The pending-overflow and queue-overflow passes that end a promotion. */
module PoolOverflow {
  import opened Transactions
  import opened PoolViews
  import opened TxPools
  import opened AccountBooks
  import opened Sums
  import opened WaterLevels

  method Count(book: AccountBook) returns (n: nat)
    requires book.Valid()
    ensures n == Sum(Sizes(book.view))
  {
    n := 0;
    var todo := book.Accounts();
    ghost var done: map<Address, nat> := map[];
    while todo != {}
      invariant todo <= book.view.Keys && n == Sum(done)
      invariant done == map a | a in book.view && a !in todo :: |book.view[a]|
      decreases todo
    {
      var a :| a in todo;
      n := n + book.Len(a);
      SumSplit(done[a := |book.view[a]|], a);
      assert done[a := |book.view[a]|] - {a} == done;
      todo, done := todo - {a}, done[a := |book.view[a]|];
    }
    assert done == Sizes(book.view);
  }

  /** Drops one transaction from each of the given accounts. */
  method Round(pool: TxPool, offs: seq<Address>, pending: nat) returns (left: nat)
    requires pool.Valid() && pending == Sum(Sizes(pool.pending.view))
    requires forall i, j :: 0 <= i < j < |offs| ==> offs[i] != offs[j]
    requires forall a :: a in offs ==> a in pool.pending.view && |pool.pending.view[a]| >= 2
    modifies pool.all, pool.priced, pool.pending
    ensures pool.Valid()
    ensures Cut(old(pool.pending.view), pool.pending.view, offs)
    ensures left == Sum(Sizes(pool.pending.view)) && left <= pending
  {
    left := pending;
    for i := 0 to |offs|
      invariant pool.Valid()
      invariant Cut(old(pool.pending.view), pool.pending.view, offs[..i])
      invariant left == Sum(Sizes(pool.pending.view)) <= pending
    {
      StillUncut(old(pool.pending.view), pool.pending.view, offs, i);
      left := CutOne(pool, offs, i, left, old(pool.pending.view));
    }
    assert offs[..|offs|] == offs;
  }

  lemma StillUncut(first: Book, cur: Book, offs: seq<Address>, i: nat)
    requires i < |offs| && offs[i] in first && forall j :: 0 <= j < i ==> offs[j] != offs[i]
    requires Cut(first, cur, offs[..i])
    ensures offs[i] in cur && |cur[offs[i]]| == |first[offs[i]]|
  {
    assert offs[i] !in offs[..i];
  }

  /** Drops one transaction of the next account. */
  method CutOne(pool: TxPool, offs: seq<Address>, i: nat, pending: nat, ghost first: Book) returns (left: nat)
    requires pool.Valid() && pending == Sum(Sizes(pool.pending.view))
    requires i < |offs| && forall j :: 0 <= j < i ==> offs[j] != offs[i]
    requires Cut(first, pool.pending.view, offs[..i]) && offs[i] in pool.pending.view && |pool.pending.view[offs[i]]| >= 2
    modifies pool.all, pool.priced, pool.pending
    ensures pool.Valid() && Cut(first, pool.pending.view, offs[..i + 1])
    ensures left == Sum(Sizes(pool.pending.view)) <= pending
  {
    ghost var was := pool.pending.view;
    pool.DropLast(offs[i]);
    CutNext(first, was, pool.pending.view, offs, i);
    SizeChange(was, offs[i], pool.pending.view[offs[i]]);
    left := pending - 1;
  }

  /** The account with the longest pending list. */
  method Largest(pool: TxPool, spammers: set<Address>) returns (a: Address)
    requires pool.pending.Valid() && spammers != {} && spammers <= pool.pending.view.Keys
    ensures a in spammers && forall b :: b in spammers ==> |pool.pending.view[b]| <= |pool.pending.view[a]|
  {
    a :| a in spammers;
    var todo := spammers - {a};
    while todo != {}
      invariant todo <= spammers && a in spammers
      invariant forall b :: b in spammers - todo ==> |pool.pending.view[b]| <= |pool.pending.view[a]|
      decreases todo
    {
      var b :| b in todo;
      todo := todo - {b};
      if pool.pending.Len(b) > pool.pending.Len(a) {
        a := b;
      }
    }
  }

  /** The accounts that are not local and have more than their guaranteed slots. */
  method Spammers(pool: TxPool) returns (spam: set<Address>)
    requires pool.pending.Valid()
    ensures forall a :: a in spam <==>
              a in pool.pending.view && a !in pool.locals && pool.config.accountSlots < |pool.pending.view[a]|
  {
    spam := {};
    var todo := pool.pending.Accounts();
    while todo != {}
      invariant todo <= pool.pending.view.Keys
      invariant forall a :: a in spam <==>
                  a in pool.pending.view && a !in todo && a !in pool.locals && pool.config.accountSlots < |pool.pending.view[a]|
      decreases todo
    {
      var a :| a in todo;
      todo := todo - {a};
      if a !in pool.locals && pool.pending.Len(a) > pool.config.accountSlots {
        spam := spam + {a};
      }
    }
  }

  /** The equalizer at work: the counter is the true number of pending transactions
      and the offenders share the level. */
  ghost predicate Sharing(pool: TxPool, pending: nat, orig: Book, offs: seq<Address>, spam: set<Address>, level: nat)
    reads pool, pool.all, pool.priced, pool.pending, pool.queue
  {
    && pool.Valid() && pending == Sum(Sizes(pool.pending.view))
    && Filling(orig, pool.pending.view, pool.locals, pool.config.accountSlots, pool.config.globalSlots, offs, spam, level)
  }

  lemma SharingFacts(pool: TxPool, pending: nat, orig: Book, offs: seq<Address>, spam: set<Address>, level: nat)
    requires Sharing(pool, pending, orig, offs, spam, level)
    ensures forall a :: a in offs ==> a in pool.pending.view
    ensures pending > pool.config.globalSlots ==> forall a :: a in offs ==> |At(pool.pending.view, a)| == level
    ensures forall a :: a in spam ==> a in pool.pending.view
    ensures forall a :: a in spam ==> pool.config.accountSlots < |At(pool.pending.view, a)| == |At(orig, a)| <= level
  {
    FillingFacts(orig, pool.pending.view, pool.locals, pool.config.accountSlots, pool.config.globalSlots, offs, spam, level);
  }

  /** An account has as many transactions as the level says, unless the pool fits. */
  ghost predicate ShowsLevel(pool: TxPool, a: Address, pending: nat, level: nat)
    reads pool, pool.pending
  {
    a in pool.pending.view && (pending > pool.config.globalSlots ==> |pool.pending.view[a]| == level)
  }

  lemma LastAtLevel(pool: TxPool, pending: nat, orig: Book, offs: seq<Address>, spam: set<Address>, level: nat)
    requires Sharing(pool, pending, orig, offs, spam, level) && offs != []
    ensures ShowsLevel(pool, offs[|offs| - 1], pending, level)
  {
    SharingFacts(pool, pending, orig, offs, spam, level);
  }

  /** None of these accounts has more than n transactions. */
  ghost predicate Within(orig: Book, spam: set<Address>, n: nat) {
    forall a :: a in spam ==> |At(orig, a)| <= n
  }

  /** One fair round lowers the level by one, and the last offender shows it. */
  method FairRound(pool: TxPool, offs: seq<Address>, pending: nat, ghost orig: Book, ghost spam: set<Address>,
                   ghost threshold: nat, ghost level: nat)
    returns (left: nat)
    requires Sharing(pool, pending, orig, offs, spam, level) && offs != []
    requires pending > pool.config.globalSlots && pool.config.accountSlots <= threshold < level
    requires Within(orig, spam, threshold)
    modifies pool.all, pool.priced, pool.pending
    ensures Sharing(pool, left, orig, offs, spam, level - 1) && ShowsLevel(pool, offs[|offs| - 1], left, level - 1)
  {
    FillingFacts(orig, pool.pending.view, pool.locals, pool.config.accountSlots, pool.config.globalSlots, offs, spam, level);
    left := Round(pool, offs, pending);
    FillingRound(orig, old(pool.pending.view), pool.pending.view, pool.locals, pool.config.accountSlots,
                 pool.config.globalSlots, offs, spam, level);
  }

  /** Cuts the offenders round by round until the pool fits or they are down to the
      threshold. */
  method CutTo(pool: TxPool, offs: seq<Address>, threshold: nat, pending: nat,
               ghost orig: Book, ghost spam: set<Address>, ghost level0: nat) returns (left: nat, ghost level: nat)
    requires Sharing(pool, pending, orig, offs, spam, level0) && offs != []
    requires pool.config.accountSlots <= threshold && Within(orig, spam, threshold)
    modifies pool.all, pool.priced, pool.pending
    ensures Sharing(pool, left, orig, offs, spam, level)
    ensures left <= pool.config.globalSlots || level <= threshold
  {
    left, level := pending, level0;
    var last := offs[|offs| - 1];
    LastAtLevel(pool, left, orig, offs, spam, level);
    while left > pool.config.globalSlots && pool.pending.Len(last) > threshold
      invariant Sharing(pool, left, orig, offs, spam, level) && ShowsLevel(pool, last, left, level)
      decreases level
    {
      left := FairRound(pool, offs, left, orig, spam, threshold, level);
      level := level - 1;
    }
  }

  /** The first offender: the largest account sets the level. */
  lemma FirstJoins(pool: TxPool, pending: nat, orig: Book, spam: set<Address>, level: nat, a: Address)
    requires Sharing(pool, pending, orig, [], spam, level) && a in spam
    requires forall b :: b in spam ==> |At(orig, b)| <= |At(orig, a)|
    ensures a in orig && Sharing(pool, pending, orig, [a], spam - {a}, |orig[a]|)
  {
    FillingFacts(orig, pool.pending.view, pool.locals, pool.config.accountSlots, pool.config.globalSlots, [], spam, level);
    FillingFirst(orig, pool.locals, pool.config.accountSlots, pool.config.globalSlots, spam, level, a);
  }

  /** A later one, once the others are down to its length or the pool fits. */
  lemma LaterJoins(pool: TxPool, pending: nat, orig: Book, offs: seq<Address>, spam: set<Address>, level: nat, a: Address)
    requires Sharing(pool, pending, orig, offs, spam, level) && offs != [] && a in spam
    requires pending <= pool.config.globalSlots || level <= |At(orig, a)|
    ensures Sharing(pool, pending, orig, offs + [a], spam - {a}, level)
  {
    SharingFacts(pool, pending, orig, offs, spam, level);
    FillingJoin(orig, pool.pending.view, pool.locals, pool.config.accountSlots, pool.config.globalSlots, offs, spam, level, a);
  }

  /** Takes the largest remaining account among the offenders, after cutting those
      before it down to its length. */
  method NextOffender(pool: TxPool, offs: seq<Address>, spam: set<Address>, pending: nat, ghost orig: Book, ghost level0: nat)
    returns (a: Address, left: nat, ghost level: nat)
    requires Sharing(pool, pending, orig, offs, spam, level0) && spam != {}
    modifies pool.all, pool.priced, pool.pending
    ensures a in spam && Sharing(pool, left, orig, offs + [a], spam - {a}, level)
  {
    SharingFacts(pool, pending, orig, offs, spam, level0);
    a := Largest(pool, spam);
    left := pending;
    if |offs| > 0 {
      left, level := CutTo(pool, offs, pool.pending.Len(a), pending, orig, spam, level0);
      LaterJoins(pool, left, orig, offs, spam, level, a);
    } else {
      FirstJoins(pool, pending, orig, spam, level0, a);
      assert offs == [] && [] + [a] == [a];
      level := |orig[a]|;
    }
  }

  method EqualizePending(pool: TxPool) returns (ghost level: nat)
    requires pool.Valid()
    modifies pool.all, pool.priced, pool.pending
    ensures pool.Valid()
    ensures FairShare(old(pool.pending.view), pool.pending.view, pool.locals,
                      pool.config.accountSlots, pool.config.globalSlots, level)
  {
    var pending: nat := Count(pool.pending);
    var spam := Spammers(pool);
    level := TopLevel(pool.pending.view, pool.config.accountSlots);
    FillingStart(pool.pending.view, pool.locals, pool.config.accountSlots, pool.config.globalSlots, spam, level);
    var offs;
    pending, offs, spam, level := GatherOffenders(pool, pending, spam, pool.pending.view, level);
    if pending > pool.config.globalSlots && |offs| > 0 {
      pending, level := CutTo(pool, offs, pool.config.accountSlots, pending, old(pool.pending.view), spam, level);
    }
    FillingDone(old(pool.pending.view), pool.pending.view, pool.locals, pool.config.accountSlots,
                pool.config.globalSlots, offs, spam, level);
  }

  method GatherOffenders(pool: TxPool, pending: nat, spam: set<Address>, ghost orig: Book, ghost level0: nat)
    returns (left: nat, offs: seq<Address>, rest: set<Address>, ghost level: nat)
    requires Sharing(pool, pending, orig, [], spam, level0)
    modifies pool.all, pool.priced, pool.pending
    ensures Sharing(pool, left, orig, offs, rest, level)
    ensures left <= pool.config.globalSlots || rest == {}
  {
    left, offs, rest, level := pending, [], spam, level0;
    while left > pool.config.globalSlots && rest != {}
      invariant Sharing(pool, left, orig, offs, rest, level)
      decreases rest
    {
      var a;
      a, left, level := NextOffender(pool, offs, rest, left, orig, level);
      offs, rest := offs + [a], rest - {a};
    }
  }

  /** Removes a queued transaction. */
  method RemoveOne(pool: TxPool, a: Address, tx: Tx)
    requires pool.Valid() && a in pool.queue.view && tx in TxsOf(pool.queue.view[a])
    modifies pool`beats, pool.all, pool.priced, pool.pending, pool.queue
    ensures pool.Valid() && pool.pending.view == old(pool.pending.view) && pool.beats == old(pool.beats)
    ensures pool.queue.view == With(old(pool.queue.view), a, old(pool.queue.view)[a] - {tx.nonce})
    ensures tx.nonce in old(pool.queue.view)[a]
  {
    assert UnfoldPool(0);
    assert AccountOk(pool.View(), a);
    AboutWith(pool.pending.view, a, At(pool.pending.view, a));
    pool.RemoveTx(tx, true, pool.all.all);
  }

  /** Removes the whole queue of an account. */
  method DropWhole(pool: TxPool, a: Address)
    requires pool.Valid() && a in pool.queue.view
    modifies pool`beats, pool.all, pool.priced, pool.pending, pool.queue
    ensures pool.Valid() && pool.pending.view == old(pool.pending.view) && pool.beats == old(pool.beats)
    ensures pool.queue.view == old(pool.queue.view) - {a}
  {
    ghost var b := pool.queue.view;
    ghost var q := b[a];
    var txs := pool.FlattenQueued(a);
    ListsEnumerates(txs, q);
    EnumeratesMapOf(txs, q);
    PoolTidy(pool);
    AboutWith(b, a, q);
    assert q - MapOf(txs[..0]).Keys == q;
    for i := 0 to |txs|
      invariant pool.Valid() && pool.pending.view == old(pool.pending.view) && pool.beats == old(pool.beats)
      invariant pool.queue.view == With(b, a, q - MapOf(txs[..i]).Keys)
    {
      DropNext(pool, a, b, q, txs, i);
    }
    assert txs[..|txs|] == txs && q - q.Keys == map[];
  }

  /** Removes one more transaction of a queue. */
  method DropNext(pool: TxPool, a: Address, ghost b: Book, ghost q: TxMap, txs: seq<Tx>, i: nat)
    requires pool.Valid() && Enumerates(txs, q) && i < |txs| && pool.queue.view == With(b, a, q - MapOf(txs[..i]).Keys)
    modifies pool`beats, pool.all, pool.priced, pool.pending, pool.queue
    ensures pool.Valid() && pool.pending.view == old(pool.pending.view) && pool.beats == old(pool.beats)
    ensures pool.queue.view == With(b, a, q - MapOf(txs[..i + 1]).Keys)
  {
    EnumeratesNext(txs, q, i);
    WithAgain(b, a, q - MapOf(txs[..i]).Keys, txs[i]);
    RemoveOne(pool, a, txs[i]);
    assert q - MapOf(txs[..i]).Keys - {txs[i].nonce} == q - MapOf(txs[..i + 1]).Keys;
  }

  lemma WithAgain(b: Book, a: Address, m: TxMap, tx: Tx)
    requires InList(m, tx)
    ensures var w := With(b, a, m);
            && a in w && w[a] == m && tx in TxsOf(w[a])
            && With(w, a, w[a] - {tx.nonce}) == With(b, a, m - {tx.nonce})
  {
    assert m[tx.nonce] in TxsOf(m);
    UpdateGone(b, a, m);
    UpdateTwice(b, a, m, m - {tx.nonce});
  }

  lemma PoolTidy(pool: TxPool)
    requires pool.Valid()
    ensures NoEmptyList(pool.pending.view) && NoEmptyList(pool.queue.view)
  {
    assert UnfoldPool(0);
  }

  /** Removes the `drop` highest nonces of a longer queue. */
  method DropTail(pool: TxPool, a: Address, drop: nat)
    requires pool.Valid() && a in pool.queue.view && drop < |pool.queue.view[a]|
    modifies pool`beats, pool.all, pool.priced, pool.pending, pool.queue
    ensures pool.Valid() && pool.pending.view == old(pool.pending.view) && pool.beats == old(pool.beats)
    ensures a in pool.queue.view && pool.queue.view == old(pool.queue.view)[a := pool.queue.view[a]]
    ensures LowPart(pool.queue.view[a], old(pool.queue.view)[a])
    ensures |pool.queue.view[a]| == |old(pool.queue.view)[a]| - drop
  {
    ghost var b := pool.queue.view;
    ghost var rest: TxMap := b[a];
    var txs := pool.FlattenQueued(a);
    ListsSize(txs, rest);
    var i := |txs|;
    assert txs[..i] == txs && b[a := rest] == b;
    while i > |txs| - drop
      invariant |txs| - drop <= i <= |txs|
      invariant pool.Valid() && pool.pending.view == old(pool.pending.view) && pool.beats == old(pool.beats)
      invariant Lists(txs[..i], rest) && LowPart(rest, b[a]) && pool.queue.view == b[a := rest] && |rest| == i
    {
      i := i - 1;
      assert txs[..i + 1][..i] == txs[..i] && txs[..i + 1][i] == txs[i];
      assert rest[txs[i].nonce] in TxsOf(rest);
      RemoveOne(pool, a, txs[i]);
      TailNext(b, a, rest, txs[i]);
      rest := rest - {txs[i].nonce};
      ListsSize(txs[..i], rest);
    }
  }

  lemma TailNext(b: Book, a: Address, rest: TxMap, tx: Tx)
    requires a in b && LowPart(rest, b[a]) && tx.nonce in rest && Highest(rest, tx.nonce) && |rest| >= 2
    ensures LowPart(rest - {tx.nonce}, b[a])
    ensures With(b[a := rest], a, rest - {tx.nonce}) == b[a := rest - {tx.nonce}]
  {
    assert rest.Keys == (rest - {tx.nonce}).Keys + {tx.nonce};
    UpdateTwice(b, a, rest, rest - {tx.nonce});
  }

  /** The account with the latest heartbeat. */
  method Latest(pool: TxPool, todo: set<Address>) returns (a: Address)
    requires todo != {}
    ensures a in todo && forall b :: b in todo ==> BeatOf(pool.beats, b) <= BeatOf(pool.beats, a)
  {
    a :| a in todo;
    var rest := todo - {a};
    var latest := if a in pool.beats then pool.beats[a] else 0;
    while rest != {}
      invariant rest <= todo && a in todo && latest == BeatOf(pool.beats, a)
      invariant forall b :: b in todo - rest ==> BeatOf(pool.beats, b) <= latest
      decreases rest
    {
      var b :| b in rest;
      rest := rest - {b};
      var beat := if b in pool.beats then pool.beats[b] else 0;
      if beat > latest {
        a, latest := b, beat;
      }
    }
  }

  /** Drops what is over the limit from the account that was active last: its whole queue,
      or the tail of it, which is then the end. */
  method TrimNext(pool: TxPool, todo: set<Address>, drop: nat, ghost orig: Book)
    returns (done: bool, rest: set<Address>, left: nat)
    requires pool.Valid() && todo != {} && drop > 0
    requires Trimming(orig, pool.queue.view, pool.locals, pool.beats, todo, pool.config.globalQueue, drop)
    modifies pool`beats, pool.all, pool.priced, pool.pending, pool.queue
    ensures pool.Valid() && pool.pending.view == old(pool.pending.view) && pool.beats == old(pool.beats)
    ensures done ==> Trimmed(orig, pool.queue.view, pool.locals, pool.beats, pool.config.globalQueue)
    ensures !done ==> rest < todo && Trimming(orig, pool.queue.view, pool.locals, pool.beats, rest, pool.config.globalQueue, left)
  {
    var a := Latest(pool, todo);
    var size := pool.queue.Len(a);
    ghost var cur := pool.queue.view;
    done, rest, left := drop < size, todo, drop;
    if done {
      DropTail(pool, a, drop);
      TrimTail(orig, cur, pool.queue.view, pool.locals, pool.beats, todo, pool.config.globalQueue, drop, a);
    } else {
      DropWhole(pool, a);
      TrimWhole(orig, cur, pool.locals, pool.beats, todo, pool.config.globalQueue, drop, a);
      rest, left := todo - {a}, drop - size;
    }
  }

  /** Drops queued transactions over the global limit, starting with the accounts
      that were active last. */
  method TrimQueue(pool: TxPool)
    requires pool.Valid()
    modifies pool`beats, pool.all, pool.priced, pool.pending, pool.queue
    ensures pool.Valid() && pool.pending.view == old(pool.pending.view) && pool.beats == old(pool.beats)
    ensures Trimmed(old(pool.queue.view), pool.queue.view, pool.locals, pool.beats, pool.config.globalQueue)
  {
    var queued: nat := Count(pool.queue);
    if queued <= pool.config.globalQueue {
      return;
    }
    var drop: nat := queued - pool.config.globalQueue;
    var todo := pool.queue.Accounts() - pool.locals;
    while drop > 0 && todo != {}
      invariant pool.Valid() && pool.pending.view == old(pool.pending.view) && pool.beats == old(pool.beats)
      invariant Trimming(old(pool.queue.view), pool.queue.view, pool.locals, pool.beats, todo, pool.config.globalQueue, drop)
      decreases todo
    {
      var done;
      done, todo, drop := TrimNext(pool, todo, drop, old(pool.queue.view));
      if done {
        return;
      }
    }
    TrimDone(old(pool.queue.view), pool.queue.view, pool.locals, pool.beats, todo, pool.config.globalQueue, drop);
  }
}
