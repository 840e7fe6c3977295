/** What happens to the pool from outside: offers, new chain heads, ticks of the eviction
    timer, changes of the price floor and removals, in any order. */
module PoolEvents {
  import opened Wrappers
  import opened Transactions
  import opened PoolViews
  import opened TxPriced
  import opened TxPools
  import opened WaterLevels
  import opened PoolCourses
  import opened PoolRuns
  import ChainTree

  const MAX_REORG := 64

  /** A block as the pool sees it; it stands for its own hash. */
  datatype PoolBlock = PoolBlock(parent: Option<PoolBlock>, number: nat, txs: seq<Tx>)

  predicate Counted(b: PoolBlock)
    decreases b
  {
    match b.parent
    case None => b.number == 0
    case Some(p) => b.number == p.number + 1 && Counted(p)
  }

  /** The ancestor of b with number n. */
  function Ancestor(b: PoolBlock, n: nat): (a: PoolBlock)
    decreases b
  {
    if b.number <= n || b.parent.None? then b else Ancestor(b.parent.value, n)
  }

  /** The transactions of b and its ancestors, down to the block above number n. */
  function TxsAbove(b: PoolBlock, n: nat): (s: seq<Tx>)
    decreases b
  {
    if b.number <= n then [] else b.txs + if b.parent.None? then [] else TxsAbove(b.parent.value, n)
  }

  /** The ancestors of b down to number n are stored. */
  predicate StoredTo(store: set<PoolBlock>, b: PoolBlock, n: nat)
    decreases b
  {
    b.number > n ==> b.parent.Some? && b.parent.value in store && StoredTo(store, b.parent.value, n)
  }

  lemma {:induction false} AncestorNumber(b: PoolBlock, n: nat)
    requires Counted(b) && n <= b.number
    ensures Ancestor(b, n).number == n && Counted(Ancestor(b, n))
    decreases b
  {
    if n < b.number {
      AncestorNumber(b.parent.value, n);
    }
  }

  /** One block further down. */
  lemma {:induction false} OneDown(store: set<PoolBlock>, b: PoolBlock, n: nat)
    requires Counted(b) && 0 < n <= b.number
    ensures Ancestor(b, n).parent.Some? && Ancestor(b, n - 1) == Ancestor(b, n).parent.value
    ensures TxsAbove(b, n - 1) == TxsAbove(b, n) + Ancestor(b, n).txs
    ensures StoredTo(store, b, n - 1) <==> StoredTo(store, b, n) && Ancestor(b, n).parent.value in store
    decreases b
  {
    if n < b.number {
      OneDown(store, b.parent.value, n);
    } else {
      assert Ancestor(b.parent.value, n - 1) == b.parent.value;
      assert TxsAbove(b.parent.value, n - 1) == [];
      assert b.txs + [] == b.txs;
    }
  }

  /** Who lacks an ancestor lacks those below, too. */
  lemma {:induction false} StoredDown(store: set<PoolBlock>, b: PoolBlock, n: nat, k: nat)
    requires Counted(b) && n <= k <= b.number && StoredTo(store, b, n)
    ensures StoredTo(store, b, k)
    decreases b
  {
    if k < b.number {
      StoredDown(store, b.parent.value, n, k);
    }
  }

  lemma {:induction false} TxsAboveMore(b: PoolBlock, n: nat, tx: Tx)
    requires tx in TxsAbove(b, n)
    ensures tx in TxsAbove(b, 0)
    decreases b
  {
    if b.number > n && b.parent.Some? && tx !in b.txs {
      TxsAboveMore(b.parent.value, n, tx);
    }
  }

  /** The chains to a and b are stored down to number n, and the same there. */
  predicate MeetAt(store: set<PoolBlock>, a: PoolBlock, b: PoolBlock, n: nat) {
    n <= a.number && n <= b.number && Ancestor(a, n) == Ancestor(b, n) && StoredTo(store, a, n) && StoredTo(store, b, n)
  }

  /** The chains to a and b part above number n. */
  ghost predicate ForkAt(store: set<PoolBlock>, a: PoolBlock, b: PoolBlock, n: nat) {
    MeetAt(store, a, b, n) && forall k: nat :: n < k <= a.number && k <= b.number ==> Ancestor(a, k) != Ancestor(b, k)
  }

  /** The transactions of b down to a number, unless a block is missing. */
  method Collect(store: set<PoolBlock>, b: PoolBlock, n: nat) returns (end: Option<PoolBlock>, txs: seq<Tx>)
    requires Counted(b)
    ensures end.Some? <==> StoredTo(store, b, Min(n, b.number))
    ensures end.Some? ==> end.value == Ancestor(b, Min(n, b.number)) && txs == TxsAbove(b, Min(n, b.number))
  {
    var x := b;
    txs := [];
    while x.number > n
      invariant Min(n, b.number) <= x.number <= b.number && x == Ancestor(b, x.number) && Counted(x)
      invariant txs == TxsAbove(b, x.number) && StoredTo(store, b, x.number)
      decreases x.number
    {
      OneDown(store, b, x.number);
      txs := txs + x.txs;
      if x.parent.value !in store {
        if StoredTo(store, b, Min(n, b.number)) {
          StoredDown(store, b, Min(n, b.number), x.number - 1);
        }
        return None, txs;
      }
      AncestorNumber(b, x.number - 1);
      x := x.parent.value;
    }
    end := Some(x);
  }

  /** The transactions of the abandoned branch that the new one does not have, unless one
      of the two chains has a gap above the fork. */
  method Abandoned(store: set<PoolBlock>, oldHead: PoolBlock, newHead: PoolBlock) returns (r: Option<seq<Tx>>, ghost fork: nat)
    requires Counted(oldHead) && Counted(newHead)
    ensures r.None? <==> forall n: nat :: !MeetAt(store, oldHead, newHead, n)
    ensures r.Some? ==>
              && ForkAt(store, oldHead, newHead, fork)
              && r.value == ChainTree.TxDifference(TxsAbove(oldHead, fork), TxsAbove(newHead, fork))
  {
    fork := Min(oldHead.number, newHead.number);
    var rem, discarded := Collect(store, oldHead, newHead.number);
    if rem.None? {
      NoMeeting(store, oldHead, newHead, fork);
      return None, fork;
    }
    var add, included := Collect(store, newHead, oldHead.number);
    if add.None? {
      NoMeeting(store, oldHead, newHead, fork);
      return None, fork;
    }
    r, fork := Descend(store, oldHead, newHead, rem.value, add.value, discarded, included);
  }

  /** Where one chain has a gap, they do not meet there or below. */
  lemma NoMeeting(store: set<PoolBlock>, a: PoolBlock, b: PoolBlock, k: nat)
    requires Counted(a) && Counted(b) && k <= a.number && k <= b.number
    requires !(StoredTo(store, a, k) && StoredTo(store, b, k))
    ensures forall n: nat :: n <= k ==> !MeetAt(store, a, b, n)
  {
    forall n: nat | n <= k ensures !MeetAt(store, a, b, n) {
      if MeetAt(store, a, b, n) {
        StoredDown(store, a, n, k);
        StoredDown(store, b, n, k);
      }
    }
  }

  /** Both chains downwards from the same number until they meet. */
  method Descend(store: set<PoolBlock>, oldHead: PoolBlock, newHead: PoolBlock, rem0: PoolBlock, add0: PoolBlock,
                 discarded0: seq<Tx>, included0: seq<Tx>)
    returns (r: Option<seq<Tx>>, ghost fork: nat)
    requires Counted(oldHead) && Counted(newHead)
    requires var k := Min(oldHead.number, newHead.number);
             && rem0 == Ancestor(oldHead, k) && add0 == Ancestor(newHead, k)
             && discarded0 == TxsAbove(oldHead, k) && included0 == TxsAbove(newHead, k)
             && StoredTo(store, oldHead, k) && StoredTo(store, newHead, k)
    ensures r.None? <==> forall n: nat :: !MeetAt(store, oldHead, newHead, n)
    ensures r.Some? ==>
              && ForkAt(store, oldHead, newHead, fork)
              && r.value == ChainTree.TxDifference(TxsAbove(oldHead, fork), TxsAbove(newHead, fork))
  {
    var rem, add, discarded, included := rem0, add0, discarded0, included0;
    ghost var top := Min(oldHead.number, newHead.number);
    fork := top;
    AncestorNumber(oldHead, fork);
    AncestorNumber(newHead, fork);
    while rem != add
      invariant 0 <= fork <= top && rem == Ancestor(oldHead, fork) && add == Ancestor(newHead, fork)
      invariant rem.number == add.number == fork && Counted(rem) && Counted(add)
      invariant discarded == TxsAbove(oldHead, fork) && included == TxsAbove(newHead, fork)
      invariant StoredTo(store, oldHead, fork) && StoredTo(store, newHead, fork)
      invariant forall k: nat :: fork < k <= top ==> Ancestor(oldHead, k) != Ancestor(newHead, k)
      decreases fork
    {
      if rem.parent.None? || add.parent.None? {
        return None, fork;
      }
      OneDown(store, oldHead, fork);
      OneDown(store, newHead, fork);
      if rem.parent.value !in store || add.parent.value !in store {
        NoMeeting(store, oldHead, newHead, fork - 1);
        return None, fork;
      }
      discarded, included := discarded + rem.txs, included + add.txs;
      rem, add, fork := rem.parent.value, add.parent.value, fork - 1;
      AncestorNumber(oldHead, fork);
      AncestorNumber(newHead, fork);
    }
    assert MeetAt(store, oldHead, newHead, fork);
    r := Some(ChainTree.TxDifference(discarded, included));
  }

  // ------------------------------------------------------------ a new head

  /** The new head does not follow the old one, and is not too far from it for the
      transactions in between to be looked at. */
  predicate Reorging(oldHead: Option<PoolBlock>, newHead: PoolBlock) {
    && oldHead.Some? && newHead.parent != oldHead
    && oldHead.value.number - newHead.number <= MAX_REORG && newHead.number - oldHead.value.number <= MAX_REORG
  }

  /** How far the numbers of two blocks are apart. */
  function Apart(a: PoolBlock, b: PoolBlock): (d: nat) {
    if a.number < b.number then b.number - a.number else a.number - b.number
  }

  /** The transactions to add again once the head has moved: none if it follows the old one, if
      there was none, or if it is more than 64 blocks away. */
  ghost predicate Reinjects(store: set<PoolBlock>, oldHead: Option<PoolBlock>, newHead: PoolBlock, txs: seq<Tx>) {
    if oldHead.None? || newHead.parent == oldHead || Apart(oldHead.value, newHead) > 64 then txs == []
    else exists fork: nat ::
           && ForkAt(store, oldHead.value, newHead, fork)
           && txs == ChainTree.TxDifference(TxsAbove(oldHead.value, fork), TxsAbove(newHead, fork))
  }

  /** A course without any step. */
  ghost function Nowhere(v: PoolView): (c: Course) { Course([], [v], Pass(v, 0, map[]), v, v, Pass(v, 0, map[])) }

  /** Every transaction that a new head should keep is pending, unless another has its sender and
      nonce. */
  ghost predicate NothingLost(t: Terms, v: PoolView, txs: seq<Tx>, wellFormed: Tx -> bool, w: PoolView) {
    forall x :: Worthy(t, v, txs, wellFormed, x) ==> InList(At(w.pending, x.from), x) || Rivalled(v.all + SetOf(txs), x)
  }

  lemma NothingIsLost(t: Terms, locals: set<Address>, v: PoolView, txs: seq<Tx>, wellFormed: Tx -> bool, c: Course, w: PoolView)
    requires Inv(v) && Rebased(t, locals, v, txs, wellFormed, c, w) && Fits(t.config, |v.all| + |txs|)
    ensures NothingLost(t, v, txs, wellFormed, w)
  {
    forall x | Worthy(t, v, txs, wellFormed, x) ensures InList(At(w.pending, x.from), x) || Rivalled(v.all + SetOf(txs), x) {
      NoneLost(t, locals, v, txs, wellFormed, c, w, x);
    }
  }

  /** The transactions to add again, unless the chains have to meet and do not. */
  method ToReinject(store: set<PoolBlock>, oldHead: Option<PoolBlock>, newHead: PoolBlock) returns (r: Option<seq<Tx>>)
    requires Counted(newHead) && (oldHead.Some? ==> Counted(oldHead.value))
    ensures r.Some? <==> (Reorging(oldHead, newHead) ==> exists n: nat :: MeetAt(store, oldHead.value, newHead, n))
    ensures r.Some? ==> Reinjects(store, oldHead, newHead, r.value)
  {
    if !Reorging(oldHead, newHead) {
      return Some([]);
    }
    ghost var fork;
    r, fork := Abandoned(store, oldHead.value, newHead);
    assert r.Some? ==> MeetAt(store, oldHead.value, newHead, fork);
  }

  /** Moves the pool to a new chain head. If the chains have a gap, or the state of the new
      head is not there, nothing happens. */
  method Reset(pool: TxPool, store: set<PoolBlock>, oldHead: Option<PoolBlock>, newHead: PoolBlock, state: Option<ChainState>,
               maxGas: Uint64, wellFormed: Tx -> bool, now: int)
    returns (done: bool, ghost reinject: seq<Tx>, ghost course: Course)
    requires pool.Valid() && Counted(newHead) && (oldHead.Some? ==> Counted(oldHead.value))
    modifies pool`state, pool`currentMaxGas, pool`beats, pool`locals, pool.all, pool.priced, pool.pending, pool.queue
    ensures pool.Valid()
    ensures done <==>
            state.Some? && (Reorging(oldHead, newHead) ==> exists n: nat :: MeetAt(store, oldHead.value, newHead, n))
    ensures !done ==> pool.View() == old(pool.View()) && pool.state == old(pool.state) && pool.currentMaxGas == old(pool.currentMaxGas)
    ensures !done ==> pool.beats == old(pool.beats) && pool.locals == old(pool.locals)
    ensures done ==> pool.state == state.value && pool.currentMaxGas == maxGas && pool.locals == old(pool.locals)
    ensures done ==> pool.queue.view == map[] && PendingCurrent(pool.pending.view, state.value, maxGas)
    ensures done ==> Reinjects(store, oldHead, newHead, reinject) && pool.all.all <= old(pool.all.all) + SetOf(reinject)
    ensures done ==> Rebased(pool.Now(), pool.locals, old(pool.View()), reinject, wellFormed, course, pool.View())
    ensures done && Fits(pool.config, |old(pool.all.all)| + |reinject|) ==>
              NothingLost(pool.Now(), old(pool.View()), reinject, wellFormed, pool.View())
  {
    reinject, course := [], Nowhere(pool.View());
    var txs := ToReinject(store, oldHead, newHead);
    done := txs.Some? && state.Some?;
    if done {
      reinject := txs.value;
      InvOf(pool);
      course := Rebase(pool, state.value, maxGas, txs.value, wellFormed, now);
      if Fits(pool.config, |old(pool.all.all)| + |reinject|) {
        NothingIsLost(pool.Now(), pool.locals, old(pool.View()), reinject, wellFormed, course, pool.View());
      }
    }
  }

  // ---------------------------------------------------------------- events

  datatype Event =
    | Offer(tx: Tx, local: bool, wellFormed: bool, now: int)
    | OfferAll(txs: seq<Tx>, local: bool, checks: Tx -> bool, now: int)
    | NewHead(store: set<PoolBlock>, oldHead: Option<PoolBlock>, newHead: PoolBlock, state: Option<ChainState>, maxGas: Uint64,
              checks: Tx -> bool, now: int)
    | Tick(now: int, lifetime: int)
    | Price(price: nat)
    | Remove(tx: Tx)

  predicate WellFormed(e: Event) {
    e.NewHead? ==> Counted(e.newHead) && (e.oldHead.Some? ==> Counted(e.oldHead.value))
  }

  /** What an event may bring into the pool. */
  function Brings(e: Event): (s: set<Tx>) {
    match e
    case Offer(tx, _, _, _) => {tx}
    case OfferAll(txs, _, _, _) => SetOf(txs)
    case NewHead(_, oldHead, _, _, _, _, _) => if oldHead.Some? then SetOf(TxsAbove(oldHead.value, 0)) else {}
    case _ => {}
  }

  lemma ReinjectedFrom(store: set<PoolBlock>, oldHead: Option<PoolBlock>, newHead: PoolBlock, txs: seq<Tx>)
    requires Reinjects(store, oldHead, newHead, txs)
    ensures SetOf(txs) <= if oldHead.Some? then SetOf(TxsAbove(oldHead.value, 0)) else {}
  {
    if Reorging(oldHead, newHead) {
      var fork: nat :| txs == ChainTree.TxDifference(TxsAbove(oldHead.value, fork), TxsAbove(newHead, fork));
      var gone, come := TxsAbove(oldHead.value, fork), TxsAbove(newHead, fork);
      assert forall tx: Tx :: tx in ChainTree.TxDifference(gone, come) <==> tx in gone && tx !in come;
      forall tx: Tx | tx in txs ensures tx in TxsAbove(oldHead.value, 0) {
        TxsAboveMore(oldHead.value, fork, tx);
      }
    }
  }

  /** The pool at one moment. */
  datatype Snapshot = Snapshot(view: PoolView, terms: Terms, locals: set<Address>, beats: map<Address, int>)

  ghost function Snap(pool: TxPool): (s: Snapshot)
    reads pool, pool.all, pool.priced, pool.pending, pool.queue
  {
    Snapshot(pool.View(), pool.Now(), pool.locals, pool.beats)
  }

  /** What there is to tell of an event. */
  datatype Happening =
    | One(o: Offering, placed: PoolView, mid: PoolView, level: nat)
    | Many(offers: seq<Offering>, views: seq<PoolView>, mid: PoolView, level: nat)
    | Moved(reinject: seq<Tx>, course: Course)
    | Simple

  ghost predicate OneOffered(e: Event, s: Snapshot, h: Happening, r: Snapshot)
    requires e.Offer? && h.One?
  {
    && Offered(s.terms, s.view, h.o, h.placed) && h.o == Offering(e.tx, e.local, e.wellFormed, s.locals, h.o.result, h.o.out, h.o.mid)
    && r.locals == LocalsAfter(h.o) && r.terms == s.terms
    && (if h.o.result.Added? && !h.o.result.replaced
        then Promoted(r.terms, r.locals, r.beats, h.placed, h.mid, r.view, {e.tx.from}, h.level) else r.view == h.placed)
  }

  ghost predicate ManyOffered(e: Event, s: Snapshot, h: Happening, r: Snapshot)
    requires e.OfferAll? && h.Many?
  {
    && Batched(s.terms, s.view, e.txs, e.local, e.checks, h.offers, h.views) && r.terms == s.terms
    && (if Newcomers(h.offers) != {}
        then Promoted(r.terms, r.locals, r.beats, h.views[|e.txs|], h.mid, r.view, Newcomers(h.offers), h.level)
        else r.view == h.views[|e.txs|])
  }

  /** The head can be moved: its state is there, and the chains meet if they have to. */
  ghost predicate Movable(e: Event)
    requires e.NewHead?
  {
    e.state.Some? && (Reorging(e.oldHead, e.newHead) ==> exists n: nat :: MeetAt(e.store, e.oldHead.value, e.newHead, n))
  }

  ghost predicate HeadMoved(e: Event, s: Snapshot, h: Happening, r: Snapshot)
    requires e.NewHead? && Movable(e) && h.Moved?
  {
    && Reinjects(e.store, e.oldHead, e.newHead, h.reinject) && r.locals == s.locals
    && r.terms == s.terms.(state := e.state.value, maxGas := e.maxGas) && r.view.queue == map[]
    && Rebased(r.terms, r.locals, s.view, h.reinject, e.checks, h.course, r.view)
  }

  /** What an event does, with what there is to tell of it. */
  ghost predicate Happened(e: Event, s: Snapshot, h: Happening, r: Snapshot) {
    match e
    case Offer(_, _, _, _) => h.One? && OneOffered(e, s, h, r)
    case OfferAll(_, _, _, _) => h.Many? && ManyOffered(e, s, h, r)
    case NewHead(_, _, _, _, _, _, _) => if Movable(e) then h.Moved? && HeadMoved(e, s, h, r) else r == s
    case Tick(now, lifetime) =>
      && r.view.pending == s.view.pending && r.terms == s.terms && r.locals == s.locals
      && r.view.queue == map a | a in s.view.queue && (a in s.locals || now - BeatOf(s.beats, a) <= lifetime) :: s.view.queue[a]
    case Price(price) =>
      && r.terms == s.terms.(gasPrice := price) && r.locals == s.locals
      && forall tx :: tx in r.view.all <==> tx in s.view.all && (tx.from in s.locals || tx.gasPrice >= price)
    case Remove(tx) => r.view == Removed(s.view, tx) && r.terms == s.terms && r.locals == s.locals
  }

  method Handle(pool: TxPool, e: Event) returns (ghost h: Happening)
    requires pool.Valid() && WellFormed(e)
    modifies pool`state, pool`currentMaxGas, pool`gasPrice, pool`beats, pool`locals, pool.all, pool.priced, pool.pending, pool.queue
    ensures pool.Valid() && pool.all.all <= old(pool.all.all) + Brings(e)
    ensures Happened(e, old(Snap(pool)), h, Snap(pool))
  {
    h := Simple;
    match e
    case Offer(tx, local, wellFormed, now) =>
      var r;
      ghost var o, placed, mid, level;
      r, o, placed, mid, level := AddTx(pool, tx, local, wellFormed, now);
      h := One(o, placed, mid, level);
    case OfferAll(txs, local, checks, now) =>
      var errs;
      ghost var offers, views, mid, level;
      errs, offers, views, mid, level := AddTxs(pool, txs, local, checks, now);
      h := Many(offers, views, mid, level);
    case NewHead(_, _, _, _, _, _, _) =>
      h := HandleHead(pool, e);
    case Tick(now, lifetime) =>
      Evict(pool, now, lifetime);
    case Price(price) =>
      pool.SetGasPrice(price);
    case Remove(tx) =>
      Discard(pool, tx);
  }

  method HandleHead(pool: TxPool, e: Event) returns (ghost h: Happening)
    requires pool.Valid() && WellFormed(e) && e.NewHead?
    modifies pool`state, pool`currentMaxGas, pool`gasPrice, pool`beats, pool`locals, pool.all, pool.priced, pool.pending, pool.queue
    ensures pool.Valid() && pool.all.all <= old(pool.all.all) + Brings(e)
    ensures Happened(e, old(Snap(pool)), h, Snap(pool))
  {
    var done;
    ghost var reinject, course;
    done, reinject, course := Reset(pool, e.store, e.oldHead, e.newHead, e.state, e.maxGas, e.checks, e.now);
    if done {
      ReinjectedFrom(e.store, e.oldHead, e.newHead, reinject);
    }
    h := Moved(reinject, course);
  }

  function BroughtBy(events: seq<Event>): (s: set<Tx>) {
    if events == [] then {} else BroughtBy(events[..|events| - 1]) + Brings(events[|events| - 1])
  }

  /** Every event did what it does, to what the one before it left. */
  ghost predicate Ran(events: seq<Event>, snaps: seq<Snapshot>, hs: seq<Happening>) {
    && |hs| == |events| && |snaps| == |events| + 1
    && forall i {:trigger hs[i]} :: 0 <= i < |events| ==> Happened(events[i], snaps[i], hs[i], snaps[i + 1])
  }

  lemma RanNext(events: seq<Event>, i: nat, snaps: seq<Snapshot>, hs: seq<Happening>, h: Happening, s: Snapshot)
    requires i < |events| && Ran(events[..i], snaps, hs) && Happened(events[i], snaps[i], h, s)
    ensures Ran(events[..i + 1], snaps + [s], hs + [h])
  {
    var more, all := hs + [h], snaps + [s];
    forall k | 0 <= k < i + 1 ensures Happened(events[..i + 1][k], all[k], more[k], all[k + 1]) {
      assert k < i ==> more[k] == hs[k] && all[k] == snaps[k] && all[k + 1] == snaps[k + 1] && events[..i][k] == events[k];
    }
  }

  /** Whatever comes, in whatever order: every event has its effect on what the one before it
      left; the lookup stays the disjoint union of the pending and the queued transactions, and
      holds nothing that was not there before, was not offered and was not in an abandoned
      block. */
  method HandleAll(pool: TxPool, events: seq<Event>) returns (ghost snaps: seq<Snapshot>, ghost hs: seq<Happening>)
    requires pool.Valid() && forall i :: 0 <= i < |events| ==> WellFormed(events[i])
    modifies pool`state, pool`currentMaxGas, pool`gasPrice, pool`beats, pool`locals, pool.all, pool.priced, pool.pending, pool.queue
    ensures pool.Valid() && Inv(pool.View()) && pool.all.all <= old(pool.all.all) + BroughtBy(events)
    ensures Ran(events, snaps, hs) && snaps[0] == old(Snap(pool)) && snaps[|events|] == Snap(pool)
  {
    snaps, hs := [Snap(pool)], [];
    for i := 0 to |events|
      invariant pool.Valid() && pool.all.all <= old(pool.all.all) + BroughtBy(events[..i])
      invariant Ran(events[..i], snaps, hs) && snaps[0] == old(Snap(pool)) && snaps[i] == Snap(pool)
    {
      assert events[..i + 1][..i] == events[..i];
      ghost var h := Handle(pool, events[i]);
      RanNext(events, i, snaps, hs, h, Snap(pool));
      snaps, hs := snaps + [Snap(pool)], hs + [h];
    }
    assert events[..|events|] == events;
    InvOf(pool);
  }
}
