/** Which transactions of the queues get into a block, and why the others do not. */
module PackTraces {
  import opened Sums
  import opened Gas
  import opened StateProcessors
  import opened BlockWork

  /** What becomes of a transaction that is tried: it gets in, it fails alone, it holds up those
      behind it, or it is barred, with those behind it, for its signature. */
  datatype Fate = Fits | Fails | Stalls | Barred

  /** One try: the place that the transaction had in its queue at the beginning. */
  datatype Try = Try(queue: nat, place: nat, tx: Tx, fate: Fate)

  function FateOf(vm: Machine, ben: Account, homestead: bool, eip155: bool, now: Progress, tx: Tx): (f: Fate)
    requires SoundMachine(vm)
  {
    if tx.replayProtected && !eip155 then Barred
    else
      match TxStep(vm, ben, homestead, now, tx).err
      case None => Fits
      case Some(GasLimitReached) => Stalls
      case Some(NonceTooHigh) => Stalls
      case Some(_) => Fails
  }

  /** How many tries were of a queue. */
  function Taken(order: seq<nat>, i: nat): (n: nat) {
    if order == [] then 0 else Taken(order[..|order| - 1], i) + if order[|order| - 1] == i then 1 else 0
  }

  /** The tries of a packing. */
  function Tries(vm: Machine, ben: Account, homestead: bool, eip155: bool, b: Bench, order: seq<nat>): (ts: seq<Try>)
    requires SoundMachine(vm) && Pack(vm, ben, homestead, eip155, b, order).Some?
  {
    if order == [] then []
    else
      var before, i := order[..|order| - 1], order[|order| - 1];
      var p := Pack(vm, ben, homestead, eip155, b, before).value;
      var tx := p.queues[i][0];
      Tries(vm, ben, homestead, eip155, b, before) + [Try(i, Taken(before, i), tx, FateOf(vm, ben, homestead, eip155, p.now, tx))]
  }

  /** The transactions of the tries that fit. */
  function Fitting(ts: seq<Try>): (txs: seq<Tx>) {
    if ts == [] then []
    else
      var last := ts[|ts| - 1];
      Fitting(ts[..|ts| - 1]) + if last.fate == Fits then [last.tx] else []
  }

  /** A try after which the rest of the queue is dropped. */
  predicate Cuts(t: Try, i: nat) {
    t.queue == i && (t.fate == Stalls || t.fate == Barred)
  }

  ghost predicate Tried(ts: seq<Try>, i: nat, k: nat) {
    exists t :: t in ts && t.queue == i && t.place == k
  }

  ghost predicate Cut(ts: seq<Try>, i: nat) {
    exists t :: t in ts && Cuts(t, i)
  }

  lemma TriedMore(ts: seq<Try>, t: Try, i: nat, k: nat)
    ensures Tried(ts, i, k) || (t.queue == i && t.place == k) ==> Tried(ts + [t], i, k)
    ensures Cut(ts, i) || Cuts(t, i) ==> Cut(ts + [t], i)
  {
    assert forall u :: u in ts || u == t ==> u in ts + [t];
  }

  /** Of the queue i the first n transactions were tried, and the rest is there or was cut off. */
  ghost predicate Served(queue: seq<Tx>, i: nat, n: nat, left: seq<Tx>, ts: seq<Try>) {
    && n <= |queue| && (left == queue[n..] || (left == [] && Cut(ts, i)))
    && (forall k :: 0 <= k < n ==> Tried(ts, i, k))
  }

  /** The x-th try is of the queue it should be, at the place behind its tries so far. */
  ghost predicate InPlace(queues: seq<seq<Tx>>, order: seq<nat>, ts: seq<Try>, x: nat)
    requires x < |ts| == |order|
  {
    && ts[x].queue == order[x] < |queues| && ts[x].place == Taken(order[..x], order[x])
    && ts[x].place < |queues[order[x]]| && ts[x].tx == queues[order[x]][ts[x].place]
  }

  /** The tries of a queue go through it from its first place on, one by one. */
  ghost predicate Orderly(queues: seq<seq<Tx>>, order: seq<nat>, ts: seq<Try>) {
    |ts| == |order| && forall x :: 0 <= x < |ts| ==> InPlace(queues, order, ts, x)
  }

  ghost predicate AllServed(queues: seq<seq<Tx>>, order: seq<nat>, left: seq<seq<Tx>>, ts: seq<Try>) {
    |left| == |queues| && forall i :: 0 <= i < |queues| ==> Served(queues[i], i, Taken(order, i), left[i], ts)
  }

  lemma ServeMore(queue: seq<Tx>, i: nat, n: nat, left: seq<Tx>, ts: seq<Try>, t: Try, next: seq<Tx>)
    requires Served(queue, i, n, left, ts) && left != [] && t.queue == i && t.place == n
    requires next == left[1..] || (next == [] && Cuts(t, i))
    ensures n < |queue| && left[0] == queue[n] && Served(queue, i, n + 1, next, ts + [t])
  {
    assert left == queue[n..];
    assert queue[n..][1..] == queue[n + 1..];
    forall k | 0 <= k <= n ensures Tried(ts + [t], i, k) {
      TriedMore(ts, t, i, k);
    }
    TriedMore(ts, t, i, n);
  }

  lemma ServeOther(queue: seq<Tx>, i: nat, n: nat, left: seq<Tx>, ts: seq<Try>, t: Try)
    requires Served(queue, i, n, left, ts)
    ensures Served(queue, i, n, left, ts + [t])
  {
    forall k | 0 <= k < n ensures Tried(ts + [t], i, k) {
      TriedMore(ts, t, i, k);
    }
    TriedMore(ts, t, i, n);
  }

  lemma OrderlyMore(queues: seq<seq<Tx>>, order: seq<nat>, ts: seq<Try>, t: Try)
    requires Orderly(queues, order, ts) && t.queue < |queues| && t.place == Taken(order, t.queue)
    requires t.place < |queues[t.queue]| && t.tx == queues[t.queue][t.place]
    ensures Orderly(queues, order + [t.queue], ts + [t])
  {
    var more, all := order + [t.queue], ts + [t];
    forall x | 0 <= x < |all| ensures InPlace(queues, more, all, x) {
      if x < |ts| {
        assert InPlace(queues, order, ts, x) && more[..x] == order[..x] && more[x] == order[x] && all[x] == ts[x];
      } else {
        assert more[..x] == order;
      }
    }
  }

  lemma AllServedMore(queues: seq<seq<Tx>>, order: seq<nat>, left: seq<seq<Tx>>, ts: seq<Try>, t: Try, next: seq<seq<Tx>>)
    requires AllServed(queues, order, left, ts)
    requires t.queue < |queues| && left[t.queue] != [] && t.place == Taken(order, t.queue) && |next| == |left|
    requires next == left[t.queue := next[t.queue]]
    requires next[t.queue] == if t.fate == Stalls || t.fate == Barred then [] else left[t.queue][1..]
    ensures t.place < |queues[t.queue]| && left[t.queue][0] == queues[t.queue][t.place]
    ensures AllServed(queues, order + [t.queue], next, ts + [t])
  {
    assert (order + [t.queue])[..|order|] == order;
    ServeMore(queues[t.queue], t.queue, t.place, left[t.queue], ts, t, next[t.queue]);
    forall i | 0 <= i < |queues| ensures Served(queues[i], i, Taken(order + [t.queue], i), next[i], ts + [t]) {
      if i != t.queue {
        ServeOther(queues[i], i, Taken(order, i), left[i], ts, t);
      }
    }
  }

  /** A try does to the block and to its queue what its fate says. */
  lemma PickByFate(vm: Machine, ben: Account, homestead: bool, eip155: bool, b: Bench, i: nat)
    requires SoundMachine(vm) && Pickable(b, i)
    ensures var r, f := Pick(vm, ben, homestead, eip155, b, i), FateOf(vm, ben, homestead, eip155, b.now, b.queues[i][0]);
            && r.queues == b.queues[i := if f == Stalls || f == Barred then [] else b.queues[i][1..]]
            && r.txs == b.txs + if f == Fits then [b.queues[i][0]] else []
  {
  }

  /** The tries of each queue go through it from its beginning; a queue is left as it is behind
      its last try, or was cut off by one; and what fits is what is packed, in the order of
      the tries. */
  ghost predicate Told(b: Bench, order: seq<nat>, ts: seq<Try>, p: Bench) {
    Orderly(b.queues, order, ts) && AllServed(b.queues, order, p.queues, ts) && p.txs == b.txs + Fitting(ts)
  }

  /** One more try. */
  lemma ToldMore(b: Bench, order: seq<nat>, ts: seq<Try>, p: Bench, t: Try, r: Bench)
    requires Told(b, order, ts, p)
    requires t.queue < |p.queues| && p.queues[t.queue] != [] && t.place == Taken(order, t.queue) && t.tx == p.queues[t.queue][0]
    requires r.queues == p.queues[t.queue := if t.fate == Stalls || t.fate == Barred then [] else p.queues[t.queue][1..]]
    requires r.txs == p.txs + if t.fate == Fits then [t.tx] else []
    ensures Told(b, order + [t.queue], ts + [t], r)
  {
    AllServedMore(b.queues, order, p.queues, ts, t, r.queues);
    OrderlyMore(b.queues, order, ts, t);
    assert (ts + [t])[..|ts|] == ts;
  }

  /** So it is however the queues are served. */
  lemma {:induction false} TriesTold(vm: Machine, ben: Account, homestead: bool, eip155: bool, b: Bench, order: seq<nat>)
    requires SoundMachine(vm) && Pack(vm, ben, homestead, eip155, b, order).Some?
    ensures Told(b, order, Tries(vm, ben, homestead, eip155, b, order), Pack(vm, ben, homestead, eip155, b, order).value)
    decreases |order|
  {
    if order == [] {
      NothingTried(b.queues);
    } else {
      var before, i := order[..|order| - 1], order[|order| - 1];
      TriesTold(vm, ben, homestead, eip155, b, before);
      var p, ts := Pack(vm, ben, homestead, eip155, b, before).value, Tries(vm, ben, homestead, eip155, b, before);
      PickByFate(vm, ben, homestead, eip155, p, i);
      var tx := p.queues[i][0];
      var t := Try(i, Taken(before, i), tx, FateOf(vm, ben, homestead, eip155, p.now, tx));
      ToldMore(b, before, ts, p, t, Pick(vm, ben, homestead, eip155, p, i));
      assert order == before + [i];
    }
  }

  lemma NothingTried(queues: seq<seq<Tx>>)
    ensures Orderly(queues, [], []) && AllServed(queues, [], queues, [])
  {
  }

  /** Two tries of a queue come in the order of the queue, so what is packed of it is in that
      order too. */
  lemma TriesInOrder(vm: Machine, ben: Account, homestead: bool, eip155: bool, b: Bench, order: seq<nat>, x: nat, y: nat)
    requires SoundMachine(vm) && Pack(vm, ben, homestead, eip155, b, order).Some? && x < y < |order| && order[x] == order[y]
    ensures var ts := Tries(vm, ben, homestead, eip155, b, order);
            |ts| == |order| && ts[x].queue == ts[y].queue == order[x] && ts[x].place < ts[y].place
  {
    var ts := Tries(vm, ben, homestead, eip155, b, order);
    TriesTold(vm, ben, homestead, eip155, b, order);
    assert InPlace(b.queues, order, ts, x) && InPlace(b.queues, order, ts, y);
    TakenGrows(order[..y], x);
    assert order[..y][..x] == order[..x];
  }

  /** It is packed, or failed by itself, or was cut off by one that is not behind it. */
  ghost predicate Explained(ts: seq<Try>, i: nat, k: nat, tx: Tx) {
    || Try(i, k, tx, Fits) in ts
    || Try(i, k, tx, Fails) in ts
    || exists t :: t in ts && Cuts(t, i) && t.place <= k
  }

  lemma LeftOut(b: Bench, order: seq<nat>, ts: seq<Try>, p: Bench, i: nat, k: nat)
    requires Told(b, order, ts, p) && i < |b.queues| && k < |b.queues[i]| && p.queues[i] == []
    ensures Explained(ts, i, k, b.queues[i][k])
  {
    var n := Taken(order, i);
    assert Served(b.queues[i], i, n, p.queues[i], ts);
    if k < n {
      assert Tried(ts, i, k);
      var t :| t in ts && t.queue == i && t.place == k;
      var x :| 0 <= x < |ts| && ts[x] == t;
      assert InPlace(b.queues, order, ts, x);
      assert t == Try(i, k, b.queues[i][k], t.fate);
    } else {
      assert b.queues[i][n..] != [];
      var t :| t in ts && Cuts(t, i);
      var x :| 0 <= x < |ts| && ts[x] == t;
      assert InPlace(b.queues, order, ts, x);
      TakenGrows(order, x);
    }
  }

  /** With gas left for another, a transaction of the queues is packed, unless it failed by
      itself, or it or one before it in its queue ran out of the pool, had a nonce too high,
      or was barred. */
  lemma NothingLeftOut(vm: Machine, ben: Account, homestead: bool, eip155: bool, b: Bench, order: seq<nat>, i: nat, k: nat)
    requires SoundMachine(vm) && Pack(vm, ben, homestead, eip155, b, order).Some?
    requires var p := Pack(vm, ben, homestead, eip155, b, order).value; Finished(p) && p.now.pool >= TX_GAS
    requires i < |b.queues| && k < |b.queues[i]|
    ensures Explained(Tries(vm, ben, homestead, eip155, b, order), i, k, b.queues[i][k])
  {
    TriesTold(vm, ben, homestead, eip155, b, order);
    var p, ts := Pack(vm, ben, homestead, eip155, b, order).value, Tries(vm, ben, homestead, eip155, b, order);
    LeftOut(b, order, ts, p, i, k);
  }

  /** A queue in which every transaction that is tried fits is packed whole and in order. */
  lemma WholeQueue(vm: Machine, ben: Account, homestead: bool, eip155: bool, b: Bench, order: seq<nat>, i: nat)
    requires SoundMachine(vm) && Pack(vm, ben, homestead, eip155, b, order).Some?
    requires var p := Pack(vm, ben, homestead, eip155, b, order).value; Finished(p) && p.now.pool >= TX_GAS
    requires i < |b.queues|
    requires forall t :: t in Tries(vm, ben, homestead, eip155, b, order) && t.queue == i ==> t.fate == Fits
    ensures FittingOf(Tries(vm, ben, homestead, eip155, b, order), i) == b.queues[i]
  {
    var ts := Tries(vm, ben, homestead, eip155, b, order);
    TriesTold(vm, ben, homestead, eip155, b, order);
    var p := Pack(vm, ben, homestead, eip155, b, order).value;
    assert Served(b.queues[i], i, Taken(order, i), p.queues[i], ts);
    AllFit(b.queues, order, ts, i);
  }

  lemma {:induction false} AllFit(queues: seq<seq<Tx>>, order: seq<nat>, ts: seq<Try>, i: nat)
    requires i < |queues| && Orderly(queues, order, ts) && Taken(order, i) <= |queues[i]|
    requires forall t :: t in ts && t.queue == i ==> t.fate == Fits
    ensures FittingOf(ts, i) == queues[i][..Taken(order, i)]
    decreases |ts|
  {
    if ts != [] {
      var n := |ts| - 1;
      OrderlyBefore(queues, order, ts);
      assert InPlace(queues, order, ts, n) && ts[n] in ts;
      if order[n] == i {
        assert queues[i][..Taken(order[..n], i) + 1] == queues[i][..Taken(order[..n], i)] + [ts[n].tx];
      }
      AllFit(queues, order[..n], ts[..n], i);
    }
  }

  lemma OrderlyBefore(queues: seq<seq<Tx>>, order: seq<nat>, ts: seq<Try>)
    requires ts != [] && Orderly(queues, order, ts)
    ensures Orderly(queues, order[..|ts| - 1], ts[..|ts| - 1])
  {
    var n := |ts| - 1;
    forall x | 0 <= x < n ensures InPlace(queues, order[..n], ts[..n], x) {
      assert InPlace(queues, order, ts, x) && order[..n][..x] == order[..x];
    }
  }

  lemma {:induction false} TakenGrows(order: seq<nat>, x: nat)
    requires x < |order|
    ensures Taken(order[..x], order[x]) < Taken(order, order[x])
  {
    var n := |order| - 1;
    if x < n {
      TakenGrows(order[..n], x);
      assert order[..n][..x] == order[..x];
    }
  }

  /** The transactions of a queue among those that fit. */
  function FittingOf(ts: seq<Try>, i: nat): (txs: seq<Tx>) {
    if ts == [] then []
    else
      var last := ts[|ts| - 1];
      FittingOf(ts[..|ts| - 1], i) + if last.queue == i && last.fate == Fits then [last.tx] else []
  }
}
