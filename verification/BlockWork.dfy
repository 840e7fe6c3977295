/** Packing transactions into a block, and the receipts of a block. */
module BlockWork {
  import opened Wrappers
  import opened Sums
  import opened Gas
  import opened StateTransitions
  import opened StateProcessors

  // ---------------------------------------------------------------- receipts

  /** Receipts as they are stored: without the gas used by each transaction. */
  function Stored(rs: seq<Receipt>): (s: seq<Receipt>) {
    seq(|rs|, i requires 0 <= i < |rs| => rs[i].(gasUsed := 0))
  }

  /** a - b in 64 bits. */
  function Minus(a: Uint64, b: Uint64): (c: Uint64)
    ensures a >= b ==> c == a - b
  {
    if a >= b then a - b else a - b + MAX_UINT64 + 1
  }

  /** A receipt with the gas that the sums say its transaction used. */
  function Derived(rs: seq<Receipt>, j: nat): (r: Receipt)
    requires j < |rs|
  {
    rs[j].(gasUsed := if j == 0 then rs[j].cumulative else Minus(rs[j].cumulative, rs[j - 1].cumulative))
  }

  /** Compute the gas used by each transaction from the sums. The number of receipts has to
      be that of the transactions. */
  method SetReceiptsData(txs: nat, receipts: array<Receipt>) returns (ok: bool)
    modifies receipts
    ensures ok <==> txs == receipts.Length
    ensures !ok ==> receipts[..] == old(receipts[..])
    ensures ok ==> forall j :: 0 <= j < receipts.Length ==> receipts[j] == Derived(old(receipts[..]), j)
  {
    if txs != receipts.Length {
      return false;
    }
    ghost var was := receipts[..];
    var j := 0;
    while j < receipts.Length
      invariant 0 <= j <= receipts.Length && |was| == receipts.Length
      invariant forall i :: j <= i < receipts.Length ==> receipts[i] == was[i]
      invariant forall i :: 0 <= i < j ==> receipts[i] == Derived(was, i)
    {
      if j == 0 {
        receipts[j] := receipts[j].(gasUsed := receipts[j].cumulative);
      } else {
        assert receipts[j - 1] == Derived(was, j - 1);
        receipts[j] := receipts[j].(gasUsed := Minus(receipts[j].cumulative, receipts[j - 1].cumulative));
      }
      j := j + 1;
    }
    ok := true;
  }

  lemma DerivedAgain(rs: seq<Receipt>, j: nat)
    requires Cumulative(rs) && j < |rs|
    ensures Derived(Stored(rs), j) == rs[j]
  {
    assert SumAt(rs, j);
  }

  /** The receipts of a block survive being stored: their gas is recovered. */
  method RecoverReceipts(rs: seq<Receipt>, receipts: array<Receipt>) returns (ok: bool)
    requires Cumulative(rs) && receipts[..] == Stored(rs)
    modifies receipts
    ensures ok && receipts[..] == rs
  {
    assert receipts.Length == |receipts[..]| == |rs|;
    ok := SetReceiptsData(|rs|, receipts);
    forall j | 0 <= j < |rs| ensures receipts[j] == rs[j] {
      DerivedAgain(rs, j);
    }
  }

  // ----------------------------------------------------------------- packing

  function TotalLength(queues: seq<seq<Tx>>): (n: nat) {
    if queues == [] then 0 else |queues[0]| + TotalLength(queues[1..])
  }

  lemma {:induction false} Shorter(queues: seq<seq<Tx>>, i: nat, q: seq<Tx>)
    requires i < |queues| && |q| < |queues[i]|
    ensures TotalLength(queues[i := q]) < TotalLength(queues)
  {
    if i == 0 {
      assert queues[i := q][1..] == queues[1..];
    } else {
      Shorter(queues[1..], i - 1, q);
      assert queues[i := q][1..] == queues[1..][i - 1 := q];
    }
  }

  ghost predicate UnfoldPacked(k: int) { true }

  /** Processing the packed transactions, from the state the work began with, with the gas
      limit of the block and the same beneficiary, gives the state, the receipts and the gas
      used that the work has. The pool of the work has what the block has left, or less. */
  ghost predicate Packed(vm: Machine, ben: Account, homestead: bool, start: Progress, txs: seq<Tx>, now: Progress)
    requires SoundMachine(vm)
  {
    forall k {:trigger UnfoldPacked(k)} :: UnfoldPacked(k) ==>
      && now.pool + now.used <= start.pool
      && var r := Fold(vm, ben, homestead, start, txs);
      r.err.None? && now.pool <= r.after.pool && r.after == now.(pool := r.after.pool)
  }

  /** One more transaction, or a failed one after which the state is put back. */
  lemma PackedStep(vm: Machine, ben: Account, homestead: bool, start: Progress, txs: seq<Tx>, now: Progress, tx: Tx)
    requires SoundMachine(vm) && Packed(vm, ben, homestead, start, txs, now)
    ensures var r := TxStep(vm, ben, homestead, now, tx);
            && r.after.pool <= now.pool
            && (r.err.None? ==> Packed(vm, ben, homestead, start, txs + [tx], r.after))
            && (r.err.Some? ==>
                  && Packed(vm, ben, homestead, start, txs, r.after.(world := now.world))
                  && r.after.used == now.used && r.after.receipts == now.receipts)
  {
    assert UnfoldPacked(0);
    TxStepGas(vm, ben, homestead, now, tx);
    assert TxStep(vm, ben, homestead, now, tx).after.pool <= now.pool by {
      if !tx.special {
        ApplyGas(Booted(vm, ben, tx.msg), homestead, now.world, now.pool, tx.msg);
      }
    }
    if TxStep(vm, ben, homestead, now, tx).err.None? {
      TxStepMore(vm, ben, homestead, now, Fold(vm, ben, homestead, start, txs).after, tx);
      assert (txs + [tx])[..|txs|] == txs;
    }
  }

  lemma PackedGas(vm: Machine, ben: Account, homestead: bool, start: Progress, txs: seq<Tx>, now: Progress)
    requires SoundMachine(vm) && Packed(vm, ben, homestead, start, txs, now)
    ensures now.pool + now.used <= start.pool
    ensures var r := Fold(vm, ben, homestead, start, txs); r.err.None? && r.after == now.(pool := r.after.pool)
  {
    assert UnfoldPacked(0);
  }

  // --------------------------------------------------- the packing as a value

  /** The block so far, with the pool, and what is left of the queues. */
  datatype Bench = Bench(now: Progress, txs: seq<Tx>, queues: seq<seq<Tx>>)

  /** There is gas for another transaction, and the queue i has one. */
  predicate Pickable(b: Bench, i: nat) {
    b.now.pool >= TX_GAS && i < |b.queues| && b.queues[i] != []
  }

  /** Nothing more can be packed. */
  predicate Finished(b: Bench) {
    b.now.pool < TX_GAS || forall i :: 0 <= i < |b.queues| ==> b.queues[i] == []
  }

  /** Packing the first transaction of the queue i. */
  function Pick(vm: Machine, ben: Account, homestead: bool, eip155: bool, b: Bench, i: nat): (r: Bench)
    requires SoundMachine(vm) && Pickable(b, i)
  {
    var tx, rest := b.queues[i][0], b.queues[i := b.queues[i][1..]];
    var none := b.queues[i := []];
    if tx.replayProtected && !eip155 then b.(queues := none)
    else
      var s := TxStep(vm, ben, homestead, b.now, tx);
      if s.err.None? then Bench(s.after, b.txs + [tx], rest)
      else
        Bench(s.after.(world := b.now.world), b.txs,
              if s.err == Some(GasLimitReached) || s.err == Some(NonceTooHigh) then none else rest)
  }

  /** Packing from the queues in the given order, if that can happen. */
  function Pack(vm: Machine, ben: Account, homestead: bool, eip155: bool, b: Bench, order: seq<nat>): (r: Option<Bench>)
    requires SoundMachine(vm)
  {
    if order == [] then Some(b)
    else
      var p := Pack(vm, ben, homestead, eip155, b, order[..|order| - 1]);
      if p.Some? && Pickable(p.value, order[|order| - 1])
      then Some(Pick(vm, ben, homestead, eip155, p.value, order[|order| - 1])) else None
  }

  function Empty(w: World, gasLimit: Uint64, queues: seq<seq<Tx>>): (b: Bench) {
    Bench(Progress(w, gasLimit, 0, []), [], queues)
  }

  lemma PickKeeps(vm: Machine, ben: Account, homestead: bool, eip155: bool, start: Progress, b: Bench, i: nat)
    requires SoundMachine(vm) && Pickable(b, i) && Packed(vm, ben, homestead, start, b.txs, b.now)
    ensures var r := Pick(vm, ben, homestead, eip155, b, i); Packed(vm, ben, homestead, start, r.txs, r.now)
  {
    PackedStep(vm, ben, homestead, start, b.txs, b.now, b.queues[i][0]);
  }

  /** Whatever the order, what is packed can be processed with the same beneficiary. */
  lemma {:induction false} PackKeeps(vm: Machine, ben: Account, homestead: bool, eip155: bool, w: World, gasLimit: Uint64,
                                     queues: seq<seq<Tx>>, order: seq<nat>)
    requires SoundMachine(vm)
    ensures var p := Pack(vm, ben, homestead, eip155, Empty(w, gasLimit, queues), order);
            p.Some? ==> Packed(vm, ben, homestead, Progress(w, gasLimit, 0, []), p.value.txs, p.value.now)
    decreases |order|
  {
    if order != [] {
      var before := order[..|order| - 1];
      PackKeeps(vm, ben, homestead, eip155, w, gasLimit, queues, before);
      var p := Pack(vm, ben, homestead, eip155, Empty(w, gasLimit, queues), before);
      if p.Some? && Pickable(p.value, order[|order| - 1]) {
        PickKeeps(vm, ben, homestead, eip155, Progress(w, gasLimit, 0, []), p.value, order[|order| - 1]);
      }
    }
  }

  // ------------------------------------------------------ packing and processing

  /** The block packed for one beneficiary is accepted when it is processed for another: no
      transaction fails, and state, receipts and gas used are those of the packing. */
  ghost predicate Accepted(vm: Machine, packer: Account, miner: Account, homestead: bool, eip155: bool, w: World,
                           gasLimit: Uint64, queues: seq<seq<Tx>>, order: seq<nat>)
  {
    SoundMachine(vm) ==>
      var p := Pack(vm, packer, homestead, eip155, Empty(w, gasLimit, queues), order);
      p.Some? && Finished(p.value) ==>
        var r := Fold(vm, miner, homestead, Progress(w, gasLimit, 0, []), p.value.txs);
        r.err.None? && r.after == p.value.now.(pool := r.after.pool)
  }

  /** The machine does not care which of the two gets the fees. */
  ghost predicate Indifferent(vm: Machine, x: Account, y: Account) {
    forall price: nat {:trigger Context(x, price)} :: vm(Context(x, price)) == vm(Context(y, price))
  }

  lemma {:induction false} SameFold(vm: Machine, x: Account, y: Account, homestead: bool, start: Progress, txs: seq<Tx>)
    requires SoundMachine(vm) && Indifferent(vm, x, y)
    ensures Fold(vm, x, homestead, start, txs) == Fold(vm, y, homestead, start, txs)
    decreases |txs|
  {
    if txs != [] {
      SameFold(vm, x, y, homestead, start, txs[..|txs| - 1]);
      var r := Fold(vm, x, homestead, start, txs[..|txs| - 1]);
      if r.err.None? {
        SameStep(vm, x, y, homestead, r.after, txs[|txs| - 1]);
      }
    }
  }

  lemma SameStep(vm: Machine, x: Account, y: Account, homestead: bool, s: Progress, tx: Tx)
    requires SoundMachine(vm) && Indifferent(vm, x, y)
    ensures TxStep(vm, x, homestead, s, tx) == TxStep(vm, y, homestead, s, tx)
  {
    assert Booted(vm, x, tx.msg) == Booted(vm, y, tx.msg) by {
      assert Context(x, tx.msg.gasPrice).gasPrice == tx.msg.gasPrice;
    }
  }

  /** A machine that does not care accepts every packed block. */
  lemma IndifferentAccepts(vm: Machine, packer: Account, miner: Account, homestead: bool, eip155: bool, w: World,
                           gasLimit: Uint64, queues: seq<seq<Tx>>, order: seq<nat>)
    requires Indifferent(vm, packer, miner)
    ensures Accepted(vm, packer, miner, homestead, eip155, w, gasLimit, queues, order)
  {
    if SoundMachine(vm) {
      var p := Pack(vm, packer, homestead, eip155, Empty(w, gasLimit, queues), order);
      if p.Some? {
        PackKeeps(vm, packer, homestead, eip155, w, gasLimit, queues, order);
        PackedGas(vm, packer, homestead, Progress(w, gasLimit, 0, []), p.value.txs, p.value.now);
        SameFold(vm, packer, miner, homestead, Progress(w, gasLimit, 0, []), p.value.txs);
      }
    }
  }

  /** A machine that reads the beneficiary: a call costs nothing more in a block of the
      packer's, and all its gas in another. */
  function Reader(packer: Account): (vm: Machine) {
    (c: Context) => (w: World, a: Account, p: Payment, g: Uint64) => Outcome(w, if c.coinbase == packer then g else 0, false, false)
  }

  lemma ReaderSound(packer: Account)
    ensures SoundMachine(Reader(packer))
  {
  }

  /** A call of account 0 with more gas than it needs. */
  function Call(): (tx: Tx) {
    Tx(Message(0, 0, true, 2 * TX_GAS, 0, Payment(Some(1), [], 0), []), false, false)
  }

  lemma CallCosts(packer: Account, ben: Account)
    ensures SoundMachine(Reader(packer))
    ensures var s := TxStep(Reader(packer), ben, true, Progress(World(map[], map[], 0, []), 2 * TX_GAS, 0, []), Call());
            && s.err.None? && s.after.used == (if ben == packer then TX_GAS else 2 * TX_GAS)
            && s.after.pool + s.after.used == 2 * TX_GAS
  {
    ReaderSound(packer);
    WorthIs(2 * TX_GAS, 0);
  }

  /** Packed for one beneficiary and processed for another, the same call in the same world
      uses another amount of gas: the block is not accepted. */
  lemma BeneficiaryExample(packer: Account, miner: Account)
    requires packer != miner
    ensures !Accepted(Reader(packer), packer, miner, true, true, World(map[], map[], 0, []), 2 * TX_GAS, [[Call()]], [0])
  {
    var vm, w := Reader(packer), World(map[], map[], 0, []);
    CallCosts(packer, packer);
    CallCosts(packer, miner);
    var b := Empty(w, 2 * TX_GAS, [[Call()]]);
    assert [0][..0] == [];
    assert Pack(vm, packer, true, true, b, []) == Some(b);
    var p := Pack(vm, packer, true, true, b, [0]);
    assert b.queues[0][1..] == [];
    assert p.Some? && p.value.txs == [Call()];
    assert Fold(vm, miner, true, b.now, []) == Step(None, b.now);
    assert [Call()][..0] == [];
  }

  /** Packing and processing agree, for every sound machine, world, gas limit and list of
      queues and in whatever order the queues are served, if and only if both are done for
      the same beneficiary. */
  lemma AcceptedIff(packer: Account, miner: Account)
    ensures packer == miner <==>
            forall vm, homestead, eip155, w, gasLimit, queues, order ::
              Accepted(vm, packer, miner, homestead, eip155, w, gasLimit, queues, order)
  {
    if packer == miner {
      forall vm, homestead, eip155, w, gasLimit, queues, order
        ensures Accepted(vm, packer, miner, homestead, eip155, w, gasLimit, queues, order)
      {
        IndifferentAccepts(vm, packer, miner, homestead, eip155, w, gasLimit, queues, order);
      }
    } else {
      BeneficiaryExample(packer, miner);
    }
  }

  /** The work on a block: the block so far, and the pool. */
  class Work {
    const gasPool: GasPool
    const state: StateDB
    const header: Header
    const homestead: bool
    const eip155: bool
    const vm: Machine
    var gasUsed: Uint64
    var txs: seq<Tx>
    var receipts: seq<Receipt>
    var tcount: nat

    ghost function View(queues: seq<seq<Tx>>): (b: Bench)
      reads this, gasPool, state
    {
      Bench(Progress(state.world, gasPool.gas, gasUsed, receipts), txs, queues)
    }

    constructor (vm: Machine, homestead: bool, eip155: bool, state: StateDB, header: Header)
      ensures fresh(gasPool) && this.state == state && this.header == header && this.vm == vm
      ensures this.homestead == homestead && this.eip155 == eip155 && tcount == 0
      ensures forall queues :: View(queues) == Empty(state.world, header.gasLimit, queues)
    {
      var gp := new GasPool();
      var ok := gp.AddGas(header.gasLimit);
      gasPool, this.state, this.header, this.homestead, this.eip155, this.vm := gp, state, header, homestead, eip155, vm;
      gasUsed, txs, receipts, tcount := 0, [], [], 0;
    }

    /** Pack one transaction. If it fails the state is put back, but not the gas. */
    method CommitTransaction(tx: Tx, coinbase: Account) returns (err: Option<Error>)
      requires SoundMachine(vm)
      modifies this`gasUsed, this`txs, this`receipts, gasPool, state
      ensures var s := TxStep(vm, coinbase, homestead, old(View([]).now), tx);
              && err == s.err
              && View([]) == Bench(if err.None? then s.after else s.after.(world := old(state.world)),
                                   if err.None? then old(txs) + [tx] else old(txs), [])
    {
      var snap := state.world;
      ghost var was := View([]).now;
      var total, receipt;
      err, total, receipt := ApplyTransaction(vm, Some(coinbase), header, homestead, gasPool, state, tx, gasUsed);
      assert was == Progress(old(state.world), old(gasPool.gas), old(gasUsed), old(receipts));
      if err.Some? {
        state.world := snap;
        return;
      }
      gasUsed, txs, receipts := total, txs + [tx], receipts + [receipt];
    }

    /** Pack transactions, from queues by account, in any order between the accounts. */
    method CommitTransactions(queues0: seq<seq<Tx>>, coinbase: Account) returns (ghost order: seq<nat>)
      requires SoundMachine(vm)
      modifies this`gasUsed, this`txs, this`receipts, this`tcount, gasPool, state
      ensures var p := Pack(vm, coinbase, homestead, eip155, old(View(queues0)), order);
              p.Some? && Finished(p.value) && p.value == View(p.value.queues)
      ensures old(txs) <= txs && tcount == old(tcount) + |txs| - |old(txs)|
    {
      var queues: seq<seq<Tx>> := queues0;
      order := [];
      while gasPool.gas >= TX_GAS && exists i :: 0 <= i < |queues| && queues[i] != []
        invariant Pack(vm, coinbase, homestead, eip155, old(View(queues0)), order) == Some(View(queues))
        invariant old(txs) <= txs && tcount == old(tcount) + |txs| - |old(txs)|
        decreases TotalLength(queues)
      {
        var i :| 0 <= i < |queues| && queues[i] != [];
        Shorter(queues, i, []);
        Shorter(queues, i, queues[i][1..]);
        ghost var before := View(queues);
        queues := CommitNext(queues, i, coinbase);
        PackMore(vm, coinbase, homestead, eip155, old(View(queues0)), order, before, i);
        order := order + [i];
      }
    }

    /** Pack the first transaction of a queue, or drop the queue. */
    method CommitNext(queues: seq<seq<Tx>>, i: nat, coinbase: Account) returns (rest: seq<seq<Tx>>)
      requires SoundMachine(vm) && Pickable(View(queues), i)
      modifies this`gasUsed, this`txs, this`receipts, this`tcount, gasPool, state
      ensures View(rest) == Pick(vm, coinbase, homestead, eip155, old(View(queues)), i)
      ensures rest == queues[i := []] || rest == queues[i := queues[i][1..]]
      ensures old(txs) <= txs && tcount == old(tcount) + |txs| - |old(txs)|
    {
      var tx: Tx := queues[i][0];
      if tx.replayProtected && !eip155 {
        return queues[i := []];
      }
      var err := CommitTransaction(tx, coinbase);
      if err == Some(GasLimitReached) || err == Some(NonceTooHigh) {
        rest := queues[i := []];
      } else {
        if err.None? {
          tcount := tcount + 1;
        }
        rest := queues[i := queues[i][1..]];
      }
    }
  }

  lemma PackMore(vm: Machine, ben: Account, homestead: bool, eip155: bool, b: Bench, order: seq<nat>, now: Bench, i: nat)
    requires SoundMachine(vm) && Pack(vm, ben, homestead, eip155, b, order) == Some(now) && Pickable(now, i)
    ensures Pack(vm, ben, homestead, eip155, b, order + [i]) == Some(Pick(vm, ben, homestead, eip155, now, i))
  {
    assert (order + [i])[..|order|] == order;
  }

  /** A block is packed for one beneficiary, and then processed for the coinbase of its final
      header. With the same one, or with a machine that does not care, it is accepted. */
  method PackAndProcess(vm: Machine, homestead: bool, eip155: bool, world: World, packer: Account, header: Header,
                        queues: seq<seq<Tx>>)
    returns (work: Work, err: Option<Error>, receipts: seq<Receipt>, used: Uint64, state: StateDB, ghost order: seq<nat>)
    requires SoundMachine(vm)
    ensures var p := Pack(vm, packer, homestead, eip155, Empty(world, header.gasLimit, queues), order);
            p.Some? && Finished(p.value) && p.value == work.View(p.value.queues)
    ensures err == Fold(vm, header.coinbase, homestead, Progress(world, header.gasLimit, 0, []), work.txs).err
    ensures err.None? ==>
              var r := Fold(vm, header.coinbase, homestead, Progress(world, header.gasLimit, 0, []), work.txs);
              r.after == Progress(state.world, r.after.pool, used, receipts)
    ensures packer == header.coinbase || Indifferent(vm, packer, header.coinbase) ==>
              && err.None? && receipts == work.receipts && used == work.gasUsed && state.world == work.state.world
              && used <= header.gasLimit && |receipts| == |work.txs| && Cumulative(receipts)
  {
    var packed := new StateDB(world);
    work := new Work(vm, homestead, eip155, packed, header);
    order := work.CommitTransactions(queues, packer);
    state := new StateDB(world);
    ghost var pool;
    err, receipts, used, pool := Process(vm, header, homestead, state, work.txs);
    if packer == header.coinbase || Indifferent(vm, packer, header.coinbase) {
      IndifferentAccepts(vm, packer, header.coinbase, homestead, eip155, world, header.gasLimit, queues, order);
    }
  }
}
