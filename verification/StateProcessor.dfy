/** Applying the transactions of a block, and packing transactions into one. */
module StateProcessors {
  import opened Wrappers
  import opened Sums
  import opened Gas
  import opened StateTransitions

  /** `special` transactions are not executed. */
  datatype Tx = Tx(msg: Message, special: bool, replayProtected: bool)

  datatype Receipt = Receipt(failed: bool, cumulative: Uint64, gasUsed: Uint64)

  // ------------------------------------------------------------ one transaction

  /** The world, the gas left in the pool, the gas used so far and the receipts. */
  datatype Progress = Progress(world: World, pool: Uint64, used: Uint64, receipts: seq<Receipt>)

  /** What one transaction does in a block. */
  datatype Step = Step(err: Option<Error>, after: Progress)

  /** The machine for a message in a block whose fees go to `ben`. */
  function Booted(vm: Machine, ben: Account, m: Message): (evm: Evm) { vm(Context(ben, m.gasPrice)) }

  function TxStep(vm: Machine, ben: Account, homestead: bool, s: Progress, tx: Tx): (r: Step)
    requires SoundMachine(vm)
  {
    if tx.special
    then Step(None, s.(world := Finalised(s.world), receipts := s.receipts + [NewReceipt(vm, ben, homestead, s, tx)]))
    else Entered(s, Apply(Booted(vm, ben, tx.msg), s.world, s.pool, tx.msg, homestead))
  }

  /** A message that was applied enters the block, unless it failed. */
  function Entered(s: Progress, a: Applied): (r: Step) {
    if a.result.err.Some? then Step(a.result.err, s.(world := a.world, pool := a.pool))
    else
      var x := ReceiptOf(s, a);
      Step(None, Progress(Finalised(a.world), a.pool, x.cumulative, s.receipts + [x]))
  }

  function ReceiptOf(s: Progress, a: Applied): (x: Receipt) {
    Receipt(a.result.failed, Add64(s.used, a.result.used), a.result.used)
  }

  function NewReceipt(vm: Machine, ben: Account, homestead: bool, s: Progress, tx: Tx): (x: Receipt)
    requires SoundMachine(vm)
  {
    if tx.special then Receipt(true, s.used, 0)
    else ReceiptOf(s, Apply(Booted(vm, ben, tx.msg), s.world, s.pool, tx.msg, homestead))
  }

  /** Gas that a transaction takes from the pool without using it, though it succeeds. */
  function Lost(tx: Tx, homestead: bool): (n: nat) {
    if !tx.special && ExtraOverflows(tx.msg.extra, homestead) then tx.msg.gas else 0
  }

  lemma ApplyGas(evm: Evm, homestead: bool, w: World, pool: Uint64, m: Message)
    requires Sound(evm)
    ensures var a := Apply(evm, w, pool, m, homestead);
            if a.result.err.Some? then a.pool <= pool
            else a.pool + a.result.used + (if ExtraOverflows(m.extra, homestead) then m.gas else 0) == pool
  {
    if Apply(evm, w, pool, m, homestead).result.err.None? {
      GasConserved(evm, w, pool, m, homestead);
    } else {
      GasOnError(evm, w, pool, m, homestead);
    }
  }

  lemma EnteredGas(s: Progress, a: Applied, lost: nat)
    requires s.pool + s.used <= MAX_UINT64
    requires if a.result.err.Some? then a.pool <= s.pool else a.pool + a.result.used + lost == s.pool
    ensures var r := Entered(s, a);
            && r.after.pool + r.after.used <= s.pool + s.used
            && (r.err.Some? ==> r.after.used == s.used && r.after.receipts == s.receipts)
            && (r.err.None? ==>
                  var x := ReceiptOf(s, a);
                  && r.after.pool + r.after.used + lost == s.pool + s.used
                  && r.after.receipts == s.receipts + [x] && x.cumulative == s.used + x.gasUsed == r.after.used)
  {
  }

  /** A transaction takes from the pool what it uses and loses; the sum in its receipt does
      not wrap around, and no refund is left for the next one. */
  lemma TxStepGas(vm: Machine, ben: Account, homestead: bool, s: Progress, tx: Tx)
    requires SoundMachine(vm) && s.pool + s.used <= MAX_UINT64
    ensures var r := TxStep(vm, ben, homestead, s, tx);
            && r.after.pool + r.after.used <= s.pool + s.used
            && (r.err.Some? ==> r.after.used == s.used && r.after.receipts == s.receipts)
            && (r.err.None? ==>
                  var x := NewReceipt(vm, ben, homestead, s, tx);
                  && r.after.pool + r.after.used + Lost(tx, homestead) == s.pool + s.used && r.after.world.refund == 0
                  && r.after.receipts == s.receipts + [x] && x.cumulative == s.used + x.gasUsed == r.after.used)
  {
    if tx.special {
      assert NewReceipt(vm, ben, homestead, s, tx) == Receipt(true, s.used, 0);
    } else {
      ApplyGas(Booted(vm, ben, tx.msg), homestead, s.world, s.pool, tx.msg);
      EnteredGas(s, Apply(Booted(vm, ben, tx.msg), s.world, s.pool, tx.msg, homestead), Lost(tx, homestead));
    }
  }

  /** With more gas in the pool, a transaction that succeeded does the same. */
  lemma TxStepMore(vm: Machine, ben: Account, homestead: bool, s: Progress, t: Progress, tx: Tx)
    requires SoundMachine(vm) && t == s.(pool := t.pool) && t.pool >= s.pool && TxStep(vm, ben, homestead, s, tx).err.None?
    ensures var r, q := TxStep(vm, ben, homestead, s, tx), TxStep(vm, ben, homestead, t, tx);
            q.err.None? && q.after == r.after.(pool := q.after.pool) && q.after.pool - r.after.pool == t.pool - s.pool
  {
    if !tx.special {
      ExecuteBounds(Booted(vm, ben, tx.msg), s.world, s.pool, tx.msg, homestead);
      ExecuteBounds(Booted(vm, ben, tx.msg), t.world, t.pool, tx.msg, homestead);
    }
  }

  /** What matters here of the header of a block. */
  datatype Header = Header(coinbase: Account, gasLimit: Uint64)

  /** Who gets the fees: an author that is given, or else the coinbase of the header. */
  function Beneficiary(author: Option<Account>, header: Header): (ben: Account) {
    if author.Some? then author.value else header.coinbase
  }

  method ApplyTransaction(vm: Machine, author: Option<Account>, header: Header, homestead: bool, gp: GasPool, state: StateDB,
                          tx: Tx, used: Uint64)
    returns (err: Option<Error>, total: Uint64, receipt: Receipt)
    requires SoundMachine(vm)
    modifies gp, state
    ensures forall rs: seq<Receipt> {:trigger Progress(old(state.world), old(gp.gas), used, rs)} ::
              TxStep(vm, Beneficiary(author, header), homestead, Progress(old(state.world), old(gp.gas), used, rs), tx) ==
              Step(err, Progress(state.world, gp.gas, total, if err.None? then rs + [receipt] else rs))
  {
    var gas: Uint64, failed := 0, true;
    receipt := Receipt(false, 0, 0);
    total := used;
    err := None;
    if !tx.special {
      var st := new StateTransition(gp, state, tx.msg, homestead);
      var r := st.TransitionDb(Booted(vm, Beneficiary(author, header), tx.msg));
      gas, failed, err := r.used, r.failed, r.err;
      if err.Some? {
        return;
      }
    }
    state.Finalise();
    total := Add64(total, gas);
    receipt := Receipt(failed, total, gas);
  }

  // -------------------------------------------------------------- a block

  /** The transactions of a block one after the other, up to the first error. */
  function Fold(vm: Machine, ben: Account, homestead: bool, start: Progress, txs: seq<Tx>): (r: Step)
    requires SoundMachine(vm)
  {
    if txs == [] then Step(None, start)
    else
      var r := Fold(vm, ben, homestead, start, txs[..|txs| - 1]);
      if r.err.Some? then r else TxStep(vm, ben, homestead, r.after, txs[|txs| - 1])
  }

  function LostBy(txs: seq<Tx>, homestead: bool): (n: nat) {
    if txs == [] then 0 else LostBy(txs[..|txs| - 1], homestead) + Lost(txs[|txs| - 1], homestead)
  }

  /** A receipt has the sum of the gas used so far. */
  predicate SumAt(rs: seq<Receipt>, i: nat)
    requires i < |rs|
  {
    rs[i].cumulative == (if i == 0 then 0 else rs[i - 1].cumulative) + rs[i].gasUsed
  }

  predicate Cumulative(rs: seq<Receipt>) {
    forall i :: 0 <= i < |rs| ==> SumAt(rs, i)
  }

  lemma CumulativeGrows(rs: seq<Receipt>, r: Receipt)
    requires Cumulative(rs) && r.cumulative == Last(rs) + r.gasUsed
    ensures Cumulative(rs + [r]) && Last(rs + [r]) == r.cumulative
  {
    forall i | 0 <= i < |rs| + 1 ensures SumAt(rs + [r], i) {
      assert i < |rs| ==> SumAt(rs, i);
    }
  }

  function Last(rs: seq<Receipt>): (n: Uint64) { if rs == [] then 0 else rs[|rs| - 1].cumulative }

  /** The pool and the gas used make up the gas limit, but for gas that is lost; and no
      refund is carried from one transaction to the next. */
  lemma {:induction false} FoldGas(vm: Machine, ben: Account, homestead: bool, start: Progress, txs: seq<Tx>)
    requires SoundMachine(vm) && start.used == 0 && start.receipts == []
    ensures var r := Fold(vm, ben, homestead, start, txs);
            r.err.None? ==>
              && r.after.pool + r.after.used + LostBy(txs, homestead) == start.pool
              && |r.after.receipts| == |txs| && Cumulative(r.after.receipts) && Last(r.after.receipts) == r.after.used
              && (txs != [] ==> r.after.world.refund == 0)
    decreases |txs|
  {
    if txs != [] {
      var r := Fold(vm, ben, homestead, start, txs[..|txs| - 1]);
      FoldGas(vm, ben, homestead, start, txs[..|txs| - 1]);
      if r.err.None? {
        TxStepGas(vm, ben, homestead, r.after, txs[|txs| - 1]);
        var q := TxStep(vm, ben, homestead, r.after, txs[|txs| - 1]);
        if q.err.None? {
          CumulativeGrows(r.after.receipts, NewReceipt(vm, ben, homestead, r.after, txs[|txs| - 1]));
        }
      }
    }
  }

  /** The transactions of a block as the header has it, with its coinbase as beneficiary. */
  method Process(vm: Machine, header: Header, homestead: bool, state: StateDB, txs: seq<Tx>)
    returns (err: Option<Error>, receipts: seq<Receipt>, used: Uint64, ghost pool: Uint64)
    requires SoundMachine(vm)
    modifies state
    ensures err == Fold(vm, header.coinbase, homestead, Progress(old(state.world), header.gasLimit, 0, []), txs).err
    ensures err.None? ==>
              Progress(state.world, pool, used, receipts) ==
              Fold(vm, header.coinbase, homestead, Progress(old(state.world), header.gasLimit, 0, []), txs).after
    ensures err.None? ==> pool + used + LostBy(txs, homestead) == header.gasLimit && |receipts| == |txs| && Cumulative(receipts)
    ensures err.Some? ==> receipts == [] && used == 0
  {
    var gp := new GasPool();
    var ok := gp.AddGas(header.gasLimit);
    ghost var start := Progress(state.world, header.gasLimit, 0, []);
    receipts, used, err, pool := [], 0, None, header.gasLimit;
    var i := 0;
    while i < |txs|
      invariant 0 <= i <= |txs| && fresh(gp)
      invariant Fold(vm, header.coinbase, homestead, start, txs[..i]) == Step(None, Progress(state.world, gp.gas, used, receipts))
    {
      ghost var before := Progress(state.world, gp.gas, used, receipts);
      var e, total, receipt := ApplyTransaction(vm, None, header, homestead, gp, state, txs[i], used);
      FoldMore(vm, header.coinbase, homestead, start, txs, i);
      if e.Some? {
        FoldError(vm, header.coinbase, homestead, start, txs, i + 1);
        return e, [], 0, 0;
      }
      used, receipts := total, receipts + [receipt];
      i := i + 1;
    }
    assert txs[..i] == txs;
    FoldGas(vm, header.coinbase, homestead, start, txs);
    pool := gp.gas;
  }

  lemma FoldMore(vm: Machine, ben: Account, homestead: bool, start: Progress, txs: seq<Tx>, i: nat)
    requires SoundMachine(vm) && i < |txs| && Fold(vm, ben, homestead, start, txs[..i]).err.None?
    ensures Fold(vm, ben, homestead, start, txs[..i + 1]) ==
            TxStep(vm, ben, homestead, Fold(vm, ben, homestead, start, txs[..i]).after, txs[i])
  {
    assert txs[..i + 1][..i] == txs[..i];
  }

  lemma {:induction false} FoldError(vm: Machine, ben: Account, homestead: bool, start: Progress, txs: seq<Tx>, i: nat)
    requires SoundMachine(vm) && i <= |txs| && Fold(vm, ben, homestead, start, txs[..i]).err.Some?
    ensures Fold(vm, ben, homestead, start, txs) == Fold(vm, ben, homestead, start, txs[..i])
    decreases |txs|
  {
    if i == |txs| {
      assert txs[..i] == txs;
    } else {
      assert txs[..|txs| - 1][..i] == txs[..i];
      FoldError(vm, ben, homestead, start, txs[..|txs| - 1], i);
    }
  }
}
