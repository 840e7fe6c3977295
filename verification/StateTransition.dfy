/** Applying one message: buy the gas, use it, return what is left. */
module StateTransitions {
  import opened Wrappers
  import opened Sums
  import opened Gas

  datatype Result = Result(used: Uint64, failed: bool, err: Option<Error>)

  /** What some gas costs. */
  function Worth(gas: nat, price: nat): (n: nat) {
    if gas == 0 then 0 else Worth(gas - 1, price) + price
  }

  lemma {:induction false} WorthIs(gas: nat, price: nat)
    ensures Worth(gas, price) == gas * price
  {
    if gas > 0 {
      WorthIs(gas - 1, price);
    }
  }

  /** Gas bought in two parts costs the same. */
  lemma {:induction false} WorthAdds(a: nat, b: nat, price: nat)
    ensures Worth(a + b, price) == Worth(a, price) + Worth(b, price)
  {
    if b > 0 {
      WorthAdds(a, b - 1, price);
    }
  }

  class StateDB {
    var world: World

    constructor (w: World)
      ensures world == w
    {
      world := w;
    }

    /** Take from a balance that suffices. */
    method SubBalance(a: Account, n: nat)
      requires n <= Amount(world.balances, a)
      modifies this
      ensures world == Paid(old(world), a, n)
      ensures Sum(world.balances) == Sum(old(world.balances)) - n
    {
      SumPut(world.balances, a, Amount(world.balances, a) - n);
      world := world.(balances := world.balances[a := Amount(world.balances, a) - n]);
    }

    method AddBalance(a: Account, n: nat)
      modifies this
      ensures world == Credited(old(world), a, n)
      ensures Sum(world.balances) == Sum(old(world.balances)) + n
    {
      SumPut(world.balances, a, Amount(world.balances, a) + n);
      world := world.(balances := world.balances[a := Amount(world.balances, a) + n]);
    }

    /** The end of a transaction: the refunds counted for it are forgotten. */
    method Finalise()
      modifies this
      ensures world == Finalised(old(world))
    {
      world := world.(refund := 0);
    }
  }

  function Finalised(w: World): (r: World) { w.(refund := 0) }

  function Paid(w: World, a: Account, n: nat): (r: World)
    requires n <= Amount(w.balances, a)
  {
    w.(balances := w.balances[a := Amount(w.balances, a) - n])
  }

  function Credited(w: World, a: Account, n: nat): (r: World) {
    w.(balances := w.balances[a := Amount(w.balances, a) + n])
  }

  /** Some further payment has a payload whose intrinsic gas does not fit in 64 bits. */
  predicate ExtraOverflows(extra: seq<Payment>, homestead: bool) {
    exists i :: 0 <= i < |extra| && Cost(extra[i].payload, extra[i].recipient.None?, homestead) > MAX_UINT64
  }

  /** A sum in 64 bits. */
  function Add64(a: Uint64, b: nat): (c: Uint64) { (a + b) % (MAX_UINT64 + 1) }

  /** The intrinsic gas of the further payments, added up in 64 bits. */
  function AddedUp(gas: Uint64, extra: seq<Payment>, homestead: bool): (g: Uint64)
    decreases |extra|
  {
    if extra == [] then gas
    else AddedUp(Add64(gas, Cost(extra[0].payload, extra[0].recipient.None?, homestead)), extra[1..], homestead)
  }

  /** Why a message is refused before any gas is bought. */
  function Refusal(w: World, pool: Uint64, m: Message): (e: Option<Error>) {
    if m.checkNonce && Amount(w.nonces, m.from) < m.nonce then Some(NonceTooHigh)
    else if m.checkNonce && Amount(w.nonces, m.from) > m.nonce then Some(NonceTooLow)
    else if Amount(w.balances, m.from) < Worth(m.gas, m.gasPrice) then Some(InsufficientBalanceForGas)
    else if pool < m.gas then Some(GasLimitReached)
    else None
  }

  /** The gas used by the machine, and the part of it that is refunded. */
  function Refund(m: Message, o: Outcome): (r: nat)
    requires o.gas <= m.gas
    ensures 2 * r <= m.gas - o.gas
  {
    var half := (m.gas - o.gas) / 2;
    if half > o.world.refund then o.world.refund else half
  }

  /** What a message has to pay before it is executed. */
  function Intrinsic(m: Message, homestead: bool): (g: Uint64)
    requires Cost(m.main.payload, m.main.recipient.None?, homestead) <= MAX_UINT64
  {
    AddedUp(Cost(m.main.payload, m.main.recipient.None?, homestead), m.extra, homestead)
  }

  /** The result of a message that is not executed although its gas is bought. */
  function Stops(m: Message, homestead: bool): (r: Option<Result>)
    ensures r.None? ==> Cost(m.main.payload, m.main.recipient.None?, homestead) <= MAX_UINT64 && Intrinsic(m, homestead) <= m.gas
  {
    if Cost(m.main.payload, m.main.recipient.None?, homestead) > MAX_UINT64 then Some(Result(0, false, Some(OutOfGas)))
    else if |m.extra| > TX_COUNT - 1 then Some(Result(0, false, Some(TxCountOverflow)))
    else if ExtraOverflows(m.extra, homestead) then Some(Result(0, false, None))
    else if m.gas < Intrinsic(m, homestead) then Some(Result(0, false, Some(OutOfGas)))
    else None
  }

  /** The message is executed with what the intrinsic gas leaves of its gas. */
  function Executed(evm: Evm, w: World, m: Message, homestead: bool): (o: Outcome)
    requires Worth(m.gas, m.gasPrice) <= Amount(w.balances, m.from) && Stops(m, homestead).None?
  {
    Execute(evm, Paid(w, m.from, Worth(m.gas, m.gasPrice)), m, m.gas - Intrinsic(m, homestead))
  }

  class StateTransition {
    const gp: GasPool
    const state: StateDB
    const msg: Message
    const homestead: bool
    var gas: Uint64
    var initialGas: Uint64

    constructor (gp: GasPool, state: StateDB, msg: Message, homestead: bool)
      ensures this.gp == gp && this.state == state && this.msg == msg && this.homestead == homestead
      ensures gas == initialGas == 0
    {
      this.gp, this.state, this.msg, this.homestead := gp, state, msg, homestead;
      gas, initialGas := 0, 0;
    }

    method BuyGas() returns (err: Option<Error>)
      requires gas == 0
      modifies this, gp, state
      ensures err.Some? ==> gp.gas == old(gp.gas) && state.world == old(state.world)
      ensures err == if Amount(old(state.world.balances), msg.from) < Worth(msg.gas, msg.gasPrice) then Some(InsufficientBalanceForGas)
                     else if old(gp.gas) < msg.gas then Some(GasLimitReached) else None
      ensures err.None? ==>
                && gas == initialGas == msg.gas && gp.gas == old(gp.gas) - msg.gas
                && Worth(msg.gas, msg.gasPrice) <= Amount(old(state.world.balances), msg.from)
                && state.world == Paid(old(state.world), msg.from, Worth(msg.gas, msg.gasPrice))
                && Sum(state.world.balances) == Sum(old(state.world.balances)) - Worth(msg.gas, msg.gasPrice)
    {
      var mgval := msg.gas * msg.gasPrice;
      WorthIs(msg.gas, msg.gasPrice);
      if Amount(state.world.balances, msg.from) < mgval {
        return Some(InsufficientBalanceForGas);
      }
      err := gp.SubGas(msg.gas);
      if err.Some? {
        return;
      }
      gas := gas + msg.gas;
      initialGas := msg.gas;
      state.SubBalance(msg.from, mgval);
    }

    method PreCheck() returns (err: Option<Error>)
      requires gas == 0
      modifies this, gp, state
      ensures err == Refusal(old(state.world), old(gp.gas), msg)
      ensures err.Some? ==> gp.gas == old(gp.gas) && state.world == old(state.world)
      ensures err.None? ==>
                && gas == initialGas == msg.gas && gp.gas == old(gp.gas) - msg.gas
                && Worth(msg.gas, msg.gasPrice) <= Amount(old(state.world.balances), msg.from)
                && state.world == Paid(old(state.world), msg.from, Worth(msg.gas, msg.gasPrice))
                && Sum(state.world.balances) == Sum(old(state.world.balances)) - Worth(msg.gas, msg.gasPrice)
    {
      if msg.checkNonce {
        var nonce := Amount(state.world.nonces, msg.from);
        if nonce < msg.nonce {
          return Some(NonceTooHigh);
        } else if nonce > msg.nonce {
          return Some(NonceTooLow);
        }
      }
      err := BuyGas();
    }

    method UseGas(amount: Uint64) returns (err: Option<Error>)
      modifies this`gas
      ensures err == if old(gas) < amount then Some(OutOfGas) else None
      ensures gas == if err.None? then old(gas) - amount else old(gas)
    {
      if gas < amount {
        return Some(OutOfGas);
      }
      gas := gas - amount;
      err := None;
    }

    function GasUsed(): (n: int)
      reads this
    {
      initialGas - gas
    }

    /** Give back what is left of the gas, with the refund on top: to the sender at the
        price paid, and to the pool. The pool does not overflow. */
    method RefundGas()
      requires gas <= initialGas && gp.gas + initialGas <= MAX_UINT64
      modifies this`gas, gp, state
      ensures var half := (initialGas - old(gas)) / 2;
              gas == old(gas) + if half > old(state.world.refund) then old(state.world.refund) else half
      ensures gas <= initialGas && gp.gas == old(gp.gas) + gas
      ensures state.world == Credited(old(state.world), msg.from, Worth(gas, msg.gasPrice))
      ensures Sum(state.world.balances) == Sum(old(state.world.balances)) + Worth(gas, msg.gasPrice)
    {
      var refund := GasUsed() / 2;
      if refund > state.world.refund {
        refund := state.world.refund;
      }
      gas := gas + refund;
      var remaining := gas * msg.gasPrice;
      WorthIs(gas, msg.gasPrice);
      state.AddBalance(msg.from, remaining);
      var ok := gp.AddGas(gas);
      assert ok;
    }

    /** The intrinsic gas of the further payments on top of the first. None if one of
        them does not fit. */
    method ExtraGas(first: Uint64) returns (r: Option<Uint64>)
      ensures r == if ExtraOverflows(msg.extra, homestead) then None else Some(AddedUp(first, msg.extra, homestead))
    {
      var total: Uint64, i := first, 0;
      while i < |msg.extra|
        invariant 0 <= i <= |msg.extra| && !ExtraOverflows(msg.extra[..i], homestead)
        invariant AddedUp(first, msg.extra, homestead) == AddedUp(total, msg.extra[i..], homestead)
      {
        var ex := msg.extra[i];
        var t := IntrinsicGas(ex.payload, ex.recipient.None?, homestead);
        if t.None? {
          return None;
        }
        assert msg.extra[i..][0] == ex && msg.extra[i..][1..] == msg.extra[i + 1..];
        assert msg.extra[..i + 1] == msg.extra[..i] + [ex];
        total := Add64(total, t.value);
        i := i + 1;
      }
      assert msg.extra[..i] == msg.extra;
      r := Some(total);
    }

    /** The payments, up to the first that fails. */
    method RunPayments(evm: Evm) returns (failed: bool, short: bool)
      modifies this`gas, state
      ensures var o := Execute(evm, old(state.world), msg, old(gas));
              state.world == o.world && gas == o.gas && failed == o.failed && short == o.short
    {
      var w := state.world;
      if msg.main.recipient.Some? {
        w := w.(nonces := w.nonces[msg.from := Amount(w.nonces, msg.from) + 1]);
      }
      var o := evm(w, msg.from, msg.main, gas);
      state.world, gas, failed, short := o.world, o.gas, o.failed, o.short;
      if !failed {
        var i := 0;
        short := false;
        ghost var goal := Pay(evm, o.world, msg.from, msg.extra, o.gas);
        while i < |msg.extra| && !failed
          invariant 0 <= i <= |msg.extra| && (failed ==> goal == Outcome(state.world, gas, failed, short))
          invariant !failed ==> !short && goal == Pay(evm, state.world, msg.from, msg.extra[i..], gas)
        {
          o := evm(state.world, msg.from, msg.extra[i], gas);
          assert msg.extra[i..][0] == msg.extra[i] && msg.extra[i..][1..] == msg.extra[i + 1..];
          state.world, gas, failed := o.world, o.gas, o.failed;
          short := failed && o.short;
          i := i + 1;
        }
      }
    }

    /** Up to the execution: buy the gas and pay the intrinsic gas. `stop` is the result if
        it ends here. */
    method Prepare() returns (stop: Option<Result>)
      requires gas == 0
      modifies this, gp, state
      ensures Refusal(old(state.world), old(gp.gas), msg).Some? ==>
                && stop == Some(Result(0, false, Refusal(old(state.world), old(gp.gas), msg)))
                && gp.gas == old(gp.gas) && state.world == old(state.world)
      ensures Refusal(old(state.world), old(gp.gas), msg).None? ==>
                && gp.gas == old(gp.gas) - msg.gas && initialGas == msg.gas
                && Worth(msg.gas, msg.gasPrice) <= Amount(old(state.world.balances), msg.from)
                && state.world == Paid(old(state.world), msg.from, Worth(msg.gas, msg.gasPrice))
                && stop == Stops(msg, homestead)
                && (stop.None? ==> gas == msg.gas - Intrinsic(msg, homestead))
    {
      var err := PreCheck();
      if err.Some? {
        return Some(Result(0, false, err));
      }
      var first := IntrinsicGas(msg.main.payload, msg.main.recipient.None?, homestead);
      if first.None? {
        return Some(Result(0, false, Some(OutOfGas)));
      }
      if |msg.extra| > TX_COUNT - 1 {
        return Some(Result(0, false, Some(TxCountOverflow)));
      }
      var total := ExtraGas(first.value);
      if total.None? {
        return Some(Result(0, false, None));
      }
      err := UseGas(total.value);
      stop := if err.Some? then Some(Result(0, false, err)) else None;
    }

    /** Execute the message and return what is left of its gas. */
    method Conclude(evm: Evm) returns (r: Result)
      requires gas <= initialGas == msg.gas && gp.gas + msg.gas <= MAX_UINT64
      requires Execute(evm, state.world, msg, gas).gas <= msg.gas
      requires Execute(evm, state.world, msg, gas).short ==> Execute(evm, state.world, msg, gas).failed
      modifies this`gas, gp, state
      ensures var o := Execute(evm, old(state.world), msg, old(gas));
              Applied(r, gp.gas, state.world) == Concluded(o, old(gp.gas), msg)
    {
      var failed, short := RunPayments(evm);
      if failed && short {
        return Result(0, false, Some(InsufficientBalance));
      }
      RefundGas();
      r := Result(GasUsed(), failed, None);
    }

    method TransitionDb(evm: Evm) returns (r: Result)
      requires gas == 0 && Sound(evm)
      modifies this, gp, state
      ensures Applied(r, gp.gas, state.world) == Apply(evm, old(state.world), old(gp.gas), msg, homestead)
    {
      ExecuteBounds(evm, state.world, gp.gas, msg, homestead);
      var stop := Prepare();
      if stop.Some? {
        return stop.value;
      }
      r := Conclude(evm);
    }
  }

  /** What comes back after the execution, unless it failed for lack of balance. */
  function Concluded(o: Outcome, pool: Uint64, m: Message): (a: Applied)
    requires o.gas <= m.gas && pool + m.gas <= MAX_UINT64
  {
    if o.short then Applied(Result(0, false, Some(InsufficientBalance)), pool, o.world)
    else
      var rest := o.gas + Refund(m, o);
      Applied(Result(m.gas - rest, o.failed, None), pool + rest, Credited(o.world, m.from, Worth(rest, m.gasPrice)))
  }

  /** The result, the pool and the world after a message. */
  datatype Applied = Applied(result: Result, pool: Uint64, world: World)

  /** A refused message changes nothing. A message that is bought but not executed to the
      end is charged in full. After any other what is left of the gas, and the refund, go
      back. */
  function Apply(evm: Evm, w: World, pool: Uint64, m: Message, homestead: bool): (a: Applied)
    requires Sound(evm)
  {
    if Refusal(w, pool, m).Some? then Applied(Result(0, false, Refusal(w, pool, m)), pool, w)
    else if Stops(m, homestead).Some?
    then Applied(Stops(m, homestead).value, pool - m.gas, Paid(w, m.from, Worth(m.gas, m.gasPrice)))
    else
      ExecuteBounds(evm, w, pool, m, homestead);
      Concluded(Executed(evm, w, m, homestead), pool - m.gas, m)
  }

  lemma ExecuteBounds(evm: Evm, w: World, pool: Uint64, m: Message, homestead: bool)
    requires Sound(evm)
    ensures Refusal(w, pool, m).None? && Stops(m, homestead).None? ==>
              var o := Executed(evm, w, m, homestead);
              && o.gas <= m.gas - Intrinsic(m, homestead) && (o.short ==> o.failed)
              && (Conserving(evm) ==> Sum(o.world.balances) == Sum(Paid(w, m.from, Worth(m.gas, m.gasPrice)).balances))
  {
    if Refusal(w, pool, m).None? && Stops(m, homestead).None? {
      ExecuteSound(evm, Paid(w, m.from, Worth(m.gas, m.gasPrice)), m, m.gas - Intrinsic(m, homestead));
    }
  }

  /** The pool loses exactly the gas used, by every message that is applied without error:
      if and only if no further payment of it overflows, or it has no gas. A message with
      one that does counts as one that used no gas, and all its gas is lost. What is used
      is at least half the intrinsic gas. */
  lemma GasConserved(evm: Evm, w: World, pool: Uint64, m: Message, homestead: bool)
    requires Sound(evm) && Apply(evm, w, pool, m, homestead).result.err.None?
    ensures var a := Apply(evm, w, pool, m, homestead);
            && (a.pool == pool - a.result.used <==> !ExtraOverflows(m.extra, homestead) || m.gas == 0)
            && (ExtraOverflows(m.extra, homestead) ==> a.result.used == 0 && a.pool == pool - m.gas)
            && (!ExtraOverflows(m.extra, homestead) ==> Intrinsic(m, homestead) <= 2 * a.result.used <= 2 * m.gas)
  {
    ExecuteBounds(evm, w, pool, m, homestead);
  }

  /** The machine does not touch the balance of the sender, who has paid for the gas. */
  predicate SparesSender(evm: Evm, w: World, m: Message, homestead: bool)
    requires Worth(m.gas, m.gasPrice) <= Amount(w.balances, m.from)
  {
    Stops(m, homestead).None? ==>
      Amount(Executed(evm, w, m, homestead).world.balances, m.from) == Amount(w.balances, m.from) - Worth(m.gas, m.gasPrice)
  }

  /** What the world loses: the price of the gas used, or of all the gas if a further
      payment overflows. It is the sender who pays it. */
  lemma ValueConserved(evm: Evm, w: World, pool: Uint64, m: Message, homestead: bool)
    requires Sound(evm) && Conserving(evm) && Apply(evm, w, pool, m, homestead).result.err.None?
    ensures var a := Apply(evm, w, pool, m, homestead);
            var lost := if ExtraOverflows(m.extra, homestead) then m.gas else a.result.used;
            && Sum(a.world.balances) == Sum(w.balances) - Worth(lost, m.gasPrice)
            && Worth(m.gas, m.gasPrice) <= Amount(w.balances, m.from)
            && (SparesSender(evm, w, m, homestead) ==>
                  Amount(a.world.balances, m.from) == Amount(w.balances, m.from) - Worth(lost, m.gasPrice))
  {
    SumPut(w.balances, m.from, Amount(w.balances, m.from) - Worth(m.gas, m.gasPrice));
    if Stops(m, homestead).None? {
      ExecuteBounds(evm, w, pool, m, homestead);
      PaidValue(Executed(evm, w, m, homestead), w, pool - m.gas, m);
    }
  }

  lemma PaidValue(o: Outcome, w: World, pool: Uint64, m: Message)
    requires o.gas <= m.gas && pool + m.gas <= MAX_UINT64 && !o.short && Worth(m.gas, m.gasPrice) <= Amount(w.balances, m.from)
    requires Sum(o.world.balances) == Sum(Paid(w, m.from, Worth(m.gas, m.gasPrice)).balances)
    ensures var a := Concluded(o, pool, m);
            && Sum(a.world.balances) == Sum(w.balances) - Worth(a.result.used, m.gasPrice)
            && (Amount(o.world.balances, m.from) == Amount(w.balances, m.from) - Worth(m.gas, m.gasPrice) ==>
                  Amount(a.world.balances, m.from) == Amount(w.balances, m.from) - Worth(a.result.used, m.gasPrice))
  {
    SumPut(w.balances, m.from, Amount(w.balances, m.from) - Worth(m.gas, m.gasPrice));
    ConcludedValue(o, pool, m);
  }

  lemma ConcludedValue(o: Outcome, pool: Uint64, m: Message)
    requires o.gas <= m.gas && pool + m.gas <= MAX_UINT64 && !o.short
    ensures var a := Concluded(o, pool, m);
            && Sum(a.world.balances) == Sum(o.world.balances) + Worth(m.gas, m.gasPrice) - Worth(a.result.used, m.gasPrice)
            && Amount(a.world.balances, m.from) ==
               Amount(o.world.balances, m.from) + Worth(m.gas, m.gasPrice) - Worth(a.result.used, m.gasPrice)
  {
    var rest := o.gas + Refund(m, o);
    SumPut(o.world.balances, m.from, Amount(o.world.balances, m.from) + Worth(rest, m.gasPrice));
    WorthAdds(rest, m.gas - rest, m.gasPrice);
  }

  /** n bytes, none of them zero. */
  function Ones(n: nat): (s: seq<Byte>) { seq(n, i => 1) }

  lemma {:induction false} OnesCost(n: nat)
    ensures NonZero(Ones(n)) == n
  {
    if n > 0 {
      OnesCost(n - 1);
      assert Ones(n)[..n - 1] == Ones(n - 1);
    }
  }

  /** A message with such a payment: it succeeds without using gas, and the pool and the
      sender lose all of it. The payload has 2^60 bytes, and the least that overflows has
      about 2^58, so this is a flaw of the text that no process can run into. */
  lemma OverflowExample(evm: Evm)
    requires Sound(evm)
    ensures var m := Message(0, 0, false, 100, 1, Payment(Some(1), [], 0), [Payment(Some(2), Ones(0x1000_0000_0000_0000), 0)]);
            var a := Apply(evm, World(map[0 := 100], map[], 0, []), 100, m, true);
            a.result == Result(0, false, None) && a.pool == 0 && a.world.balances[0] == 0
  {
    var ex := Payment(Some(2), Ones(0x1000_0000_0000_0000), 0);
    OnesCost(0x1000_0000_0000_0000);
    WorthIs(100, 1);
    assert Cost(ex.payload, false, true) > MAX_UINT64;
    assert [ex][0] == ex;
    assert ExtraOverflows([ex], true);
    assert NonZero([]) == 0;
  }

  /** A message that ends in an error uses no gas in name: it lowers the pool by nothing if
      it was refused, and else by all its gas. */
  lemma GasOnError(evm: Evm, w: World, pool: Uint64, m: Message, homestead: bool)
    requires Sound(evm) && Apply(evm, w, pool, m, homestead).result.err.Some?
    ensures var a := Apply(evm, w, pool, m, homestead);
            && a.result.used == 0
            && a.pool == (if Refusal(w, pool, m).Some? then pool else pool - m.gas)
            && (Refusal(w, pool, m).Some? ==> a.world == w)
  {
  }
}
