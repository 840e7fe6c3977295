/** What a message costs, and the gas pool of a block. */
module Gas {
  import opened Wrappers
  import opened Sums

  const TX_GAS := 21000
  const TX_GAS_CONTRACT_CREATION := 53000
  const TX_DATA_ZERO_GAS := 4
  const TX_DATA_NON_ZERO_GAS := 68
  const TX_COUNT := 1000

  type Byte = b: int | 0 <= b < 256

  datatype Error = NonceTooHigh | NonceTooLow | InsufficientBalanceForGas | GasLimitReached | OutOfGas
    | TxCountOverflow | InsufficientBalance

  // ---------------------------------------------------------- the gas pool

  class GasPool {
    var gas: Uint64

    constructor ()
      ensures gas == 0
    {
      gas := 0;
    }

    /** Make gas available; false stands for the panic on overflow. */
    method AddGas(amount: Uint64) returns (ok: bool)
      modifies this
      ensures ok <==> old(gas) + amount <= MAX_UINT64
      ensures gas == if ok then old(gas) + amount else old(gas)
    {
      if gas > MAX_UINT64 - amount {
        return false;
      }
      gas := gas + amount;
      ok := true;
    }

    method SubGas(amount: Uint64) returns (err: Option<Error>)
      modifies this
      ensures err == if old(gas) < amount then Some(GasLimitReached) else None
      ensures gas == if err.None? then old(gas) - amount else old(gas)
    {
      if gas < amount {
        return Some(GasLimitReached);
      }
      gas := gas - amount;
      err := None;
    }
  }

  // --------------------------------------------------------- intrinsic gas

  function NonZero(data: seq<Byte>): (n: nat)
    ensures n <= |data|
  {
    if data == [] then 0 else NonZero(data[..|data| - 1]) + if data[|data| - 1] != 0 then 1 else 0
  }

  /** The intrinsic gas of a payload, in unbounded numbers. */
  function Cost(data: seq<Byte>, creation: bool, homestead: bool): (g: nat) {
    (if creation && homestead then TX_GAS_CONTRACT_CREATION else TX_GAS)
    + NonZero(data) * TX_DATA_NON_ZERO_GAS + (|data| - NonZero(data)) * TX_DATA_ZERO_GAS
  }

  /** The intrinsic gas in 64 bits: an error if and only if it does not fit. */
  method IntrinsicGas(data: seq<Byte>, creation: bool, homestead: bool) returns (r: Option<Uint64>)
    ensures r == if Cost(data, creation, homestead) <= MAX_UINT64 then Some(Cost(data, creation, homestead)) else None
  {
    var gas: nat := if creation && homestead then TX_GAS_CONTRACT_CREATION else TX_GAS;
    if |data| > 0 {
      var nz, i := 0, 0;
      while i < |data|
        invariant 0 <= i <= |data| && nz == NonZero(data[..i])
      {
        assert data[..i + 1][..i] == data[..i];
        if data[i] != 0 {
          nz := nz + 1;
        }
        i := i + 1;
      }
      assert data[..i] == data;
      if (MAX_UINT64 - gas) / TX_DATA_NON_ZERO_GAS < nz {
        return None;
      }
      gas := gas + nz * TX_DATA_NON_ZERO_GAS;
      var z := |data| - nz;
      if (MAX_UINT64 - gas) / TX_DATA_ZERO_GAS < z {
        return None;
      }
      gas := gas + z * TX_DATA_ZERO_GAS;
    }
    r := Some(gas);
  }

  // -------------------------------------------------------------- messages

  /** One recipient of a message, or the code of a contract to create. */
  datatype Payment = Payment(recipient: Option<Account>, payload: seq<Byte>, amount: nat)

  /** A message: its own payment and the further ones of a one-to-many transaction. */
  datatype Message = Message(from: Account, nonce: nat, checkNonce: bool, gas: Uint64, gasPrice: nat, main: Payment, extra: seq<Payment>)

  /** The state: `rest` has whatever else a machine can read and write, such as code and
      storage, as bytes. */
  datatype World = World(balances: map<Account, nat>, nonces: map<Account, nat>, refund: Uint64, rest: seq<Byte>)

  /** The virtual machine, for one payment: the world, the gas left, and whether it
      failed, and if so whether for lack of balance. */
  datatype Outcome = Outcome(world: World, gas: Uint64, failed: bool, short: bool)

  type Evm = (World, Account, Payment, Uint64) -> Outcome

  /** What a machine is told besides: who gets the fees of the block, and the gas price of the
      message. */
  datatype Context = Context(coinbase: Account, gasPrice: nat)

  /** The machine at one height. The other entries of its context - number, time, difficulty
      and gas limit of the block, and the hashes of its ancestors - stay as they are from the
      packing of the block to its processing. */
  type Machine = Context -> Evm

  ghost predicate SoundMachine(vm: Machine) {
    forall c: Context :: Sound(vm(c))
  }

  /** The machine does not give back more gas than it got. */
  ghost predicate Sound(evm: Evm) {
    forall w: World, a: Account, p: Payment, g: Uint64 {:trigger evm(w, a, p, g)} ::
      evm(w, a, p, g).gas <= g && (evm(w, a, p, g).short ==> evm(w, a, p, g).failed)
  }

  /** The machine moves balances only: it makes and destroys none. */
  ghost predicate Conserving(evm: Evm) {
    forall w: World, a: Account, p: Payment, g: Uint64 {:trigger evm(w, a, p, g)} ::
      Sum(evm(w, a, p, g).world.balances) == Sum(w.balances)
  }

  /** The further payments, one after the other, up to the first that fails. */
  function Pay(evm: Evm, w: World, from: Account, extra: seq<Payment>, g: Uint64): (o: Outcome)
    decreases |extra|
  {
    if extra == [] then Outcome(w, g, false, false)
    else
      var o := evm(w, from, extra[0], g);
      if o.failed then o else Pay(evm, o.world, from, extra[1..], o.gas)
  }

  /** The whole message: its own payment first. A call counts up the nonce before. */
  function Execute(evm: Evm, w: World, m: Message, g: Uint64): (o: Outcome) {
    var w1 := if m.main.recipient.None? then w else w.(nonces := w.nonces[m.from := Amount(w.nonces, m.from) + 1]);
    var o := evm(w1, m.from, m.main, g);
    if o.failed then o else Pay(evm, o.world, m.from, m.extra, o.gas)
  }

  lemma {:induction false} PaySound(evm: Evm, w: World, from: Account, extra: seq<Payment>, g: Uint64)
    requires Sound(evm)
    ensures var o := Pay(evm, w, from, extra, g);
            && o.gas <= g && (o.short ==> o.failed)
            && (Conserving(evm) ==> Sum(o.world.balances) == Sum(w.balances))
    decreases |extra|
  {
    if extra != [] {
      var o := evm(w, from, extra[0], g);
      PaySound(evm, o.world, from, extra[1..], o.gas);
    }
  }

  lemma ExecuteSound(evm: Evm, w: World, m: Message, g: Uint64)
    requires Sound(evm)
    ensures var o := Execute(evm, w, m, g);
            && o.gas <= g && (o.short ==> o.failed)
            && (Conserving(evm) ==> Sum(o.world.balances) == Sum(w.balances))
  {
    var w1 := if m.main.recipient.None? then w else w.(nonces := w.nonces[m.from := Amount(w.nonces, m.from) + 1]);
    var o := evm(w1, m.from, m.main, g);
    PaySound(evm, o.world, m.from, m.extra, o.gas);
  }
}
