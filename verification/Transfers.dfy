/** Messages that only move balances: each payment of a one-to-many message reaches its
    recipient, and the sender pays for all of them and for the gas used. */
module Transfers {
  import opened Wrappers
  import opened Sums
  import opened Gas
  import opened StateTransitions

  /** The machine for accounts without code: a payment needs the balance for it, and moves it.
      A contract is not created. */
  function Transfer(w: World, from: Account, p: Payment, gas: Uint64): (o: Outcome) {
    if Amount(w.balances, from) < p.amount then Outcome(w, gas, true, true)
    else if p.recipient.None? then Outcome(w, gas, true, false)
    else Outcome(Credited(Paid(w, from, p.amount), p.recipient.value, p.amount), gas, false, false)
  }

  /** A machine that deals so with payments to accounts. */
  ghost predicate Transfers(evm: Evm) {
    forall w: World, a: Account, p: Payment, g: Uint64 {:trigger evm(w, a, p, g)} ::
      p.recipient.Some? ==> evm(w, a, p, g) == Transfer(w, a, p, g)
  }

  /** There is one. */
  lemma TransferIs()
    ensures Sound(Transfer) && Transfers(Transfer)
  {
  }

  function Total(ps: seq<Payment>): (n: nat) {
    if ps == [] then 0 else Total(ps[..|ps| - 1]) + ps[|ps| - 1].amount
  }

  /** What an account is paid. */
  function PaidTo(ps: seq<Payment>, a: Account): (n: nat) {
    if ps == [] then 0
    else PaidTo(ps[..|ps| - 1], a) + if ps[|ps| - 1].recipient == Some(a) then ps[|ps| - 1].amount else 0
  }

  function Costs(ps: seq<Payment>, homestead: bool): (n: nat) {
    if ps == [] then 0
    else Costs(ps[..|ps| - 1], homestead) + Cost(ps[|ps| - 1].payload, ps[|ps| - 1].recipient.None?, homestead)
  }

  lemma {:induction false} FromTheFront(ps: seq<Payment>, a: Account, homestead: bool)
    requires ps != []
    ensures Total(ps) == ps[0].amount + Total(ps[1..])
    ensures PaidTo(ps, a) == (if ps[0].recipient == Some(a) then ps[0].amount else 0) + PaidTo(ps[1..], a)
    ensures Costs(ps, homestead) == Cost(ps[0].payload, ps[0].recipient.None?, homestead) + Costs(ps[1..], homestead)
  {
    if |ps| == 1 {
      assert ps[..0] == [] && ps[1..] == [];
    } else {
      FromTheFront(ps[..|ps| - 1], a, homestead);
      assert ps[..|ps| - 1][1..] == ps[1..][..|ps| - 2];
    }
  }

  // ----------------------------------------------------------------- the gas

  /** All the payments of a message, its own first. */
  function Payments(m: Message): (ps: seq<Payment>) { [m.main] + m.extra }

  /** The sum in 64 bits: it differs from the real one by a multiple of 2^64. */
  predicate Congruent(a: nat, b: nat) { (a - b) % (MAX_UINT64 + 1) == 0 }

  lemma WrapStep(gas: Uint64, c: nat, rest: nat, a: nat)
    requires Congruent(a, Add64(gas, c) + rest)
    ensures Congruent(a, gas + (c + rest))
  {
  }

  lemma {:induction false} AddedUpIs(gas: Uint64, extra: seq<Payment>, homestead: bool)
    ensures Congruent(AddedUp(gas, extra, homestead), gas + Costs(extra, homestead))
    decreases |extra|
  {
    if extra != [] {
      FromTheFront(extra, 0, homestead);
      var c, rest := Cost(extra[0].payload, extra[0].recipient.None?, homestead), extra[1..];
      var next := Add64(gas, c);
      AddedUpIs(next, rest, homestead);
      WrapStep(gas, c, Costs(rest, homestead), AddedUp(next, rest, homestead));
    }
  }

  lemma Remainder(x: nat, r: Uint64)
    requires Congruent(r, x)
    ensures x % (MAX_UINT64 + 1) == r
  {
  }

  /** A message pays the intrinsic gas of every one of its payments, as far as 64 bits go. */
  lemma IntrinsicIsSum(m: Message, homestead: bool)
    requires Cost(m.main.payload, m.main.recipient.None?, homestead) <= MAX_UINT64
    ensures Intrinsic(m, homestead) == Costs(Payments(m), homestead) % (MAX_UINT64 + 1)
  {
    FromTheFront(Payments(m), 0, homestead);
    assert Payments(m)[1..] == m.extra;
    var first := Cost(m.main.payload, m.main.recipient.None?, homestead);
    AddedUpIs(first, m.extra, homestead);
    Remainder(Costs(Payments(m), homestead), Intrinsic(m, homestead));
  }

  /** A message is executed, once its gas is bought, exactly if no payment has an intrinsic gas
      that does not fit in 64 bits, there are at most 1000 of them, and the gas covers their
      sum in 64 bits. */
  lemma RunsIff(m: Message, homestead: bool)
    ensures Stops(m, homestead).None? <==>
            && (forall i :: 0 <= i < |Payments(m)| ==>
                  Cost(Payments(m)[i].payload, Payments(m)[i].recipient.None?, homestead) <= MAX_UINT64)
            && |Payments(m)| <= 1000 && Costs(Payments(m), homestead) % (MAX_UINT64 + 1) <= m.gas
  {
    var ps := Payments(m);
    assert ps[0] == m.main && forall i :: 0 <= i < |m.extra| ==> ps[i + 1] == m.extra[i];
    if Cost(m.main.payload, m.main.recipient.None?, homestead) <= MAX_UINT64 {
      IntrinsicIsSum(m, homestead);
      if !ExtraOverflows(m.extra, homestead) {
        forall i | 0 <= i < |ps| ensures Cost(ps[i].payload, ps[i].recipient.None?, homestead) <= MAX_UINT64 {
          assert i > 0 ==> ps[i] == m.extra[i - 1];
        }
      }
    }
  }

  // ------------------------------------------------------------ the balances

  /** The payments are all made: everyone got what was paid to them, and the sender gave it. */
  ghost predicate Moved(w: World, from: Account, ps: seq<Payment>, v: World) {
    && v.nonces == w.nonces && v.refund == w.refund && v.rest == w.rest
    && forall a :: Amount(v.balances, a) == Amount(w.balances, a) + PaidTo(ps, a) - if a == from then Total(ps) else 0
  }

  ghost predicate ToAccounts(ps: seq<Payment>) {
    forall i :: 0 <= i < |ps| ==> ps[i].recipient.Some?
  }

  ghost predicate NotTo(ps: seq<Payment>, a: Account) {
    forall i :: 0 <= i < |ps| ==> ps[i].recipient != Some(a)
  }

  lemma {:induction false} PayAll(evm: Evm, w: World, from: Account, ps: seq<Payment>, g: Uint64)
    requires Transfers(evm) && ToAccounts(ps)
    ensures Total(ps) <= Amount(w.balances, from) ==>
              var o := Pay(evm, w, from, ps, g);
              o.gas == g && !o.failed && !o.short && Moved(w, from, ps, o.world)
    ensures Total(ps) > Amount(w.balances, from) && NotTo(ps, from) ==> Pay(evm, w, from, ps, g).short
    decreases |ps|
  {
    if ps != [] {
      var o := evm(w, from, ps[0], g);
      PayAll(evm, o.world, from, ps[1..], g);
      FromTheFront(ps, from, true);
      forall a {
        FromTheFront(ps, a, true);
      }
    }
  }

  /** The execution makes all payments of a call, one after the other. */
  lemma ExecutesAll(evm: Evm, w: World, m: Message, g: Uint64)
    requires m.main.recipient.Some?
    ensures Execute(evm, w, m, g) == Pay(evm, Called(w, m.from), m.from, Payments(m), g)
  {
    assert Payments(m)[0] == m.main && Payments(m)[1..] == m.extra;
  }

  /** The nonce of the sender counts one more. */
  function Called(w: World, from: Account): (v: World) { w.(nonces := w.nonces[from := Amount(w.nonces, from) + 1]) }

  /** The sender can pay for the gas and for all payments. */
  predicate Enough(w: World, m: Message) {
    Worth(m.gas, m.gasPrice) + Total(Payments(m)) <= Amount(w.balances, m.from)
  }

  lemma RunsAll(evm: Evm, w: World, m: Message, g: Uint64)
    requires Transfers(evm) && ToAccounts(Payments(m))
    ensures var o := Execute(evm, w, m, g);
            && (Total(Payments(m)) <= Amount(w.balances, m.from) ==>
                  o.gas == g && !o.failed && !o.short && Moved(Called(w, m.from), m.from, Payments(m), o.world))
            && (Total(Payments(m)) > Amount(w.balances, m.from) && NotTo(Payments(m), m.from) ==> o.short)
  {
    assert Payments(m)[0] == m.main;
    ExecutesAll(evm, w, m, g);
    PayAll(evm, Called(w, m.from), m.from, Payments(m), g);
  }

  lemma ConcludedBalances(o: Outcome, pool: Uint64, m: Message)
    requires o.gas <= m.gas && pool + m.gas <= MAX_UINT64 && !o.short
    ensures var a := Concluded(o, pool, m);
            && a.result.used == m.gas - o.gas - Min((m.gas - o.gas) / 2, o.world.refund)
            && a.world.nonces == o.world.nonces
            && Worth(a.result.used, m.gasPrice) <= Worth(m.gas, m.gasPrice)
            && forall x :: Amount(a.world.balances, x) == Amount(o.world.balances, x) +
                           if x == m.from then Worth(m.gas, m.gasPrice) - Worth(a.result.used, m.gasPrice) else 0
  {
    var rest := o.gas + Refund(m, o);
    WorthAdds(rest, m.gas - rest, m.gasPrice);
  }

  function Min(a: nat, b: nat): (n: nat) { if a < b then a else b }

  lemma Settles(w: World, o: Outcome, pool: Uint64, m: Message)
    requires o.gas <= m.gas && pool + m.gas <= MAX_UINT64 && !o.short && Worth(m.gas, m.gasPrice) <= Amount(w.balances, m.from)
    requires Moved(Called(Paid(w, m.from, Worth(m.gas, m.gasPrice)), m.from), m.from, Payments(m), o.world)
    ensures Settled(w, m, Concluded(o, pool, m))
    ensures var a := Concluded(o, pool, m); a.result.used == m.gas - o.gas - Min((m.gas - o.gas) / 2, w.refund)
  {
    ConcludedBalances(o, pool, m);
  }

  /** Every account has what was paid to it more; the sender has all that and the price of the
      gas used less, and its nonce is one higher. */
  ghost predicate Settled(w: World, m: Message, a: Applied) {
    && a.world.nonces == w.nonces[m.from := Amount(w.nonces, m.from) + 1]
    && forall x :: Amount(a.world.balances, x) == Amount(w.balances, x) + PaidTo(Payments(m), x) -
                   if x == m.from then Total(Payments(m)) + Worth(a.result.used, m.gasPrice) else 0
  }

  /** What payments between accounts come to, with the intrinsic gas they have to pay. */
  ghost predicate Transacted(w: World, m: Message, gas: nat, r: Applied) {
    forall k {:trigger UnfoldRan(k)} :: UnfoldRan(k) ==>
      && (Enough(w, m) ==>
            r.result.err.None? && !r.result.failed && Settled(w, m, r) && r.result.used == gas - Min(gas / 2, w.refund))
      && (!Enough(w, m) && NotTo(Payments(m), m.from) ==> r.result.err == Some(InsufficientBalance))
  }

  /** r is what comes of executing the message once its gas, and the gas it needs, is paid. */
  ghost predicate Ran(evm: Evm, w: World, pool: Uint64, m: Message, gas: Uint64, r: Applied) {
    forall k {:trigger UnfoldRan(k)} :: UnfoldRan(k) ==>
      && Worth(m.gas, m.gasPrice) <= Amount(w.balances, m.from) && gas <= m.gas <= pool
      && var o := Execute(evm, Paid(w, m.from, Worth(m.gas, m.gasPrice)), m, m.gas - gas);
         o.gas <= m.gas && r == Concluded(o, pool - m.gas, m)
  }

  ghost predicate UnfoldRan(k: int) { true }

  lemma Pays(evm: Evm, w: World, pool: Uint64, m: Message, gas: Uint64, r: Applied)
    requires Transfers(evm) && ToAccounts(Payments(m)) && Ran(evm, w, pool, m, gas, r)
    ensures Transacted(w, m, gas, r)
  {
    assert UnfoldRan(0);
    var v := Paid(w, m.from, Worth(m.gas, m.gasPrice));
    RunsAll(evm, v, m, m.gas - gas);
    if Enough(w, m) {
      Settles(w, Execute(evm, v, m, m.gas - gas), pool - m.gas, m);
    }
  }

  /** The message is neither refused nor stopped before it is executed. */
  ghost predicate Executes(w: World, pool: Uint64, m: Message, homestead: bool) {
    forall k {:trigger UnfoldExecutes(k)} :: UnfoldExecutes(k) ==> Refusal(w, pool, m).None? && Stops(m, homestead).None?
  }

  ghost predicate UnfoldExecutes(k: int) { true }

  /** The gas that all payments of a message have to pay before, in 64 bits. */
  function Needs(m: Message, homestead: bool): (g: Uint64) { Costs(Payments(m), homestead) % (MAX_UINT64 + 1) }

  /** Such a message is executed after its gas is paid. */
  lemma ApplyRuns(evm: Evm, w: World, pool: Uint64, m: Message, homestead: bool)
    requires Sound(evm) && Executes(w, pool, m, homestead)
    ensures Ran(evm, w, pool, m, Needs(m, homestead), Apply(evm, w, pool, m, homestead))
  {
    assert UnfoldExecutes(0);
    IntrinsicIsSum(m, homestead);
    ExecuteBounds(evm, w, pool, m, homestead);
  }

  /** Payments between accounts. If the sender can pay for the gas and for all payments, each
      recipient has all that was paid to it more, by the first payment and by the further
      ones; the sender has all that and the price of the gas used less; the nonce counts
      one more; and the gas used is the intrinsic gas of all payments, less a refund. If it
      cannot, and pays nothing to itself, the message fails for lack of balance. */
  lemma Transferred(evm: Evm, w: World, pool: Uint64, m: Message, homestead: bool)
    requires Sound(evm) && Transfers(evm) && Executes(w, pool, m, homestead) && ToAccounts(Payments(m))
    ensures Transacted(w, m, Needs(m, homestead), Apply(evm, w, pool, m, homestead))
  {
    ApplyRuns(evm, w, pool, m, homestead);
    Pays(evm, w, pool, m, Needs(m, homestead), Apply(evm, w, pool, m, homestead));
  }

  // -------------------------------------------------------------- the nonces

  /** The machine takes back no nonce. */
  ghost predicate KeepsNonces(evm: Evm) {
    forall w: World, a: Account, p: Payment, g: Uint64, x: Account {:trigger evm(w, a, p, g), Amount(w.nonces, x)} ::
      Amount(evm(w, a, p, g).world.nonces, x) >= Amount(w.nonces, x)
  }

  lemma {:induction false} PayNonces(evm: Evm, w: World, from: Account, ps: seq<Payment>, g: Uint64, x: Account)
    requires KeepsNonces(evm)
    ensures Amount(Pay(evm, w, from, ps, g).world.nonces, x) >= Amount(w.nonces, x)
    decreases |ps|
  {
    if ps != [] {
      var o := evm(w, from, ps[0], g);
      PayNonces(evm, o.world, from, ps[1..], o.gas, x);
    }
  }

  lemma ConcludedNonces(o: Outcome, pool: Uint64, m: Message)
    requires o.gas <= m.gas && pool + m.gas <= MAX_UINT64
    ensures Concluded(o, pool, m).world.nonces == o.world.nonces
  {
  }

  /** A call is executed exactly at its nonce, and never again: from then on it is refused in every
      state whose nonces have not gone back. */
  lemma NoReplay(evm: Evm, w: World, pool: Uint64, m: Message, homestead: bool, later: World, p: Uint64)
    requires Sound(evm) && KeepsNonces(evm) && m.checkNonce && m.main.recipient.Some? && Executes(w, pool, m, homestead)
    requires Amount(later.nonces, m.from) >= Amount(Apply(evm, w, pool, m, homestead).world.nonces, m.from)
    ensures Amount(w.nonces, m.from) == m.nonce && Refusal(later, p, m) == Some(NonceTooLow)
  {
    assert UnfoldExecutes(0) && UnfoldRan(0);
    ApplyRuns(evm, w, pool, m, homestead);
    var v, g := Paid(w, m.from, Worth(m.gas, m.gasPrice)), m.gas - Needs(m, homestead);
    ConcludedNonces(Execute(evm, v, m, g), pool - m.gas, m);
    ExecutesAll(evm, v, m, g);
    PayNonces(evm, Called(v, m.from), m.from, Payments(m), g, m.from);
  }
}
