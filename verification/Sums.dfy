/** Sums over the accounts of a map. */
module Sums {
  type Account = nat

  ghost function Sum(m: map<Account, nat>): (n: nat) {
    if m == map[] then 0
    else
      var a :| a in m;
      m[a] + Sum(m - {a})
  }

  lemma {:induction false} SumSplit(m: map<Account, nat>, a: Account)
    requires a in m
    ensures Sum(m) == m[a] + Sum(m - {a})
    decreases |m|
  {
    var b :| b in m && Sum(m) == m[b] + Sum(m - {b});
    if b != a {
      SumSplit(m - {b}, a);
      SumSplit(m - {a}, b);
      assert m - {a} - {b} == m - {b} - {a};
    }
  }

  lemma SumUpdate(m: map<Account, nat>, a: Account, n: nat)
    requires a in m
    ensures Sum(m[a := n]) == Sum(m) - m[a] + n
  {
    SumSplit(m, a);
    SumSplit(m[a := n], a);
    assert m[a := n] - {a} == m - {a};
  }

  /** The amount of an account, zero if there is none. */
  function Amount(m: map<Account, nat>, a: Account): (n: nat) { if a in m then m[a] else 0 }

  lemma SumPut(m: map<Account, nat>, a: Account, n: nat)
    ensures Sum(m[a := n]) == Sum(m) - Amount(m, a) + n
  {
    if a in m {
      SumUpdate(m, a, n);
    } else {
      SumSplit(m[a := n], a);
      assert m[a := n] - {a} == m;
    }
  }
}
