/** Transactions as the pool sees them, and collections of the transactions of
    one account. A transaction is an immutable value; its hash is taken to be free
    of collisions, so a transaction stands for its own hash. */
module Transactions {
  import opened Wrappers

  type Address = nat

  /** `cost` is gas price times gas limit plus the amount transferred, `further` what a
      one-to-many transaction transfers on top of it; `body` is whatever else the hash
      covers. */
  datatype Tx = Tx(from: Address, nonce: Uint64, gasPrice: nat, gas: Uint64, cost: nat, further: nat, body: nat) {
    /** What the sender needs for all of it. */
    function Total(): (t: nat)
      ensures t >= cost
    {
      cost + further
    }
  }

  /** Transactions of one account, keyed by nonce. */
  type TxMap = map<Uint64, Tx>

  /** One transaction list per account. */
  type Book = map<Address, TxMap>

  function At(b: Book, a: Address): (m: TxMap) {
    if a in b then b[a] else map[]
  }

  /** Sets the list of an account; an empty list is not stored. */
  function With(b: Book, a: Address, m: TxMap): (r: Book) {
    if m == map[] then b - {a} else b[a := m]
  }

  ghost predicate NoEmptyList(b: Book) {
    forall a :: a in b ==> b[a] != map[]
  }

  ghost predicate WellKeyed(m: TxMap) {
    forall n :: n in m ==> m[n].nonce == n
  }

  /** s holds every transaction of m exactly once. */
  ghost predicate Enumerates(s: seq<Tx>, m: TxMap) {
    if s == [] then m == map[]
    else
      var l := |s| - 1;
      && s[l].nonce in m && m[s[l].nonce] == s[l]
      && Enumerates(s[..l], m - {s[l].nonce})
  }

  /** s holds every transaction of m exactly once, in nonce order. */
  ghost predicate Lists(s: seq<Tx>, m: TxMap) {
    if s == [] then m == map[]
    else
      var l := |s| - 1;
      && s[l].nonce in m && m[s[l].nonce] == s[l] && Highest(m, s[l].nonce)
      && Lists(s[..l], m - {s[l].nonce})
  }

  ghost predicate Highest(m: TxMap, n: Uint64) {
    forall k :: k in m ==> k <= n
  }

  lemma {:induction false} ListsEnumerates(s: seq<Tx>, m: TxMap)
    requires Lists(s, m)
    ensures Enumerates(s, m)
  {
    if s != [] {
      ListsEnumerates(s[..|s| - 1], m - {s[|s| - 1].nonce});
    }
  }

  lemma ListsAppend(s: seq<Tx>, m: TxMap, x: Tx)
    requires Lists(s, m) && x.nonce !in m && Highest(m, x.nonce)
    ensures Lists(s + [x], m[x.nonce := x])
  {
    assert (s + [x])[..|s|] == s;
    assert m[x.nonce := x] - {x.nonce} == m;
  }

  /** A listing has strictly increasing nonces. */
  lemma {:induction false} ListsAscending(s: seq<Tx>, m: TxMap, i: nat, j: nat)
    requires Lists(s, m) && WellKeyed(m) && i < j < |s|
    ensures s[i].nonce < s[j].nonce
  {
    var l := |s| - 1;
    var m' := m - {s[l].nonce};
    if j == l {
      ListsEnumerates(s[..l], m');
      EnumeratesMember(s[..l], m', s[i]);
      assert s[..l][i] == s[i];
    } else {
      ListsAscending(s[..l], m', i, j);
    }
  }

  lemma EnumeratesAppend(s: seq<Tx>, m: TxMap, x: Tx)
    requires Enumerates(s, m) && x.nonce !in m
    ensures Enumerates(s + [x], m[x.nonce := x])
  {
    assert (s + [x])[..|s|] == s;
    assert m[x.nonce := x] - {x.nonce} == m;
  }

  function MapOf(s: seq<Tx>): (m: TxMap) {
    if s == [] then map[] else WithTx(MapOf(s[..|s| - 1]), s[|s| - 1])
  }

  lemma {:induction false} EnumeratesMapOf(s: seq<Tx>, m: TxMap)
    requires Enumerates(s, m)
    ensures MapOf(s) == m
  {
    if s != [] {
      EnumeratesMapOf(s[..|s| - 1], m - {s[|s| - 1].nonce});
    }
  }

  /** Going through an enumeration, each transaction brings a new nonce. */
  lemma {:induction false} EnumeratesNext(s: seq<Tx>, m: TxMap, i: nat)
    requires Enumerates(s, m) && i < |s|
    ensures s[i].nonce in m && m[s[i].nonce] == s[i] && s[i].nonce !in MapOf(s[..i])
    ensures MapOf(s[..i + 1]) == WithTx(MapOf(s[..i]), s[i])
    ensures forall n :: n in MapOf(s[..i]) ==> n in m && m[n] == MapOf(s[..i])[n]
  {
    var l := |s| - 1;
    var m' := m - {s[l].nonce};
    assert s[..i + 1][..i] == s[..i];
    if i == l {
      EnumeratesMapOf(s[..l], m');
    } else {
      EnumeratesNext(s[..l], m', i);
      assert s[..l][..i] == s[..i] && s[..l][..i + 1] == s[..i + 1];
    }
  }

  lemma {:induction false} EnumeratesSize(s: seq<Tx>, m: TxMap)
    requires Enumerates(s, m)
    ensures |s| == |m|
  {
    if s != [] {
      var l := |s| - 1;
      EnumeratesSize(s[..l], m - {s[l].nonce});
      assert m.Keys == (m - {s[l].nonce}).Keys + {s[l].nonce};
    }
  }

  /** Membership in an enumeration is membership in the map. */
  lemma {:induction false} EnumeratesMember(s: seq<Tx>, m: TxMap, tx: Tx)
    requires Enumerates(s, m) && WellKeyed(m)
    ensures tx in s <==> tx.nonce in m && m[tx.nonce] == tx
  {
    if s != [] {
      var l := |s| - 1;
      EnumeratesMember(s[..l], m - {s[l].nonce}, tx);
      assert s == s[..l] + [s[l]];
    }
  }

  /** The nonce-ordered enumeration of a map is unique. */
  lemma {:induction false} ListsUnique(s: seq<Tx>, t: seq<Tx>, m: TxMap)
    requires Lists(s, m) && Lists(t, m)
    ensures s == t
  {
    if s != [] {
      var l, k := |s| - 1, |t| - 1;
      assert s[l] == t[k];
      ListsUnique(s[..l], t[..k], m - {s[l].nonce});
      assert s == s[..l] + [s[l]] && t == t[..k] + [t[k]];
    }
  }

  /** How often a transaction occurs in s. */
  ghost predicate CountsOnce(s: seq<Tx>, m: TxMap) {
    forall tx :: multiset(s)[tx] == if tx.nonce in m && m[tx.nonce] == tx then 1 else 0
  }

  lemma {:induction false} EnumeratesCounts(s: seq<Tx>, m: TxMap)
    requires Enumerates(s, m) && WellKeyed(m)
    ensures CountsOnce(s, m)
  {
    if s != [] {
      var l := |s| - 1;
      EnumeratesCounts(s[..l], m - {s[l].nonce});
      assert s == s[..l] + [s[l]];
    }
  }

  lemma {:induction false} CountsEnumerates(s: seq<Tx>, m: TxMap)
    requires CountsOnce(s, m) && WellKeyed(m)
    ensures Enumerates(s, m)
  {
    if s == [] {
      assert forall n :: n in m ==> multiset(s)[m[n]] == 1;
      assert m.Keys == {};
    } else {
      var l := |s| - 1;
      assert s == s[..l] + [s[l]];
      assert multiset(s)[s[l]] > 0;
      CountsEnumerates(s[..l], m - {s[l].nonce});
    }
  }

  /** Enumeration does not depend on the order. */
  lemma EnumeratesPermuted(s: seq<Tx>, t: seq<Tx>, m: TxMap)
    requires Enumerates(s, m) && WellKeyed(m) && multiset(s) == multiset(t)
    ensures Enumerates(t, m)
  {
    EnumeratesCounts(s, m);
    CountsEnumerates(t, m);
  }

  /** lo is the part of m with its lowest nonces. */
  ghost predicate LowPart(lo: TxMap, m: TxMap) {
    && (forall n :: n in lo ==> n in m && lo[n] == m[n])
    && (forall a, b :: a in lo && b in m && b !in lo ==> a < b)
  }

  /** The listing of m begins with the listing of a low part and continues with
      the listing of the rest. */
  lemma {:induction false} SplitLists(c: seq<Tx>, m: TxMap, lo: TxMap, hi: TxMap) returns (a: seq<Tx>, b: seq<Tx>)
    requires Lists(c, m) && LowPart(lo, m) && hi == m - lo.Keys
    ensures c == a + b && Lists(a, lo) && Lists(b, hi)
  {
    if hi == map[] {
      assert forall n :: n in m && n !in lo ==> n in hi;
      assert lo == m;
      a, b := c, [];
    } else {
      var l := |c| - 1;
      var k :| k in hi;
      assert c != [] && c[l].nonce in hi;
      var hi' := hi - {c[l].nonce};
      var m' := m - {c[l].nonce};
      assert hi' == m' - lo.Keys;
      a, b := SplitLists(c[..l], m', lo, hi');
      ListsAppend(b, hi', c[l]);
      assert hi'[c[l].nonce := c[l]] == hi;
      b := b + [c[l]];
    }
  }

  lemma ListsSize(s: seq<Tx>, m: TxMap)
    requires Lists(s, m)
    ensures |s| == |m|
  {
    ListsEnumerates(s, m);
    EnumeratesSize(s, m);
  }

  function WithTx(m: TxMap, tx: Tx): (r: TxMap) {
    m[tx.nonce := tx]
  }

  function Below(nonce: Uint64): Tx -> bool {
    (tx: Tx) => tx.nonce < nonce
  }

  function Above(nonce: Uint64): Tx -> bool {
    (tx: Tx) => tx.nonce > nonce
  }

  /** Transactions of m that satisfy p. */
  function Keep(m: TxMap, p: Tx -> bool): (r: TxMap) {
    map n | n in m && p(m[n]) :: m[n]
  }

  /** Transactions of m that do not satisfy p. */
  function Drop(m: TxMap, p: Tx -> bool): (r: TxMap) {
    map n | n in m && !p(m[n]) :: m[n]
  }
}
