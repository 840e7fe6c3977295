/** Sums over accounts and the fair sharing of the pending slots. */
module WaterLevels {
  import opened Wrappers
  import opened Transactions
  import opened Sums

  function Sizes(b: Book): (m: map<Address, nat>) {
    map a | a in b :: |b[a]|
  }

  /** How many of n transactions an account keeps when all but the local accounts
      are cut to a common level. */
  function Share(n: nat, local: bool, level: nat): (m: nat) {
    if local || n <= level then n else level
  }

  function Shares(b: Book, locals: set<Address>, level: nat): (m: map<Address, nat>) {
    map a | a in b :: Share(|b[a]|, a in locals, level)
  }

  /** cur is what the accounts of orig keep at this level: the lowest nonces. */
  ghost predicate AtLevel(orig: Book, cur: Book, locals: set<Address>, level: nat) {
    && cur.Keys == orig.Keys
    && forall a :: a in orig ==>
                     LowPart(cur[a], orig[a]) && |cur[a]| == Share(|orig[a]|, a in locals, level)
  }

  lemma AtLevelSizes(orig: Book, cur: Book, locals: set<Address>, level: nat)
    requires AtLevel(orig, cur, locals, level)
    ensures Sizes(cur) == Shares(orig, locals, level)
  {
    assert forall a :: a in cur <==> a in orig;
  }

  lemma LowPartTrans(x: TxMap, y: TxMap, z: TxMap)
    requires LowPart(x, y) && LowPart(y, z)
    ensures LowPart(x, z)
  {
  }

  /** The state of the equalizer: the offenders cut so far share one level, every
      remaining large account lies at or below it, and the rest are small. */
  ghost predicate Filling(orig: Book, cur: Book, locals: set<Address>, slots: nat, limit: nat,
                          offs: seq<Address>, spam: set<Address>, level: nat) {
    forall k {:trigger UnfoldFilling(k, cur)} :: UnfoldFilling(k, cur) ==>
      && AtLevel(orig, cur, locals, level) && slots <= level
      && (forall i, j :: 0 <= i < j < |offs| ==> offs[i] != offs[j])
      && (forall a :: a in offs ==> a in orig && a !in locals && a !in spam && slots < |orig[a]|)
      && (forall a :: a in spam ==> a in orig && a !in locals && slots < |orig[a]| <= level)
      && (forall a :: a in orig && a !in locals && a !in offs && a !in spam ==> |orig[a]| <= slots)
      && (Sum(Sizes(cur)) > limit ==> forall a :: a in offs ==> |orig[a]| >= level)
      && (offs == [] ==> cur == orig)
      && (cur == orig || Sum(Shares(orig, locals, level + 1)) > limit)
  }

  /** Guards the definition of Filling for a book. */
  ghost predicate UnfoldFilling(k: int, cur: Book) { true }

  /** While the pool does not fit, the offenders all lie at the level. */
  lemma FillingFacts(orig: Book, cur: Book, locals: set<Address>, slots: nat, limit: nat,
                     offs: seq<Address>, spam: set<Address>, level: nat)
    requires Filling(orig, cur, locals, slots, limit, offs, spam, level)
    ensures forall i, j :: 0 <= i < j < |offs| ==> offs[i] != offs[j]
    ensures forall a :: a in offs ==> a in cur
    ensures Sum(Sizes(cur)) > limit ==> forall a :: a in offs ==> |cur[a]| == level
    ensures forall a :: a in spam ==> a in cur && a in orig && slots < |cur[a]| == |orig[a]| <= level
    ensures offs == [] ==> cur == orig
    ensures slots <= level
  {
    assert UnfoldFilling(0, cur);
  }

  /** The fair share: there is one level, at least the guaranteed slots of an
      account, to which every account that is not local is cut. Only the highest
      nonces go. The pool then fits, or no such account has more than its guaranteed
      slots; and if anything was cut, one level more would not have fitted. */
  ghost predicate FairShare(orig: Book, cur: Book, locals: set<Address>, slots: nat, limit: nat, level: nat) {
    && AtLevel(orig, cur, locals, level) && slots <= level
    && (Sum(Sizes(cur)) <= limit || forall a :: a in cur && a !in locals ==> |cur[a]| <= slots)
    && (cur == orig || Sum(Shares(orig, locals, level + 1)) > limit)
  }

  /** When the pool fits, or nobody is left to cut, the sharing is done. */
  lemma FillingDone(orig: Book, cur: Book, locals: set<Address>, slots: nat, limit: nat,
                    offs: seq<Address>, spam: set<Address>, level: nat)
    requires Filling(orig, cur, locals, slots, limit, offs, spam, level)
    requires Sum(Sizes(cur)) <= limit || (spam == {} && (offs == [] || level <= slots))
    ensures FairShare(orig, cur, locals, slots, limit, level)
  {
    assert UnfoldFilling(0, cur);
  }

  /** Before anything is cut. */
  lemma FillingStart(orig: Book, locals: set<Address>, slots: nat, limit: nat, spam: set<Address>, level: nat)
    requires forall a :: a in spam <==> a in orig && a !in locals && slots < |orig[a]|
    requires slots <= level && forall a :: a in orig ==> |orig[a]| <= level
    ensures Filling(orig, orig, locals, slots, limit, [], spam, level)
  {
  }

  /** The first offender sets the level. */
  lemma FillingFirst(orig: Book, locals: set<Address>, slots: nat, limit: nat, spam: set<Address>, level: nat, a: Address)
    requires Filling(orig, orig, locals, slots, limit, [], spam, level)
    requires a in spam && forall b :: b in spam ==> |At(orig, b)| <= |At(orig, a)|
    ensures Filling(orig, orig, locals, slots, limit, [a], spam - {a}, |At(orig, a)|)
  {
    assert UnfoldFilling(0, orig);
  }

  /** An account at the level joins the offenders. */
  lemma FillingJoin(orig: Book, cur: Book, locals: set<Address>, slots: nat, limit: nat,
                    offs: seq<Address>, spam: set<Address>, level: nat, a: Address)
    requires Filling(orig, cur, locals, slots, limit, offs, spam, level) && offs != []
    requires a in spam && (Sum(Sizes(cur)) > limit ==> |At(orig, a)| >= level)
    ensures Filling(orig, cur, locals, slots, limit, offs + [a], spam - {a}, level)
  {
    assert UnfoldFilling(0, cur);
  }

  /** One round cuts every offender by one. */
  ghost predicate Cut(was: Book, cur: Book, offs: seq<Address>) {
    && cur.Keys == was.Keys
    && forall a :: a in was ==>
         && LowPart(cur[a], was[a])
         && |cur[a]| == if a in offs then |was[a]| - 1 else |was[a]|
  }

  lemma FillingRound(orig: Book, was: Book, cur: Book, locals: set<Address>, slots: nat, limit: nat,
                     offs: seq<Address>, spam: set<Address>, level: nat)
    requires Filling(orig, was, locals, slots, limit, offs, spam, level) && offs != []
    requires Sum(Sizes(was)) > limit && slots < level && forall a :: a in spam ==> |At(orig, a)| < level
    requires Cut(was, cur, offs)
    ensures Filling(orig, cur, locals, slots, limit, offs, spam, level - 1)
    ensures forall a :: a in offs ==> a in cur
    ensures Sum(Sizes(cur)) > limit ==> forall a :: a in offs ==> |cur[a]| == level - 1
  {
    assert UnfoldFilling(0, was);
    AtLevelSizes(orig, was, locals, level);
    forall a | a in orig ensures LowPart(cur[a], orig[a]) {
      LowPartTrans(cur[a], was[a], orig[a]);
    }
  }

  lemma CutNext(first: Book, was: Book, cur: Book, offs: seq<Address>, i: nat)
    requires i < |offs| && forall j :: 0 <= j < i ==> offs[j] != offs[i]
    requires Cut(first, was, offs[..i]) && offs[i] in was && offs[i] in cur
    requires cur == was[offs[i] := cur[offs[i]]]
    requires LowPart(cur[offs[i]], was[offs[i]]) && |cur[offs[i]]| == |was[offs[i]]| - 1
    ensures Cut(first, cur, offs[..i + 1])
  {
    var a := offs[i];
    assert forall b :: b in offs[..i + 1] <==> b in offs[..i] || b == a;
    assert a !in offs[..i];
    LowPartTrans(cur[a], was[a], first[a]);
  }

  lemma SizesUpdate(b: Book, a: Address, m: TxMap)
    requires a in b
    ensures Sizes(b[a := m]) == Sizes(b)[a := |m|]
  {
    var c := b[a := m];
    assert forall x :: x in c <==> x in b;
    assert forall x :: x in c ==> |c[x]| == if x == a then |m| else |b[x]|;
  }

  lemma SizesSplit(b: Book, a: Address)
    requires a in b
    ensures Sum(Sizes(b)) == |b[a]| + Sum(Sizes(b - {a}))
  {
    SumSplit(Sizes(b), a);
    assert Sizes(b) - {a} == Sizes(b - {a});
  }

  lemma SizeChange(b: Book, a: Address, m: TxMap)
    requires a in b
    ensures Sum(Sizes(b[a := m])) == Sum(Sizes(b)) - |b[a]| + |m|
  {
    SumUpdate(Sizes(b), a, |m|);
    SizesUpdate(b, a, m);
  }

  /** The result of trimming the queue to `limit`: only accounts that are not local
      lose transactions, and only their highest nonces; an account is touched only
      once every account with a later heartbeat has lost its whole queue; and the
      queue ends exactly at the limit unless only local accounts are left. */
  ghost predicate Trimmed(orig: Book, cur: Book, locals: set<Address>, beats: map<Address, int>, limit: nat) {
    && (forall a :: a in cur ==> a in orig && LowPart(cur[a], orig[a]))
    && (forall a :: a in orig && a in locals ==> a in cur && cur[a] == orig[a])
    && (forall a, b | a in orig && b in orig && a !in locals && b !in locals ::
                       At(cur, a) != orig[a] && BeatOf(beats, a) < BeatOf(beats, b) ==> b !in cur)
    && (if Sum(Sizes(orig)) <= limit then cur == orig
        else Sum(Sizes(cur)) == limit || (limit < Sum(Sizes(cur)) && forall a :: a in cur ==> a in locals))
  }

  function BeatOf(beats: map<Address, int>, a: Address): (t: int) {
    if a in beats then beats[a] else 0
  }

  /** While trimming: the accounts in `todo` are untouched, the others that are not
      local are gone, and none of these has an earlier heartbeat. */
  ghost predicate Trimming(orig: Book, cur: Book, locals: set<Address>, beats: map<Address, int>,
                           todo: set<Address>, limit: nat, drop: nat) {
    && (forall a :: a in cur <==> a in orig && (a in locals || a in todo))
    && (forall a :: a in cur ==> cur[a] == orig[a])
    && (forall a :: a in todo ==> a in orig && a !in locals)
    && (forall a, b :: a in todo && b in orig && b !in locals && b !in todo ==> BeatOf(beats, a) <= BeatOf(beats, b))
    && Sum(Sizes(cur)) == limit + drop && Sum(Sizes(orig)) > limit
  }

  lemma TrimWhole(orig: Book, cur: Book, locals: set<Address>, beats: map<Address, int>,
                  todo: set<Address>, limit: nat, drop: nat, a: Address)
    requires Trimming(orig, cur, locals, beats, todo, limit, drop)
    requires a in todo && |cur[a]| <= drop && forall b :: b in todo ==> BeatOf(beats, b) <= BeatOf(beats, a)
    ensures Trimming(orig, cur - {a}, locals, beats, todo - {a}, limit, drop - |cur[a]|)
  {
    SizesSplit(cur, a);
  }

  lemma TrimTail(orig: Book, cur: Book, last: Book, locals: set<Address>, beats: map<Address, int>,
                 todo: set<Address>, limit: nat, drop: nat, a: Address)
    requires Trimming(orig, cur, locals, beats, todo, limit, drop) && drop > 0
    requires a in todo && drop < |cur[a]| && forall b :: b in todo ==> BeatOf(beats, b) <= BeatOf(beats, a)
    requires a in last && last == cur[a := last[a]] && LowPart(last[a], cur[a]) && |last[a]| == |cur[a]| - drop
    ensures Trimmed(orig, last, locals, beats, limit)
  {
    assert Sum(Sizes(last)) == limit by {
      SizeChange(cur, a, last[a]);
    }
    forall x, y | x in orig && y in orig && x !in locals && y !in locals && y in last && BeatOf(beats, x) < BeatOf(beats, y)
      ensures At(last, x) == orig[x]
    {
      assert y in todo && BeatOf(beats, y) <= BeatOf(beats, a);
      assert x in todo && x != a;
    }
  }

  lemma TrimDone(orig: Book, cur: Book, locals: set<Address>, beats: map<Address, int>,
                 todo: set<Address>, limit: nat, drop: nat)
    requires Trimming(orig, cur, locals, beats, todo, limit, drop) && (drop == 0 || todo == {})
    ensures Trimmed(orig, cur, locals, beats, limit)
  {
  }

  /** A level above every list. */
  ghost function TopLevel(b: Book, slots: nat): (l: nat)
    ensures slots <= l && forall a :: a in b ==> |b[a]| <= l
    decreases |b|
  {
    if b == map[] then slots
    else
      var a :| a in b;
      var l := TopLevel(b - {a}, slots);
      assert forall x :: x in b && x != a ==> x in b - {a};
      if |b[a]| <= l then l else |b[a]|
  }

  lemma {:induction false} SumMonotone(m: map<Address, nat>, n: map<Address, nat>)
    requires m.Keys == n.Keys && forall a :: a in m ==> m[a] <= n[a]
    ensures Sum(m) <= Sum(n)
    decreases |m|
  {
    if m != map[] {
      var a :| a in m;
      SumSplit(m, a);
      SumSplit(n, a);
      SumMonotone(m - {a}, n - {a});
    }
  }

  lemma SharesMonotone(b: Book, locals: set<Address>, l: nat, k: nat)
    requires l <= k
    ensures Sum(Shares(b, locals, l)) <= Sum(Shares(b, locals, k))
  {
    SumMonotone(Shares(b, locals, l), Shares(b, locals, k));
  }

  /** Two low parts of the same size are the same. */
  lemma LowPartUnique(x: TxMap, y: TxMap, m: TxMap)
    requires LowPart(x, m) && LowPart(y, m) && |x| == |y|
    ensures x == y
  {
    if n :| n in x && n !in y {
      assert y.Keys < x.Keys;
      SubsetSize(y.Keys, x.Keys);
    } else {
      assert x.Keys <= y.Keys;
      if n :| n in y && n !in x {
        SubsetSize(x.Keys, y.Keys);
      }
    }
  }

  lemma SubsetSize(s: set<Uint64>, t: set<Uint64>)
    requires s < t
    ensures |s| < |t|
  {
    assert t == s + (t - s);
    assert |t| == |s| + |t - s|;
  }

  /** The fair share is unique: it does not depend on the order in which accounts
      of equal size are taken, nor on how the level is described. */
  lemma FairShareUnique(orig: Book, x: Book, y: Book, locals: set<Address>, slots: nat, limit: nat, l: nat, k: nat)
    requires FairShare(orig, x, locals, slots, limit, l) && FairShare(orig, y, locals, slots, limit, k)
    ensures x == y
  {
    forall a | a in orig ensures x[a] == y[a] {
      SameShare(orig, x, y, locals, slots, limit, l, k, a);
    }
    assert x.Keys == y.Keys;
  }

  lemma SameShare(orig: Book, x: Book, y: Book, locals: set<Address>, slots: nat, limit: nat, l: nat, k: nat, a: Address)
    requires FairShare(orig, x, locals, slots, limit, l) && FairShare(orig, y, locals, slots, limit, k) && a in orig
    ensures a in x && a in y && x[a] == y[a]
  {
    if l < k {
      FairShareSize(orig, x, y, locals, slots, limit, l, k, a);
    } else if k < l {
      FairShareSize(orig, y, x, locals, slots, limit, k, l, a);
    }
    LowPartUnique(x[a], y[a], orig[a]);
  }

  /** A higher level that has room to spare at a lower one does not fit. */
  lemma OverLimit(orig: Book, y: Book, locals: set<Address>, limit: nat, l: nat, k: nat)
    requires AtLevel(orig, y, locals, k) && l < k && Sum(Shares(orig, locals, l + 1)) > limit
    ensures Sum(Sizes(y)) > limit
  {
    SharesMonotone(orig, locals, l + 1, k);
    AtLevelSizes(orig, y, locals, k);
  }

  lemma FairShareSize(orig: Book, x: Book, y: Book, locals: set<Address>, slots: nat, limit: nat, l: nat, k: nat, a: Address)
    requires FairShare(orig, x, locals, slots, limit, l) && FairShare(orig, y, locals, slots, limit, k)
    requires l < k && a in orig
    ensures |x[a]| == |y[a]|
  {
    assert |x[a]| == Share(|orig[a]|, a in locals, l) && |y[a]| == Share(|orig[a]|, a in locals, k);
    if x != orig {
      OverLimit(orig, y, locals, limit, l, k);
    }
  }
}
