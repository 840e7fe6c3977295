/** The pool of mining results: by block, difficulty and sender, with a counter for each
    sender. */
module PowPools {
  import opened Wrappers

  type Hash = nat
  type Address = nat

  datatype Error = TooMany | AlreadyThere

  /** A mining result of a sender. */
  datatype MinerResult = MinerResult(from: Address, nonce: nat)

  type Senders = map<Address, MinerResult>
  type Cache = map<Hash, Senders>

  const HASH_VALUES := 0x1_0000000000000000_0000000000000000_0000000000000000_0000000000000000

  /** The key of a difficulty: its last 32 bytes. */
  function DiffHash(diff: nat): (h: Hash) { diff % HASH_VALUES }

  /** The slots with a result of a sender. */
  ghost function Slots(pool: map<Hash, Cache>, from: Address): (s: set<(Hash, Hash)>) {
    set b, d | b in pool && d in pool[b] && from in pool[b][d] :: (b, d)
  }

  function Counted(counts: map<Address, nat>, a: Address): (n: nat) { if a in counts then counts[a] else 0 }

  ghost predicate CountsOk(pool: map<Hash, Cache>, counts: map<Address, nat>, limit: nat) {
    forall a :: CountOk(pool, counts, limit, a)
  }

  ghost predicate CountOk(pool: map<Hash, Cache>, counts: map<Address, nat>, limit: nat, a: Address) {
    Counted(counts, a) == |Slots(pool, a)| <= limit
  }

  function CacheOf(pool: map<Hash, Cache>, b: Hash): (c: Cache) { if b in pool then pool[b] else map[] }

  function SendersOf(pool: map<Hash, Cache>, b: Hash, d: Hash): (s: Senders) {
    if d in CacheOf(pool, b) then CacheOf(pool, b)[d] else map[]
  }

  function SetSlot(pool: map<Hash, Cache>, b: Hash, d: Hash, s: Senders): (r: map<Hash, Cache>) {
    pool[b := CacheOf(pool, b)[d := s]]
  }

  lemma SlotIn(pool: map<Hash, Cache>, k: (Hash, Hash), a: Address)
    ensures k in Slots(pool, a) <==> a in SendersOf(pool, k.0, k.1)
  {
  }

  lemma SendersSet(pool: map<Hash, Cache>, b: Hash, d: Hash, senders: Senders, x: Hash, y: Hash)
    ensures SendersOf(SetSlot(pool, b, d, senders), x, y) == if x == b && y == d then senders else SendersOf(pool, x, y)
  {
  }

  /** Setting the senders of one slot: the slots of those who came or went change by it. */
  lemma SlotsSet(pool: map<Hash, Cache>, b: Hash, d: Hash, senders: Senders, a: Address)
    ensures |Slots(SetSlot(pool, b, d, senders), a)| ==
            |Slots(pool, a)| + (if a in senders then 1 else 0) - (if a in SendersOf(pool, b, d) then 1 else 0)
  {
    var s, t := Slots(pool, a), Slots(SetSlot(pool, b, d, senders), a);
    forall k: (Hash, Hash) ensures k in t <==> if k == (b, d) then a in senders else k in s {
      SlotIn(SetSlot(pool, b, d, senders), k, a);
      SlotIn(pool, k, a);
      SendersSet(pool, b, d, senders, k.0, k.1);
    }
    SlotIn(pool, (b, d), a);
    OneSlot(s, t, (b, d));
  }

  /** Two sets that agree but for one element. */
  lemma OneSlot(s: set<(Hash, Hash)>, t: set<(Hash, Hash)>, k: (Hash, Hash))
    requires forall x :: x != k ==> (x in s <==> x in t)
    ensures |t| == |s| + (if k in t then 1 else 0) - (if k in s then 1 else 0)
  {
    if k in t {
      assert t == (s - {k}) + {k};
    } else {
      assert t == s - {k};
    }
  }

  /** One counter follows one sender; the others stay. */
  lemma CountsFollow(pool: map<Hash, Cache>, counts: map<Address, nat>, limit: nat, b: Hash, d: Hash, senders: Senders,
                     after: map<Address, nat>)
    requires CountsOk(pool, counts, limit)
    requires forall a :: Counted(after, a) <= limit &&
               Counted(after, a) == Counted(counts, a) + (if a in senders then 1 else 0) - (if a in SendersOf(pool, b, d) then 1 else 0)
    ensures CountsOk(SetSlot(pool, b, d, senders), after, limit)
  {
    forall a ensures CountOk(SetSlot(pool, b, d, senders), after, limit, a) {
      assert CountOk(pool, counts, limit, a);
      SlotsSet(pool, b, d, senders, a);
    }
  }

  ghost predicate FiledOk(pool: map<Hash, Cache>) {
    forall b, d, a :: a in SendersOf(pool, b, d) ==> SendersOf(pool, b, d)[a].from == a
  }

  lemma FiledSet(pool: map<Hash, Cache>, b: Hash, d: Hash, senders: Senders)
    requires FiledOk(pool) && forall a :: a in senders ==> senders[a].from == a
    ensures FiledOk(SetSlot(pool, b, d, senders))
  {
    forall x, y, a | a in SendersOf(SetSlot(pool, b, d, senders), x, y)
      ensures SendersOf(SetSlot(pool, b, d, senders), x, y)[a].from == a
    {
      SendersSet(pool, b, d, senders, x, y);
    }
  }

  class PowPool {
    const countLimit: nat
    var powMap: map<Hash, Cache>
    var countMap: map<Address, nat>

    /** Each counter is the number of slots with a result of that sender, and within the
        limit; every result is filed under its sender. */
    ghost predicate Valid()
      reads this
    {
      CountsOk(powMap, countMap, countLimit) && FiledOk(powMap)
    }

    constructor (limit: nat)
      ensures Valid() && powMap == map[] && countLimit == limit
    {
      countLimit, powMap, countMap := limit, map[], map[];
      new;
      forall a ensures CountOk(powMap, countMap, countLimit, a) {
        assert Slots(map[], a) == {};
      }
    }

    method AddMinerResult(blockHash: Hash, diff: nat, r: MinerResult) returns (err: Option<Error>)
      requires Valid()
      modifies this
      ensures Valid()
      ensures err == if |Slots(old(powMap), r.from)| >= countLimit then Some(TooMany)
                     else if r.from in SendersOf(old(powMap), blockHash, DiffHash(diff)) then Some(AlreadyThere) else None
      ensures forall b, d :: SendersOf(powMap, b, d) ==
                if err.None? && b == blockHash && d == DiffHash(diff) then SendersOf(old(powMap), b, d)[r.from := r]
                else SendersOf(old(powMap), b, d)
    {
      assert CountOk(powMap, countMap, countLimit, r.from);
      var key := DiffHash(diff);
      if Counted(countMap, r.from) >= countLimit {
        return Some(TooMany);
      }
      var cache := CacheOf(powMap, blockHash);
      var senders := if key in cache then cache[key] else map[];
      if r.from in senders {
        return Some(AlreadyThere);
      }
      var counts := countMap[r.from := Counted(countMap, r.from) + 1];
      assert forall a :: CountOk(powMap, countMap, countLimit, a);
      assert senders == SendersOf(powMap, blockHash, key);
      forall a ensures Counted(counts, a) <= countLimit
               ensures Counted(counts, a) == Counted(countMap, a) + (if a in senders[r.from := r] then 1 else 0)
                                             - if a in SendersOf(powMap, blockHash, key) then 1 else 0
      {
        assert CountOk(powMap, countMap, countLimit, a);
      }
      CountsFollow(powMap, countMap, countLimit, blockHash, key, senders[r.from := r], counts);
      FiledSet(powMap, blockHash, key, senders[r.from := r]);
      powMap := powMap[blockHash := cache[key := senders[r.from := r]]];
      countMap := counts;
      err := None;
    }

    method DelOneResult(blockHash: Hash, diff: nat, from: Address)
      requires Valid()
      modifies this
      ensures Valid()
      ensures forall b, d :: SendersOf(powMap, b, d) ==
                if b == blockHash && d == DiffHash(diff) then SendersOf(old(powMap), b, d) - {from}
                else SendersOf(old(powMap), b, d)
    {
      var key := DiffHash(diff);
      if blockHash !in powMap {
        return;
      }
      var cache := powMap[blockHash];
      if key !in cache {
        return;
      }
      var senders := cache[key];
      assert senders == SendersOf(powMap, blockHash, key);
      ghost var before, counts := powMap, countMap;
      forall a ensures Counted(countMap, a) <= countLimit {
        assert CountOk(powMap, countMap, countLimit, a);
      }
      FiledSet(powMap, blockHash, key, senders - {from});
      powMap := powMap[blockHash := cache[key := senders - {from}]];
      Absent(senders, from);
      if |senders| != |senders - {from}| {
        MinusCount(from);
        Positive(before, counts, countLimit, blockHash, key, from);
      }
      assert forall a :: a != from ==> Counted(countMap, a) == Counted(counts, a) && (a in senders - {from} <==> a in senders);
      CountsFollow(before, counts, countLimit, blockHash, key, senders - {from}, countMap);
    }

    /** The results for a block and a difficulty: all that are there, or an error. */
    method GetMinerResults(blockHash: Hash, diff: nat) returns (r: Option<set<MinerResult>>)
      requires Valid()
      ensures r.None? <==> SendersOf(powMap, blockHash, DiffHash(diff)) == map[]
      ensures r.Some? ==> r.value == SendersOf(powMap, blockHash, DiffHash(diff)).Values
    {
      if blockHash !in powMap {
        return None;
      }
      var cache, key := powMap[blockHash], DiffHash(diff);
      if key !in cache || |cache[key]| == 0 {
        return None;
      }
      r := Some(cache[key].Values);
    }

    method MinusCount(a: Address)
      modifies this`countMap
      ensures countMap == if a in old(countMap) then old(countMap)[a := if old(countMap)[a] > 0 then old(countMap)[a] - 1 else 0] else old(countMap)
    {
      if a in countMap {
        if countMap[a] > 0 {
          countMap := countMap[a := countMap[a] - 1];
        } else {
          countMap := countMap[a := 0];
        }
      }
    }
  }

  /** A sender with a result has been counted. */
  lemma Positive(pool: map<Hash, Cache>, counts: map<Address, nat>, limit: nat, b: Hash, d: Hash, a: Address)
    requires CountsOk(pool, counts, limit)
    ensures a in SendersOf(pool, b, d) ==> a in counts && counts[a] > 0
  {
    assert CountOk(pool, counts, limit, a);
    SlotIn(pool, (b, d), a);
  }

  lemma Absent(senders: Senders, a: Address)
    ensures a in senders <==> |senders| != |senders - {a}|
  {
    if a in senders {
      assert senders == (senders - {a})[a := senders[a]];
    } else {
      assert senders - {a} == senders;
    }
  }
}
