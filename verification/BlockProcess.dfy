/** The production of one block, at a height that is not for a broadcast block: messages
    about leaders, mining results, consensus, recovery, full blocks and inserts come in any
    order. What the checks answer, and whether a write succeeds, is a sequence of answers that
    is given. */
module BlockProcess {
  import opened Wrappers

  type Address = nat
  const NOBODY: Address := 0

  /** What the hash without signatures and nonce covers. */
  datatype Content = Content(leader: Address, time: nat, difficulty: nat, other: nat)

  datatype Seal = Seal(nonce: nat, coinbase: Address, mixDigest: nat, signatures: seq<nat>)

  /** A header. Its hash is taken to be free of collisions: it is the header itself, and the
      hash without signatures and nonce is its content. */
  datatype Header = Header(content: Content, seal: Seal)

  /** Transactions, receipts and state of a block. */
  type Body = nat

  /** A block in the cache; blockHash is left empty for a block that came as a whole. */
  datatype Cached = Cached(header: Header, blockHash: Option<Content>, body: Body, ready: bool)

  datatype MinerResult = MinerResult(from: Address, block: Content, difficulty: nat, seal: Seal)

  datatype Role = NoRole | Validator | Broadcast

  datatype Phase = Idle | BlockBroadcast | HeaderGen | MinerResultVerify | BlockInsert | End

  function Rank(p: Phase): (n: nat) {
    match p
    case Idle => 0
    case BlockBroadcast => 1
    case HeaderGen => 2
    case MinerResultVerify => 3
    case BlockInsert => 4
    case End => 5
  }

  /** The mining result that the header of a finished block tells of. */
  function ResultOf(h: Header): (r: MinerResult) { MinerResult(h.seal.coinbase, h.content, h.content.difficulty, h.seal) }

  /** The header with the seal of a mining result. */
  function CopyHeader(h: Header, r: MinerResult): (n: Header) { Header(h.content, r.seal) }

  /** The header of a finished block comes back from the result it tells of. */
  lemma RecoversHeader(h: Header, kept: Header)
    requires kept.content == h.content
    ensures CopyHeader(kept, ResultOf(h)) == h && ResultOf(h).block == h.content
  {
  }

  /** A number cut to 64 bits with sign. */
  function Int64(n: nat): (m: int) {
    var low := n % 0x1_0000_0000_0000_0000;
    if low >= 0x8000_0000_0000_0000 then low - 0x1_0000_0000_0000_0000 else low
  }

  /** It is within 63 bits and a sign, and differs from the number by a multiple of 2^64. */
  lemma Int64Is(n: nat)
    ensures -0x8000_0000_0000_0000 <= Int64(n) < 0x8000_0000_0000_0000
    ensures (n - Int64(n)) % 0x1_0000_0000_0000_0000 == 0
    ensures n < 0x8000_0000_0000_0000 ==> Int64(n) == n && DifficultyKey(n) == n
  {
  }

  /** The absolute value of a difficulty cut to 64 bits, as a key of results. */
  function DifficultyKey(d: nat): (k: nat) {
    if Int64(d) < 0 then -Int64(d) else Int64(d)
  }

  /** The time of a cached block, as far as 64 bits with sign have it. */
  function TimeOf(c: Cached): (t: int) { Int64(c.header.content.time) }

  /** A cached block later on. */
  predicate Keeps(c: Cached, d: Cached) {
    d.header.content == c.header.content && d.body == c.body && d.blockHash == c.blockHash && (c.ready ==> d == c)
  }

  ghost predicate KeepsAll(cache: map<Address, Cached>, next: map<Address, Cached>) {
    forall k {:trigger UnfoldKeeps(k)} :: UnfoldKeeps(k) ==>
      forall a :: a in cache ==> a in next && Keeps(cache[a], next[a])
  }

  ghost predicate UnfoldKeeps(k: int) { true }

  lemma KeepsOn(c: map<Address, Cached>, d: map<Address, Cached>, e: map<Address, Cached>, a: Address)
    requires KeepsAll(c, d) && (e == d || KeepsAll(d, e)) && a in d
    ensures KeepsAll(c, e) && a in e && Keeps(d[a], e[a])
  {
    assert UnfoldKeeps(0);
  }

  /** The block a node works with: that of the leader, or for a broadcast node one with the
      latest time. */
  ghost predicate IsCurrent(role: Role, cache: map<Address, Cached>, leader: Address, r: Option<Cached>) {
    && (r.Some? ==> r.value.header.content.leader in cache && cache[r.value.header.content.leader] == r.value)
    && (role != Broadcast ==> r == if leader in cache then Some(cache[leader]) else None)
    && (role == Broadcast ==> IsLatest(cache, r))
  }

  /** No block has a later time, and none is there exactly if all times are zero or negative. */
  ghost predicate IsLatest(cache: map<Address, Cached>, r: Option<Cached>) {
    forall k {:trigger UnfoldLatest(k)} :: UnfoldLatest(k) ==>
      && (r.None? <==> forall a :: a in cache ==> TimeOf(cache[a]) <= 0)
      && (r.Some? ==> forall a :: a in cache ==> TimeOf(cache[a]) <= TimeOf(r.value))
  }

  ghost predicate UnfoldLatest(k: int) { true }

  ghost predicate UnfoldEffect(k: int) { true }

  ghost predicate UnfoldProcess(k: int) { true }

  class Process {
    const self: Address
    const nextIsBroadcast: bool
    const answers: nat -> bool
    var asked: nat
    var curLeader: Address
    var nextLeader: Address
    var consensusTurn: nat
    var role: Role
    var state: Phase
    var cache: map<Address, Cached>
    var pool: set<MinerResult>
    var inserted: seq<Header>
    // What the checks have answered, and what was handed to the chain.
    ghost var dposPassed: set<Header>
    ghost var sealPassed: set<Header>
    ghost var onChain: set<Header>
    ghost var executed: set<(Content, Body)>
    ghost var written: seq<(Header, Body)>
    // The messages that came.
    ghost var log: seq<Message>

    /** The header passed both checks. */
    ghost predicate Passed(h: Header)
      reads this`dposPassed, this`sealPassed
    {
      h in dposPassed && h in sealPassed
    }

    /** The header passed both checks, or that of the validators while the chain had it
        already. */
    ghost predicate Verified(h: Header)
      reads this`dposPassed, this`sealPassed, this`onChain
    {
      h in dposPassed && (h in sealPassed || h in onChain)
    }

    /** A block marked ready has a verified header; a block in the cache is
        filed under its leader and its transactions were executed for its content; and so
        is every block handed to the chain. */
    ghost predicate Valid()
      reads this`cache, this`written, this`state, this`dposPassed, this`sealPassed, this`onChain, this`executed
    {
      forall k {:trigger UnfoldProcess(k)} :: UnfoldProcess(k) ==>
        && (forall a :: a in cache ==>
              && cache[a].header.content.leader == a && (cache[a].header.content, cache[a].body) in executed
              && (cache[a].blockHash.Some? ==> cache[a].blockHash.value == cache[a].header.content)
              && (cache[a].ready ==> Verified(cache[a].header)))
        && (forall w :: w in written ==> Verified(w.0) && (w.0.content, w.1) in executed)
        && (state == End ==> written != [])
    }

    constructor (self: Address, nextIsBroadcast: bool, answers: nat -> bool)
      ensures Valid() && written == [] && state == Idle && cache == map[] && pool == {} && asked == 0 && log == []
      ensures curLeader == nextLeader == NOBODY && consensusTurn == 0
      ensures this.self == self && this.nextIsBroadcast == nextIsBroadcast && this.answers == answers
    {
      this.self, this.nextIsBroadcast, this.answers, asked := self, nextIsBroadcast, answers, 0;
      curLeader, nextLeader, consensusTurn, role, state := NOBODY, NOBODY, 0, NoRole, Idle;
      cache, pool, inserted := map[], {}, [];
      dposPassed, sealPassed, onChain, executed, written, log := {}, {}, {}, {}, [], [];
    }

    /** What no message undoes: checks that were passed, blocks that were handed to the chain,
        one at most for a message, and blocks in the cache. Those keep their content and
        their transactions, and once ready, their header. */
    twostate predicate Extends()
      reads this
    {
      && old(dposPassed) <= dposPassed && old(sealPassed) <= sealPassed && old(onChain) <= onChain && old(executed) <= executed
      && old(written) <= written && |written| <= |old(written)| + 1 && old(inserted) <= inserted && old(asked) <= asked
      && (cache == old(cache) || KeepsAll(old(cache), cache))
    }

    /** Roles and leaders stay. */
    twostate predicate SameRoles()
      reads this
    {
      role == old(role) && curLeader == old(curLeader) && nextLeader == old(nextLeader) && consensusTurn == old(consensusTurn)
    }

    /** Nothing that matters for the block has changed, but for the phase. */
    twostate predicate Still()
      reads this
    {
      written == old(written) && cache == old(cache) && pool == old(pool) && asked == old(asked)
    }

    /** Nor has the phase. */
    twostate predicate Idles()
      reads this
    {
      Still() && state == old(state)
    }

    /** From now on every answer is yes. */
    ghost predicate AllYes()
      reads this`asked
    {
      forall k: nat :: k >= asked ==> answers(k)
    }

    // ------------------------------------------------------------- the checks

    /** The next answer. */
    method Ask() returns (yes: bool)
      modifies this`asked
      ensures yes == answers(old(asked)) && asked == old(asked) + 1
    {
      yes := answers(asked);
      asked := asked + 1;
    }

    /** The check by consensus of the validators. */
    method VerifyBlock(h: Header) returns (ok: bool)
      requires Valid()
      modifies this`dposPassed, this`asked
      ensures Valid() && dposPassed == if ok then old(dposPassed) + {h} else old(dposPassed)
      ensures ok == answers(old(asked)) && asked == old(asked) + 1
    {
      assert UnfoldProcess(0);
      ok := Ask();
      if ok {
        dposPassed := dposPassed + {h};
      }
    }

    /** The check of the proof of work. */
    method VerifySeal(h: Header) returns (ok: bool)
      requires Valid()
      modifies this`sealPassed, this`asked
      ensures Valid() && sealPassed == if ok then old(sealPassed) + {h} else old(sealPassed)
      ensures ok == answers(old(asked)) && asked == old(asked) + 1
    {
      assert UnfoldProcess(0);
      ok := Ask();
      if ok {
        sealPassed := sealPassed + {h};
      }
    }

    /** The check of a whole header, its proof of work included, unless the chain has it. */
    method VerifyHeader(h: Header) returns (ok: bool)
      requires Valid()
      modifies this`sealPassed, this`onChain, this`asked
      ensures Valid() && old(sealPassed) <= sealPassed && old(onChain) <= onChain && old(asked) <= asked
      ensures ok ==> h in sealPassed || h in onChain
      ensures ok <==> answers(old(asked)) || answers(old(asked) + 1)
    {
      assert UnfoldProcess(0);
      var known := Ask();
      if known {
        onChain := onChain + {h};
        return true;
      }
      ok := VerifySeal(h);
    }

    // ------------------------------------------------------------ the cache

    /** The cached block with the latest time after zero, in 64 bits with sign. */
    method GetLastBlockData() returns (r: Option<Cached>)
      requires Valid()
      ensures r.None? <==> forall a :: a in cache ==> TimeOf(cache[a]) <= 0
      ensures r.Some? ==> r.value.header.content.leader in cache && cache[r.value.header.content.leader] == r.value
      ensures r.Some? ==> forall a :: a in cache ==> TimeOf(cache[a]) <= TimeOf(r.value)
    {
      assert UnfoldProcess(0);
      r := None;
      var lastTime, todo := 0, cache.Keys;
      ghost var done := {};
      while todo != {}
        invariant todo <= cache.Keys && done + todo == cache.Keys
        invariant r.None? ==> lastTime == 0
        invariant r.Some? ==> r.value.header.content.leader in cache && cache[r.value.header.content.leader] == r.value
        invariant r.Some? ==> lastTime == TimeOf(r.value) > 0
        invariant forall a :: a in done ==> TimeOf(cache[a]) <= lastTime
      {
        var a :| a in todo;
        var time := TimeOf(cache[a]);
        if time > lastTime {
          r, lastTime := Some(cache[a]), time;
        }
        todo, done := todo - {a}, done + {a};
      }
    }

    method Current(leader: Address) returns (r: Option<Cached>)
      requires Valid()
      ensures IsCurrent(role, cache, leader, r)
    {
      assert UnfoldProcess(0);
      if role == Broadcast {
        r := GetLastBlockData();
      } else {
        r := if leader in cache then Some(cache[leader]) else None;
      }
    }

    // ------------------------------------------------------- mining results

    method VerifyOneResult(raw: Header, r: MinerResult) returns (ok: bool)
      requires Valid()
      modifies this`dposPassed, this`sealPassed, this`asked
      ensures Valid() && old(dposPassed) <= dposPassed && old(sealPassed) <= sealPassed && old(asked) <= asked
      ensures ok ==> Passed(CopyHeader(raw, r))
      ensures ok <==> raw.content == r.block && answers(old(asked)) && answers(old(asked) + 1)
    {
      var header := CopyHeader(raw, r);
      if header.content != r.block {
        return false;
      }
      ok := BothChecks(header);
    }

    /** The check by the validators, and then that of the proof of work. */
    method BothChecks(h: Header) returns (ok: bool)
      requires Valid()
      modifies this`dposPassed, this`sealPassed, this`asked
      ensures Valid() && old(dposPassed) <= dposPassed && old(sealPassed) <= sealPassed && old(asked) <= asked
      ensures ok ==> Passed(h)
      ensures ok <==> answers(old(asked)) && answers(old(asked) + 1)
    {
      ok := VerifyBlock(h);
      if ok {
        ok := VerifySeal(h);
      }
    }

    /** A result that passes; those that fail before are deleted, and nothing else. */
    method PickSatisfyMinerResults(header: Header, results: set<MinerResult>)
      returns (r: Option<MinerResult>, ghost failed: set<MinerResult>)
      requires Valid()
      modifies this`dposPassed, this`sealPassed, this`pool, this`asked
      ensures Valid() && old(dposPassed) <= dposPassed && old(sealPassed) <= sealPassed && old(asked) <= asked
      ensures forall x :: x in failed ==> x.block != header.content || exists k: nat :: k >= old(asked) && !answers(k)
      ensures failed <= results && pool == old(pool) - failed && (r.None? ==> failed == results)
      ensures r.Some? ==> r.value in results - failed && Passed(CopyHeader(header, r.value))
    {
      assert UnfoldProcess(0);
      var todo := results;
      failed := {};
      while todo != {}
        invariant Valid() && old(dposPassed) <= dposPassed && old(sealPassed) <= sealPassed && old(asked) <= asked
        invariant forall x :: x in failed ==> x.block != header.content || exists k: nat :: k >= old(asked) && !answers(k)
        invariant todo + failed == results && todo !! failed && pool == old(pool) - failed
        decreases todo
      {
        var x :| x in todo;
        var ok := VerifyOneResult(header, x);
        if ok {
          return Some(x), failed;
        }
        pool := pool - {x};
        todo, failed := todo - {x}, failed + {x};
      }
      r := None;
    }

    /** The results of the pool for a block. */
    function Results(data: Cached): (rs: set<MinerResult>)
      reads this`pool
    {
      set x | x in pool && Some(x.block) == data.blockHash && x.difficulty == DifficultyKey(data.header.content.difficulty)
    }

    /** It is for this node to insert the block. */
    predicate Turn()
      reads this`role, this`nextLeader
    {
      if nextIsBroadcast then role == Broadcast else role == Validator && nextLeader == self != NOBODY
    }

    /** Look for a mining result that makes the block ready. With it, or if the block is ready
        already, go on to the insert. */
    method ProcessMinerResultVerify(leader: Address, checkState: bool)
      requires Valid()
      modifies this`dposPassed, this`sealPassed, this`pool, this`cache, this`asked, this`written, this`state
      ensures Effect(leader, checkState)
      ensures state == old(state) || Rank(state) >= Rank(BlockInsert)
      ensures cache.Keys == old(cache).Keys
      ensures role != Broadcast ==> forall a :: a in cache && a != leader ==> cache[a] == old(cache)[a]
      ensures pool <= old(pool)
      ensures Valid() && Extends() && SameRoles()
    {
      if checkState && state != MinerResultVerify {
        return;
      }
      var ok;
      ghost var data;
      ok, data := HaveReady(leader);
      if !ok {
        return;
      }
      data := GoInsert();
    }

    /** Go on to the insert. */
    method GoInsert() returns (ghost data: Option<Cached>)
      requires Valid()
      modifies this`written, this`state, this`asked
      ensures Valid() && IsCurrent(role, cache, curLeader, data)
      ensures var now := Turn() && Hands(data, None);
              && written == (if now then old(written) + [Handed(data, None)] else old(written))
              && state == (if now && answers(old(asked)) then End else BlockInsert)
              && old(asked) <= asked
    {
      assert UnfoldProcess(0);
      state := BlockInsert;
      data := ProcessBlockInsert();
    }

    /** What a look at the block of a leader does: nothing in the wrong phase, without the block,
        or without a result for it; else, if all checks pass, the block is ready, and handed to
        the chain if that is for this node to do. */
    twostate predicate Effect(leader: Address, checkState: bool)
      reads this
    {
      forall k {:trigger UnfoldEffect(k)} :: UnfoldEffect(k) ==>
        && (checkState && old(state) != MinerResultVerify ==> Idles())
        && (role != Broadcast && leader !in old(cache) ==> Idles())
        && (role != Broadcast && leader in old(cache) && !old(cache)[leader].ready && old(Results(cache[leader])) == {} ==> Idles())
        && (role != Broadcast && (checkState ==> old(state) == MinerResultVerify) && leader in old(cache) && old(AllYes()) &&
            (old(cache)[leader].ready || old(Results(cache[leader])) != {}) ==>
              && Readied(leader) && Rank(state) >= Rank(BlockInsert)
              && (leader == curLeader && Turn() ==>
                    state == End && written == old(written) + [(cache[leader].header, cache[leader].body)]))
    }

    /** The block of a leader is ready: it was, or it has got the seal of a result of the pool
        and its header passed both checks. */
    twostate predicate Readied(leader: Address)
      requires leader in old(cache)
      reads this
    {
      && leader in cache && cache[leader].ready
      && (old(cache)[leader].ready ==> cache[leader] == old(cache)[leader])
      && (!old(cache)[leader].ready ==>
            exists r :: r in old(pool) && r in old(Results(cache[leader])) &&
                        Some(r.block) == old(cache)[leader].blockHash &&
                        r.difficulty == DifficultyKey(old(cache)[leader].header.content.difficulty) &&
                        Passed(CopyHeader(old(cache)[leader].header, r)) &&
                        cache[leader] == old(cache)[leader].(header := CopyHeader(old(cache)[leader].header, r), ready := true))
    }

    /** Whether the current block is ready, or is now made so. */
    method HaveReady(leader: Address) returns (ok: bool, ghost data: Option<Cached>)
      requires Valid()
      modifies this`dposPassed, this`sealPassed, this`pool, this`cache, this`asked
      ensures Valid() && Extends() && SameRoles() && pool <= old(pool) && IsCurrent(role, old(cache), leader, data)
      ensures cache.Keys == old(cache).Keys && (!ok ==> cache == old(cache))
      ensures data.Some? && role != Broadcast ==> data.value.header.content.leader == leader
      ensures data.None? ==> !ok && Idles()
      ensures data.Some? && data.value.ready ==> ok && Idles()
      ensures data.Some? && ok ==> data.value.header.content.leader in old(cache) && Readied(data.value.header.content.leader)
      ensures data.Some? && !ok ==>
                old(Results(data.value)) == {} || exists k: nat :: k >= old(asked) && !answers(k)
      ensures data.Some? && !data.value.ready && old(Results(data.value)) == {} ==> !ok && Idles()
      ensures data.Some? ==>
                forall a :: a in cache && a != data.value.header.content.leader ==> cache[a] == old(cache)[a]
    {
      assert UnfoldProcess(0);
      data := None;
      var now := Current(leader);
      data := now;
      if now.None? {
        return false, data;
      }
      ok := true;
      if !now.value.ready {
        ok := MakeReady(now.value);
      }
    }

    /** Give a cached block the seal of a mining result that passes both checks. It stays as it
        is only if the pool has no result for it, or a check was answered with no. */
    method MakeReady(data: Cached) returns (ok: bool)
      requires Valid() && data.header.content.leader in cache && cache[data.header.content.leader] == data && !data.ready
      modifies this`dposPassed, this`sealPassed, this`pool, this`cache, this`asked
      ensures Valid() && Extends() && SameRoles() && pool <= old(pool)
      ensures !ok ==> cache == old(cache) && pool == old(pool) - old(Results(data))
      ensures !ok ==> old(Results(data)) == {} || exists k: nat :: k >= old(asked) && !answers(k)
      ensures old(Results(data)) == {} ==> !ok && asked == old(asked)
      ensures ok ==>
                && Readied(data.header.content.leader)
                && cache == old(cache)[data.header.content.leader := cache[data.header.content.leader]]
    {
      assert UnfoldProcess(0);
      var results := Results(data);
      if results == {} {
        return false;
      }
      ghost var failed;
      var r;
      r, failed := PickSatisfyMinerResults(data.header, results);
      if r.None? {
        return false;
      }
      var h := CopyHeader(data.header, r.value);
      cache := cache[h.content.leader := data.(header := h, ready := true)];
      ok := true;
    }

    // --------------------------------------------------------------- inserts

    /** The block is handed to the chain: it is there, it is ready, and a header that came from
        elsewhere has its content. */
    predicate Hands(data: Option<Cached>, other: Option<Header>) {
      data.Some? && data.value.ready && (other.Some? ==> other.value.content == data.value.header.content)
    }

    /** What is handed over: the block with its own header, or with the other one. */
    function Handed(data: Option<Cached>, other: Option<Header>): (w: (Header, Body))
      requires data.Some?
    {
      (if other.Some? then other.value else data.value.header, data.value.body)
    }

    /** Late enough in the process, and if it is the turn of this node, the current block is
        handed to the chain exactly if it is ready; the process ends if the chain takes it. */
    method ProcessBlockInsert() returns (ghost data: Option<Cached>)
      requires Valid()
      modifies this`written, this`state, this`asked
      ensures Valid() && Extends() && SameRoles() && cache == old(cache) && pool == old(pool)
      ensures IsCurrent(role, cache, curLeader, data)
      ensures var now := Rank(old(state)) >= Rank(BlockInsert) && Turn() && Hands(data, None);
              && written == (if now then old(written) + [Handed(data, None)] else old(written))
              && state == (if now && answers(old(asked)) then End else old(state))
              && (!now ==> Idles())
    {
      data := None;
      var here := Current(curLeader);
      data := here;
      if Rank(state) < Rank(BlockInsert) {
        return;
      }
      if nextIsBroadcast {
        if role != Broadcast {
          return;
        }
      } else {
        if role != Validator || nextLeader == NOBODY || nextLeader != self {
          return;
        }
      }
      var ok;
      ok, data := InsertAndBcBlock(None);
      if ok {
        assert UnfoldProcess(0);
        state := End;
      }
    }

    /** Hand the current block to the chain, with its own header or with one that was checked
        and has the same content: if and only if it is there and ready. */
    method InsertAndBcBlock(other: Option<Header>) returns (ok: bool, ghost data: Option<Cached>)
      requires Valid() && (other.Some? ==> Verified(other.value))
      modifies this`written, this`asked
      ensures Valid() && IsCurrent(role, cache, curLeader, data)
      ensures written == if Hands(data, other) then old(written) + [Handed(data, other)] else old(written)
      ensures ok <==> Hands(data, other) && answers(old(asked))
      ensures asked == if Hands(data, other) then old(asked) + 1 else old(asked)
    {
      assert UnfoldProcess(0);
      data := None;
      var here := Current(curLeader);
      data := here;
      if here.None? || !here.value.ready {
        return false, data;
      }
      var h := here.value.header;
      if other.Some? {
        if other.value.content != h.content {
          return false, data;
        }
        h := other.value;
      }
      written := written + [(h, here.value.body)];
      ok := Ask();
    }

    // ------------------------------------------------------------- messages

    /** A node that is not the leader, or a broadcast node, has nothing to generate. */
    predicate Follows()
      reads this`role, this`curLeader
    {
      role == Broadcast || (role == Validator && curLeader != NOBODY && curLeader != self)
    }

    method StartBcBlock()
      requires Valid()
      modifies this`dposPassed, this`sealPassed, this`pool, this`cache, this`asked, this`written, this`state
      ensures Valid() && Extends() && SameRoles()
      ensures state == old(state) || Rank(state) >= Rank(HeaderGen)
      ensures old(state) != BlockBroadcast || role == NoRole || (role == Validator && curLeader == NOBODY) ==> Idles()
      ensures old(state) == BlockBroadcast && Follows() && role != Broadcast && curLeader !in old(cache) ==>
                state == MinerResultVerify && Still()
    {
      assert UnfoldProcess(0);
      if state != BlockBroadcast {
        return;
      }
      if role == NoRole || (role == Validator && curLeader == NOBODY) {
        return;
      }
      state := HeaderGen;
      StartHeaderGen();
    }

    method StartHeaderGen()
      requires Valid()
      modifies this`dposPassed, this`sealPassed, this`pool, this`cache, this`asked, this`written, this`state
      ensures Valid() && Extends() && SameRoles()
      ensures state == old(state) || Rank(state) >= Rank(HeaderGen)
      ensures old(state) != HeaderGen ==> Idles()
      ensures old(state) == HeaderGen && Follows() && role != Broadcast && curLeader !in old(cache) ==>
                state == MinerResultVerify && Still()
    {
      if state != HeaderGen {
        return;
      }
      if role == Broadcast || (role == Validator && curLeader != NOBODY && curLeader != self) {
        WaitForResult();
        return;
      }
      if role == NoRole || curLeader == NOBODY {
        return;
      }
      var generated := Ask();
      if !generated {
        return;
      }
      WaitForResult();
    }

    /** Wait for a mining result, and look whether there is one already. */
    method WaitForResult()
      requires Valid()
      modifies this`dposPassed, this`sealPassed, this`pool, this`cache, this`asked, this`written, this`state
      ensures Valid() && Extends() && SameRoles() && Rank(state) >= Rank(MinerResultVerify)
      ensures role != Broadcast && curLeader !in old(cache) ==> state == MinerResultVerify && Still()
    {
      assert UnfoldProcess(0);
      state := MinerResultVerify;
      ProcessMinerResultVerify(curLeader, true);
      assert UnfoldEffect(0);
    }

    /** The node knows its role; a validator without a leader waits for one. */
    twostate predicate Runs(r: Role)
      reads this
    {
      && role == r && curLeader == old(curLeader) && nextLeader == old(nextLeader) && consensusTurn == old(consensusTurn)
      && (old(state) == Idle && r == Validator && curLeader == NOBODY ==> state == BlockBroadcast && Still())
    }

    method StartRunning(r: Role)
      requires Valid()
      modifies this`dposPassed, this`sealPassed, this`pool, this`cache, this`asked, this`written, this`state, this`role
      ensures Valid() && Extends() && Runs(r)
    {
      assert UnfoldProcess(0);
      role := r;
      if state == Idle {
        state := BlockBroadcast;
      }
      StartBcBlock();
    }

    method Close()
      requires Valid()
      modifies this`state, this`curLeader, this`nextLeader, this`consensusTurn
      ensures Valid() && Extends() && state == Idle && written == old(written) && cache == old(cache)
    {
      assert UnfoldProcess(0);
      state, curLeader, nextLeader, consensusTurn := Idle, NOBODY, NOBODY, 0;
    }

    method ReInit()
      requires Valid()
      modifies this`state, this`curLeader, this`nextLeader, this`consensusTurn
      ensures Valid() && Extends() && written == old(written) && cache == old(cache)
      ensures old(state) != Idle ==> state == BlockBroadcast && curLeader == nextLeader == NOBODY
    {
      assert UnfoldProcess(0);
      if state == Idle {
        return;
      }
      state, curLeader, nextLeader, consensusTurn := BlockBroadcast, NOBODY, NOBODY, 0;
    }

    method ReInitNextLeader()
      requires Valid()
      modifies this`nextLeader
      ensures Valid() && nextLeader == NOBODY
    {
      nextLeader := NOBODY;
    }

    /** A new leader, or a new turn of one, starts the process again: a follower waits for a
        mining result for its block. */
    twostate predicate Led(leader: Address, turn: nat)
      reads this
    {
      var same := old(curLeader) == leader && old(consensusTurn) == turn;
      && curLeader == leader && consensusTurn == turn && role == old(role)
      && (!same && old(state) != Idle ==> nextLeader == NOBODY)
      && (old(state) == Idle || same ==> Idles())
      && (!same && old(state) != Idle && Follows() && role != Broadcast && leader !in old(cache) ==> state == MinerResultVerify && Still())
    }

    method SetCurLeader(leader: Address, turn: nat)
      requires Valid()
      modifies this`dposPassed, this`sealPassed, this`pool, this`cache, this`asked, this`written, this`state, this`curLeader, this`nextLeader, this`consensusTurn
      ensures Valid() && Extends() && Led(leader, turn)
    {
      assert UnfoldProcess(0);
      if curLeader == leader && consensusTurn == turn {
        return;
      }
      curLeader, consensusTurn := leader, turn;
      if state == Idle {
        return;
      }
      state, nextLeader := BlockBroadcast, NOBODY;
      StartBcBlock();
    }

    /** The next leader is known; if it is a new one and the phase and the turn are right, the
        current block is handed to the chain exactly if it is ready. */
    twostate predicate Nexted(leader: Address, new data: Option<Cached>)
      reads this
    {
      && nextLeader == leader && curLeader == old(curLeader) && role == old(role) && cache == old(cache)
      && consensusTurn == old(consensusTurn) && pool == old(pool) && IsCurrent(role, cache, curLeader, data)
      && var now := old(nextLeader) != leader && Rank(old(state)) >= Rank(BlockInsert) && Turn() && Hands(data, None);
         && written == (if now then old(written) + [Handed(data, None)] else old(written))
         && state == (if now && answers(old(asked)) then End else old(state))
         && (!now ==> Idles())
    }

    /** A next leader triggers the insert if the block is waiting for it. */
    method SetNextLeader(leader: Address) returns (ghost data: Option<Cached>)
      requires Valid()
      modifies this`nextLeader, this`written, this`state, this`asked
      ensures Valid() && Extends() && Nexted(leader, data)
    {
      data := None;
      var here := Current(curLeader);
      data := here;
      if nextLeader == leader {
        return;
      }
      nextLeader := leader;
      if Rank(state) < Rank(BlockInsert) {
        return;
      }
      data := ProcessBlockInsert();
    }

    /** A header that is new and passes both checks is kept, and the current block handed to the
        chain with it exactly if that is ready and has its content. */
    twostate predicate Noticed(header: Header, new data: Option<Cached>)
      reads this
    {
      && IsCurrent(role, cache, curLeader, data)
      && var checked := header !in old(inserted) && answers(old(asked)) && answers(old(asked) + 1);
         && inserted == (if checked then old(inserted) + [header] else old(inserted))
         && written == (if checked && Hands(data, Some(header)) then old(written) + [(header, data.value.body)] else old(written))
    }

    /** A notice that a block was inserted elsewhere: its header is checked here too, and the
        block handed over with it if that is ready here. */
    method StartBlockInsert(header: Header) returns (ghost data: Option<Cached>)
      requires Valid()
      modifies this`dposPassed, this`sealPassed, this`asked, this`written, this`inserted
      ensures Valid() && Extends() && SameRoles() && cache == old(cache) && pool == old(pool) && state == old(state)
      ensures Noticed(header, data)
    {
      data := None;
      var here := Current(curLeader);
      data := here;
      if header in inserted {
        return;
      }
      var ok := BothChecks(header);
      if !ok {
        return;
      }
      ok, data := InsertAndBcBlock(Some(header));
      inserted := inserted + [header];
    }

    /** If all checks pass, a result for the block of a leader makes it ready with the seal of a
        result of the pool, and the current block is then handed to the chain if it is the
        turn of this node. */
    twostate predicate Sealed(leader: Address, r: MinerResult)
      reads this
    {
      && role != Broadcast && leader in old(cache) && old(AllYes()) && !old(cache)[leader].ready
      && Some(r.block) == old(cache)[leader].blockHash && r.difficulty == DifficultyKey(r.block.difficulty) ==>
        && leader in cache && cache[leader].ready && Rank(state) >= Rank(BlockInsert)
        && (exists x :: x in old(pool) + {r} && x.block == r.block && cache[leader].header == CopyHeader(old(cache)[leader].header, x) &&
                        Passed(cache[leader].header))
        && (leader == curLeader && Turn() ==> state == End && written == old(written) + [(cache[leader].header, old(cache)[leader].body)])
    }

    /** A mining result that is accepted into the pool, and is looked at if the process is
        waiting for one. */
    method AddMinerResult(r: MinerResult, accepted: bool)
      requires Valid()
      modifies this`dposPassed, this`sealPassed, this`pool, this`cache, this`asked, this`written, this`state
      ensures pool <= old(pool) + {r} && (!accepted ==> Idles())
      ensures Valid() && Extends() && SameRoles()
      ensures accepted && old(state) == MinerResultVerify ==> Sealed(curLeader, r)
    {
      if !accepted {
        return;
      }
      pool := pool + {r};
      WasResult(curLeader, r);
      ProcessMinerResultVerify(curLeader, true);
      assert UnfoldEffect(0);
    }

    /** A block is filed under its leader; without a mining result nothing else happens. */
    twostate predicate Filed(header: Header, body: Body)
      reads this
    {
      var leader := header.content.leader;
      && leader in cache
      && (leader !in old(cache) ==> cache[leader].header.content == header.content && cache[leader].body == body)
      && (leader !in old(cache) && old(pool) == {} && role != Broadcast && leader == curLeader ==>
            && cache == old(cache)[leader := Cached(header, Some(header.content), body, false)]
            && written == old(written) && state == old(state) && pool == {} && asked == old(asked))
    }

    /** A block that was executed and verified here. */
    method AddConsensusBlock(header: Header, body: Body)
      requires Valid()
      modifies this`dposPassed, this`sealPassed, this`pool, this`cache, this`asked, this`written, this`state, this`executed
      ensures Valid() && Extends() && SameRoles() && Filed(header, body)
    {
      SaveVerifiedBlock(header, body);
      ghost var kept := cache;
      ProcessMinerResultVerify(curLeader, true);
      KeepsOn(old(cache), kept, cache, header.content.leader);
      assert UnfoldEffect(0);
    }

    /** Keep a block under its leader, unless there is one already. */
    method SaveVerifiedBlock(header: Header, body: Body)
      requires Valid()
      modifies this`cache, this`executed
      ensures Valid() && old(executed) <= executed && KeepsAll(old(cache), cache)
      ensures cache == if header.content.leader in old(cache) then old(cache)
                       else old(cache)[header.content.leader := Cached(header, Some(header.content), body, false)]
    {
      assert UnfoldProcess(0);
      executed := executed + {(header.content, body)};
      if header.content.leader !in cache {
        cache := cache[header.content.leader := Cached(header, Some(header.content), body, false)];
      }
    }

    /** The header of a finished block, to catch up: its seal counts as a mining result. */
    method ProcessRecoveryMsg(header: Header, accepted: bool)
      requires Valid()
      modifies this`dposPassed, this`sealPassed, this`pool, this`cache, this`asked, this`written, this`state
      ensures Valid() && Extends() && SameRoles()
      ensures accepted ==> Sealed(header.content.leader, ResultOf(header))
    {
      if accepted {
        pool := pool + {ResultOf(header)};
        WasResult(header.content.leader, ResultOf(header));
      }
      ProcessMinerResultVerify(header.content.leader, false);
      assert UnfoldEffect(0);
    }

    /** A result in the pool that has the block of a leader and its difficulty counts for it. */
    lemma WasResult(leader: Address, r: MinerResult)
      requires Valid() && r in pool
      ensures leader in cache && Some(r.block) == cache[leader].blockHash && r.difficulty == DifficultyKey(r.block.difficulty) ==>
                r in Results(cache[leader])
    {
      assert UnfoldProcess(0);
    }

    /** A whole block that is not there yet replaces that of its leader if all checks pass, and
        is handed to the chain if it is the current one and the turn of this node. */
    twostate predicate Filled(header: Header, body: Body)
      reads this
    {
      var leader := header.content.leader;
      if exists a :: a in old(cache) && old(cache)[a].blockHash == Some(header.content) then
        Idles()
      else
        old(AllYes()) ==>
          && leader in cache && cache[leader] == Cached(header, None, body, true) && Rank(state) >= Rank(BlockInsert)
          && (role != Broadcast && leader == curLeader && Turn() ==> state == End && written == old(written) + [(header, body)])
    }

    /** A whole block: it is checked and executed before it is kept as ready. */
    method ProcessFullBlockRsp(header: Header, body: Body)
      requires Valid()
      modifies this`dposPassed, this`sealPassed, this`onChain, this`asked, this`executed, this`cache, this`state, this`written
      ensures Valid() && old(written) <= written && |written| <= |old(written)| + 1
      ensures cache == old(cache) || (Verified(header) && cache == old(cache)[header.content.leader := Cached(header, None, body, true)])
      ensures SameRoles() && Filled(header, body)
    {
      if exists a :: a in cache && cache[a].blockHash == Some(header.content) {
        return;
      }
      var ok := CheckAndRun(header, body);
      if !ok {
        return;
      }
      InsertFull(header, body);
    }

    /** Keep a whole block as ready and go on to the insert. */
    method InsertFull(header: Header, body: Body)
      requires Valid() && Verified(header) && (header.content, body) in executed
      modifies this`cache, this`state, this`written, this`asked
      ensures Valid() && old(written) <= written && |written| <= |old(written)| + 1
      ensures cache == old(cache)[header.content.leader := Cached(header, None, body, true)] && Rank(state) >= Rank(BlockInsert)
      ensures old(AllYes()) && role != Broadcast && header.content.leader == curLeader && Turn() ==>
                state == End && written == old(written) + [(header, body)]
    {
      assert UnfoldProcess(0);
      cache := cache[header.content.leader := Cached(header, None, body, true)];
      ghost var data := GoInsert();
    }

    /** Check a header and execute the transactions that came with it. */
    method CheckAndRun(header: Header, body: Body) returns (ok: bool)
      requires Valid()
      modifies this`dposPassed, this`sealPassed, this`onChain, this`asked, this`executed
      ensures Valid() && (ok ==> Verified(header) && (header.content, body) in executed) && old(asked) <= asked
      ensures old(AllYes()) ==> ok
    {
      ok := VerifyHeader(header);
      if !ok {
        return;
      }
      ok := VerifyBlock(header);
      if !ok {
        return;
      }
      ok := Ask();
      if ok {
        assert UnfoldProcess(0);
        executed := executed + {(header.content, body)};
      }
    }

    /** A request for a whole block is answered with one that passed both checks. */
    method ProcessFullBlockReq(hash: Content) returns (r: Option<(Header, Body)>)
      requires Valid()
      ensures r.Some? ==> Verified(r.value.0) && (r.value.0.content, r.value.1) in executed
    {
      assert UnfoldProcess(0);
      if a :| a in cache && cache[a].blockHash == Some(hash) {
        if cache[a].ready {
          return Some((cache[a].header, cache[a].body));
        }
      }
      r := None;
    }
  }

  datatype Message =
    | Running(role: Role) | Closing | Restart | ForgetNext | CurLeader(leader: Address, turn: nat) | NextLeader(leader: Address)
    | InsertNotice(header: Header) | Mined(result: MinerResult, accepted: bool) | Consensus(header: Header, body: Body)
    | Recovery(header: Header, accepted: bool) | FullBlock(header: Header, body: Body)

  /** Whatever messages come, in whatever order, every block handed to the chain has a header
      that passed both checks, or one that the chain already had and that the validators
      passed, and transactions executed for it. */
  method HandleAll(self: Address, nextIsBroadcast: bool, answers: nat -> bool, messages: seq<Message>) returns (p: Process)
    ensures p.log == messages && p.Valid() && forall w :: w in p.written ==> p.Verified(w.0) && (w.0.content, w.1) in p.executed
  {
    p := new Process(self, nextIsBroadcast, answers);
    var i := 0;
    while i < |messages|
      invariant 0 <= i <= |messages| && p.Valid() && fresh(p) && p.log == messages[..i]
    {
      ghost var data := Handle(p, messages[i]);
      i := i + 1;
    }
    assert UnfoldProcess(0);
    assert messages[..|messages|] == messages;
  }

  method Handle(p: Process, m: Message) returns (ghost data: Option<Cached>)
    requires p.Valid()
    modifies p
    ensures p.Valid() && p.log == old(p.log) + [m]
    ensures m.Running? ==> p.Runs(m.role)
    ensures m.Closing? ==> p.state == Idle && p.written == old(p.written)
    ensures m.Restart? ==> p.written == old(p.written) && (old(p.state) != Idle ==> p.state == BlockBroadcast && p.curLeader == NOBODY)
    ensures m.ForgetNext? ==> p.Idles() && p.nextLeader == NOBODY
    ensures m.CurLeader? ==> p.Led(m.leader, m.turn)
    ensures m.NextLeader? ==> p.Nexted(m.leader, data)
    ensures m.InsertNotice? ==> p.Noticed(m.header, data)
    ensures m.Mined? ==> p.SameRoles() && if m.accepted then old(p.state) == MinerResultVerify ==> p.Sealed(p.curLeader, m.result) else p.Idles()
    ensures m.Consensus? ==> p.SameRoles() && p.Filed(m.header, m.body)
    ensures m.Recovery? ==> p.SameRoles() && (m.accepted ==> p.Sealed(m.header.content.leader, ResultOf(m.header)))
    ensures m.FullBlock? ==> p.SameRoles() && p.Filled(m.header, m.body)
  {
    data := None;
    p.log := p.log + [m];
    match m {
      case Running(role) => p.StartRunning(role);
      case Closing => p.Close();
      case Restart => p.ReInit();
      case ForgetNext => p.ReInitNextLeader();
      case CurLeader(leader, turn) => p.SetCurLeader(leader, turn);
      case NextLeader(leader) => data := p.SetNextLeader(leader);
      case InsertNotice(header) => data := p.StartBlockInsert(header);
      case Mined(result, accepted) => p.AddMinerResult(result, accepted);
      case Consensus(header, body) => p.AddConsensusBlock(header, body);
      case Recovery(header, accepted) => p.ProcessRecoveryMsg(header, accepted);
      case FullBlock(header, body) => p.ProcessFullBlockRsp(header, body);
    }
  }

  /** A run that gets there: a validator that is to lead the next height is told the leader, gets
      the block of the leader and a mining result for it, and all checks pass. The block is
      then handed to the chain with the seal of the result, and the process ends. */
  method HandsOver(self: Address, answers: nat -> bool, leader: Address, turn: nat, header: Header, body: Body, r: MinerResult)
    returns (p: Process)
    requires self != NOBODY && leader != NOBODY && leader != self && header.content.leader == leader
    requires r.block == header.content && r.difficulty == DifficultyKey(header.content.difficulty)
    requires forall k: nat :: answers(k)
    ensures p.Valid() && p.written == [(Header(header.content, r.seal), body)] && p.state == End
  {
    p := new Process(self, false, answers);
    ghost var data := Handle(p, Running(Validator));
    data := Handle(p, CurLeader(leader, turn));
    data := Handle(p, NextLeader(self));
    data := Handle(p, Consensus(header, body));
    data := Handle(p, Mined(r, true));
  }
}
