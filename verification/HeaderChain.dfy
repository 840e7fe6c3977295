/** The header chain: headers and total difficulties by number and hash, the canonical
    index, and the caches in front of them. */
module HeaderChains {
  import opened Wrappers
  import opened ChainTree

  // --------------------------------------------------------------- the caches

  /** A cache that drops what was used least recently. */
  datatype Lru<K(==), V> = Lru(limit: nat, order: seq<K>, items: map<K, V>) {
    function Lookup(k: K): (v: Option<V>) {
      if k in items then Some(items[k]) else None
    }

    function Without(k: K): (s: seq<K>) { Drop(order, k) }

    static function Drop(s: seq<K>, k: K): (r: seq<K>) {
      if s == [] then [] else if s[0] == k then s[1..] else [s[0]] + Drop(s[1..], k)
    }

    /** k is the one used last. */
    function Touch(k: K): (c: Lru<K, V>)
      ensures c.items == items
    {
      Lru(limit, [k] + Without(k), items)
    }

    function Add(k: K, v: V): (c: Lru<K, V>)
      ensures forall x :: x in c.items ==> (if x == k then c.items[x] == v else x in items && c.items[x] == items[x])
    {
      var o := [k] + Without(k);
      if |o| > limit then Lru(limit, o[..limit], items[k := v] - {o[|o| - 1]})
      else Lru(limit, o, items[k := v])
    }

    function Purge(): (c: Lru<K, V>) { Lru(limit, [], map[]) }
  }

  // ------------------------------------------------------------ the database

  /** What is stored by number and hash, and the number of each hash. */
  datatype Db = Db(headers: map<(nat, Hash), Block>, tds: map<(nat, Hash), nat>, numbers: map<Hash, nat>)

  /** An entry of the canonical index; the zero hash stands for none. */
  function CanonAt(canon: map<nat, Hash>, n: nat): (h: Hash) { if n in canon then canon[n] else Zero }

  /** Every header known descends from the genesis block over known headers, and its
      total difficulty is the sum of the difficulties along that way. */
  ghost predicate DbOk(g: Block, db: Db) {
    && g.Key() in db.tds
    && (forall k {:trigger Known(g, db, k)} :: k in db.tds ==> Known(g, db, k))
    && (forall k :: k in db.headers ==> k in db.tds)
    && (forall h :: h in db.numbers ==> h.Of? && db.numbers[h] == h.block.number && h.block.Key() in db.tds)
  }

  ghost predicate Known(g: Block, db: Db, k: (nat, Hash))
    requires k in db.tds
  {
    && k.1.Of? && k.0 == k.1.block.number && Rooted(g, k.1.block)
    && k in db.headers && db.headers[k] == k.1.block && db.tds[k] == TotalDifficulty(g, k.1.block)
    && k.1 in db.numbers
    && (k.1.block != g ==> k.1.block.ParentKey() in db.tds)
  }

  // The caches hold nothing but what is in the database.

  ghost predicate HeadersTrue(db: Db, c: Lru<Hash, Block>) {
    forall h :: h in c.items ==> h.Of? && c.items[h] == h.block && h.block.Key() in db.tds
  }

  ghost predicate TdsTrue(g: Block, db: Db, c: Lru<Hash, nat>) {
    forall h :: h in c.items ==> h.Of? && c.items[h] == TotalDifficulty(g, h.block) && h.block.Key() in db.tds
  }

  ghost predicate NumbersTrue(db: Db, c: Lru<Hash, nat>) {
    forall h :: h in c.items ==> h.Of? && c.items[h] == h.block.number && h.block.Key() in db.tds
  }

  lemma FreshDb(g: Block)
    requires IsGenesis(g)
    ensures var db := Db(map[g.Key() := g], map[g.Key() := g.difficulty], map[Of(g) := 0]);
            DbOk(g, db) && map[0 := Of(g)] == Line(g, g) && Heaviest(g, db, g)
  {
  }

  lemma TdEntry(g: Block, db: Db, h: Hash, n: nat)
    requires DbOk(g, db) && (n, h) in db.tds
    ensures h.Of? && h.block.number == n && db.tds[(n, h)] == TotalDifficulty(g, h.block)
  {
    assert Known(g, db, (n, h));
  }

  lemma HeaderEntry(g: Block, db: Db, h: Hash, n: nat)
    requires DbOk(g, db) && (n, h) in db.tds
    ensures h.Of? && h.block.number == n && (n, h) in db.headers && db.headers[(n, h)] == h.block
    ensures h in db.numbers && db.numbers[h] == n
  {
    assert Known(g, db, (n, h));
  }

  /** The head is as heavy as any header. */
  ghost predicate Heaviest(g: Block, db: Db, head: Block) {
    forall k :: k in db.tds ==> db.tds[k] <= TotalDifficulty(g, head)
  }

  /** Nothing is stored under a number that is not its own. */
  lemma WrongNumber(g: Block, db: Db, h: Hash, n: nat)
    requires DbOk(g, db)
    ensures (n, h) in db.tds ==> h.Of? && n == h.block.number
  {
    if (n, h) in db.tds {
      assert Known(g, db, (n, h));
    }
  }

  function Recorded(db: Db, b: Block, td: nat): (r: Db) {
    Db(db.headers[b.Key() := b], db.tds[b.Key() := td], db.numbers[Of(b) := b.number])
  }

  /** A child of a known header can be recorded. */
  lemma RecordedOk(g: Block, db: Db, b: Block, td: nat)
    requires IsGenesis(g) && DbOk(g, db) && b.parent.Of? && Numbered(b) && b.ParentKey() in db.tds
    requires td == TotalDifficulty(g, b.parent.block) + b.difficulty
    ensures DbOk(g, Recorded(db, b, td)) && Rooted(g, b) && td == TotalDifficulty(g, b)
  {
    var r := Recorded(db, b, td);
    assert Known(g, db, b.ParentKey());
    forall k | k in r.tds ensures Known(g, r, k) {
      if k != b.Key() {
        assert Known(g, db, k);
      }
    }
  }

  /** What is true of the database is still true when it holds more. */
  lemma CachesStay(g: Block, db: Db, r: Db, headers: Lru<Hash, Block>, tds: Lru<Hash, nat>, numbers: Lru<Hash, nat>)
    requires HeadersTrue(db, headers) && TdsTrue(g, db, tds) && NumbersTrue(db, numbers)
    requires forall k :: k in db.tds ==> k in r.tds
    ensures HeadersTrue(r, headers) && TdsTrue(g, r, tds) && NumbersTrue(r, numbers)
  {
  }

  datatype Status = NonStat | Canon | Side

  ghost predicate UnfoldStores(k: int) { true }

  class HeaderChain {
    const genesis: Block
    var db: Db
    var canon: map<nat, Hash>
    var headHash: Hash
    var current: Block
    var currentHash: Hash
    var headerCache: Lru<Hash, Block>
    var tdCache: Lru<Hash, nat>
    var numberCache: Lru<Hash, nat>

    /** The database and the caches are sound. */
    ghost predicate Stores()
      reads this
    {
      IsGenesis(genesis) &&
      forall k {:trigger UnfoldStores(k)} :: UnfoldStores(k) ==>
        && DbOk(genesis, db)
        && HeadersTrue(db, headerCache) && TdsTrue(genesis, db, tdCache) && NumbersTrue(db, numberCache)
    }

    /** The head is known and none is heavier; the canonical index is the chain from
        the genesis block to the head, and nothing above. */
    ghost predicate Valid()
      reads this
    {
      && Stores()
      && currentHash == headHash == Of(current) && current.Key() in db.tds && Rooted(genesis, current)
      && canon == Line(genesis, current) && Heaviest(genesis, db, current)
    }

    constructor (genesis: Block, headerLimit: nat, tdLimit: nat, numberLimit: nat)
      requires IsGenesis(genesis)
      ensures Valid() && this.genesis == genesis && current == genesis && db.tds.Keys == {genesis.Key()}
    {
      this.genesis := genesis;
      db := Db(map[genesis.Key() := genesis], map[genesis.Key() := genesis.difficulty], map[Of(genesis) := 0]);
      canon := map[0 := Of(genesis)];
      headHash, current, currentHash := Of(genesis), genesis, Of(genesis);
      headerCache := Lru(headerLimit, [], map[]);
      tdCache := Lru(tdLimit, [], map[]);
      numberCache := Lru(numberLimit, [], map[]);
      FreshDb(genesis);
    }

    /** A total difficulty by hash and number. The cache goes by hash alone: asked for a
        wrong number it may answer where the database would not, but never wrongly. */
    method GetTd(hash: Hash, number: nat) returns (td: Option<nat>)
      requires Stores()
      modifies this`tdCache
      ensures Stores()
      ensures td.Some? ==> hash.Of? && hash.block.Key() in db.tds && td.value == TotalDifficulty(genesis, hash.block)
      ensures (number, hash) in db.tds ==> td == Some(db.tds[(number, hash)])
      ensures (hash.Of? ==> number == hash.block.number) ==> (td.Some? <==> (number, hash) in db.tds)
    {
      assert UnfoldStores(0);
      var cached := tdCache.Lookup(hash);
      if cached.Some? {
        TdEntry(genesis, db, hash, hash.block.number);
        WrongNumber(genesis, db, hash, number);
        tdCache := tdCache.Touch(hash);
        return cached;
      }
      if (number, hash) !in db.tds {
        return None;
      }
      TdEntry(genesis, db, hash, number);
      td := Some(db.tds[(number, hash)]);
      tdCache := tdCache.Add(hash, td.value);
    }

    /** Whatever else is stored, a header is stored and cached under its own hash. */
    ghost predicate Named()
      reads this
    {
      && (forall k :: k in db.headers ==> k.1 == Of(db.headers[k]))
      && (forall h :: h in headerCache.items ==> h == Of(headerCache.items[h]))
    }

    method GetHeader(hash: Hash, number: nat) returns (header: Option<Block>)
      requires Named()
      modifies this`headerCache
      ensures Named() && (old(Stores()) ==> Stores())
      ensures header.Some? ==> hash == Of(header.value)
      ensures (number, hash) in db.headers ==> header == Some(db.headers[(number, hash)])
      ensures old(Stores()) ==>
                && (header.Some? ==> header.value.Key() in db.tds)
                && ((hash.Of? ==> number == hash.block.number) ==> (header.Some? <==> (number, hash) in db.headers))
    {
      assert UnfoldStores(0);
      var cached := headerCache.Lookup(hash);
      if cached.Some? {
        if Stores() {
          HeaderEntry(genesis, db, hash, hash.block.number);
        }
        headerCache := headerCache.Touch(hash);
        return cached;
      }
      if (number, hash) !in db.headers {
        return None;
      }
      if Stores() {
        HeaderEntry(genesis, db, hash, number);
      }
      header := Some(db.headers[(number, hash)]);
      headerCache := headerCache.Add(hash, header.value);
    }

    lemma StoresNamed()
      requires Stores()
      ensures Named()
    {
      assert UnfoldStores(0);
      forall k | k in db.headers ensures k.1 == Of(db.headers[k]) {
        assert Known(genesis, db, k);
      }
    }

    method GetBlockNumber(hash: Hash) returns (number: Option<nat>)
      requires Stores()
      modifies this`numberCache
      ensures Stores()
      ensures number == if hash in db.numbers then Some(db.numbers[hash]) else None
    {
      assert UnfoldStores(0);
      var cached := numberCache.Lookup(hash);
      if cached.Some? {
        HeaderEntry(genesis, db, hash, hash.block.number);
        numberCache := numberCache.Touch(hash);
        return cached;
      }
      if hash !in db.numbers {
        return None;
      }
      number := Some(db.numbers[hash]);
      numberCache := numberCache.Add(hash, number.value);
    }

    method HasHeader(hash: Hash, number: nat) returns (has: bool)
      requires Stores()
      ensures has ==> hash.Of? && hash.block.Key() in db.headers
      ensures (number, hash) in db.headers ==> has
    {
      assert UnfoldStores(0);
      if hash in numberCache.items || hash in headerCache.items {
        HeaderEntry(genesis, db, hash, hash.block.number);
        return true;
      }
      has := (number, hash) in db.headers;
      if has {
        HeaderEntry(genesis, db, hash, number);
      }
    }

    /** Store a header and its total difficulty. */
    method Record(header: Block, td: nat)
      requires Stores() && header.parent.Of? && Numbered(header) && header.ParentKey() in db.tds
      requires td == TotalDifficulty(genesis, header.parent.block) + header.difficulty
      modifies this`db, this`tdCache
      ensures Stores() && db == Recorded(old(db), header, td) && Rooted(genesis, header)
      ensures td == TotalDifficulty(genesis, header)
    {
      assert UnfoldStores(0);
      RecordedOk(genesis, db, header, td);
      CachesStay(genesis, db, Recorded(db, header, td), headerCache, tdCache, numberCache);
      db := db.(tds := db.tds[header.Key() := td]);
      tdCache := tdCache.Add(Of(header), td);
      db := db.(headers := db.headers[header.Key() := header], numbers := db.numbers[Of(header) := header.number]);
    }

    /** Delete the canonical entries from a number on. */
    method ClearFrom(first: nat)
      requires IsGenesis(genesis) && Rooted(genesis, current) && canon == Line(genesis, current)
      modifies this`canon
      ensures forall n: nat :: n in canon <==> n < first && n <= current.number
      ensures forall n: nat :: n in canon ==> n in Line(genesis, current) && canon[n] == Line(genesis, current)[n]
    {
      LineKeys(genesis, current);
      var i := first;
      while CanonAt(canon, i) != Zero
        invariant first <= i
        invariant forall n: nat :: n in canon <==> n <= current.number && !(first <= n < i)
        invariant forall n: nat :: n in canon ==> n in Line(genesis, current) && canon[n] == Line(genesis, current)[n]
        decreases current.number + 1 - i
      {
        canon := canon - {i};
        i := i + 1;
      }
      forall n | n in canon ensures n < first {
        if first <= n {
          var a := Along(genesis, current, i);
        }
      }
    }

    /** Write the chain to a header into the canonical index, from the header downwards,
        until it meets what is there: that is at the common ancestor. */
    method Rewrite(p: Block)
      requires Stores() && p.Key() in db.tds && Rewriting(genesis, canon, p, current, p)
      modifies this`canon, this`headerCache
      ensures Stores()
      ensures forall n: nat :: n in canon ==> n <= p.number + 1
      ensures forall n: nat :: n <= p.number ==> n in canon && n in Line(genesis, p) && canon[n] == Line(genesis, p)[n]
    {
      var hash, number, x := Of(p), p.number, p;
      while CanonAt(canon, number) != hash
        invariant Stores()
        invariant x.Key() in db.tds && hash == Of(x) && number == x.number
        invariant Rewriting(genesis, canon, p, current, x)
        decreases number
      {
        assert DbOk(genesis, db) by {
          assert UnfoldStores(0);
        }
        RewriteStep(genesis, db, canon, p, current, x);
        canon := canon[number := hash];
        hash, number := x.parent, PrevNumber(x.number);
        HeaderEntry(genesis, db, hash, number);
        StoresNamed();
        var got := GetHeader(hash, number);
        x := got.value;
      }
      RewriteDone(genesis, canon, p, current, x);
    }

    /** Make a known header the head. */
    method Adopt(header: Block)
      requires Stores() && header.Key() in db.tds && header.parent.Of? && Rooted(genesis, header)
      requires header.ParentKey() in db.tds && Numbered(header)
      requires Rooted(genesis, current) && canon == Line(genesis, current)
      modifies this`canon, this`headerCache, this`headHash, this`current, this`currentHash
      ensures Stores() && canon == Line(genesis, header)
      ensures current == header && currentHash == headHash == Of(header)
    {
      assert UnfoldStores(0);
      var p := header.parent.block;
      assert Known(genesis, db, header.ParentKey());
      ClearFrom(header.number + 1);
      RewriteStart(genesis, canon, p, current);
      Rewrite(p);
      AdoptedLine(genesis, canon, header);
      canon := canon[header.number := Of(header)];
      headHash, current, currentHash := Of(header), header, Of(header);
    }

    /** Write a header whose parent is known. A heavier one becomes the head, and so does
        one as heavy as the head if the coin says so. */
    method WriteHeader(header: Block, coin: bool) returns (status: Status)
      requires Valid() && Numbered(header)
      modifies this
      ensures Valid()
      ensures status == NonStat <==> header.ParentKey() !in old(db.tds)
      ensures status == NonStat ==> db == old(db) && canon == old(canon) && current == old(current)
      ensures status != NonStat ==>
                && db.headers == old(db.headers)[header.Key() := header]
                && db.tds == old(db.tds)[header.Key() := TotalDifficulty(genesis, header)]
                && db.numbers == old(db.numbers)[Of(header) := header.number]
      ensures status == Canon ==> current == header
      ensures status == Side ==> current == old(current) && canon == old(canon)
      ensures status != NonStat ==>
                var mine, best := TotalDifficulty(genesis, header), TotalDifficulty(genesis, old(current));
                status == Canon <==> mine > best || (mine == best && coin)
    {
      var ptd := GetTd(header.parent, PrevNumber(header.number));
      if ptd.None? {
        return NonStat;
      }
      var localTd := GetTd(currentHash, current.number);
      var externTd := header.difficulty + ptd.value;
      Record(header, externTd);
      if externTd > localTd.value || (externTd == localTd.value && coin) {
        Adopt(header);
        status := Canon;
      } else {
        status := Side;
      }
      Remember(header);
    }

    /** Import headers, skipping those known, up to the first whose parent is unknown. */
    method InsertHeaders(chain: seq<Block>, coins: nat -> bool) returns (failed: Option<nat>)
      requires Valid() && forall i :: 0 <= i < |chain| ==> Numbered(chain[i])
      modifies this
      ensures Valid() && old(db.tds).Keys <= db.tds.Keys
      ensures TotalDifficulty(genesis, current) >= TotalDifficulty(genesis, old(current))
      ensures failed.None? ==> forall i :: 0 <= i < |chain| ==> chain[i].Key() in db.tds
      ensures failed.Some? ==>
                && failed.value < |chain| && chain[failed.value].ParentKey() !in db.tds
                && forall i :: 0 <= i < failed.value ==> chain[i].Key() in db.tds
    {
      var i := 0;
      while i < |chain|
        invariant 0 <= i <= |chain| && Valid() && old(db.tds).Keys <= db.tds.Keys
        invariant TotalDifficulty(genesis, current) >= TotalDifficulty(genesis, old(current))
        invariant forall j :: 0 <= j < i ==> chain[j].Key() in db.tds
      {
        var has := HasHeader(Of(chain[i]), chain[i].number);
        if !has {
          var status := WriteHeader(chain[i], coins(i));
          if status == NonStat {
            return Some(i);
          }
        } else {
          HeaderKnown(chain[i]);
        }
        i := i + 1;
      }
      failed := None;
    }

    lemma HeaderKnown(b: Block)
      requires Stores() && b.Key() in db.headers
      ensures b.Key() in db.tds
    {
      assert UnfoldStores(0);
    }

    /** Any imports, one after the other: the head is always the heaviest header known, its
        chain is the canonical index, and no header is forgotten. */
    method InsertAll(batches: seq<seq<Block>>, coins: (nat, nat) -> bool)
      requires Valid() && forall i, j :: 0 <= i < |batches| && 0 <= j < |batches[i]| ==> Numbered(batches[i][j])
      modifies this
      ensures Valid() && old(db.tds).Keys <= db.tds.Keys
      ensures TotalDifficulty(genesis, current) >= TotalDifficulty(genesis, old(current))
    {
      for i := 0 to |batches|
        invariant Valid() && old(db.tds).Keys <= db.tds.Keys
        invariant TotalDifficulty(genesis, current) >= TotalDifficulty(genesis, old(current))
      {
        var failed := InsertHeaders(batches[i], (j: nat) => coins(i, j));
      }
    }

    /** The canonical index in a chain: an entry at every number up to the head and none
        above, the genesis block first, the head last, each linked to the one before. */
    lemma Canonical(n: nat)
      requires Valid()
      ensures n in canon <==> n <= current.number
      ensures 0 in canon && canon[0] == Of(genesis) && current.number in canon && canon[current.number] == Of(current)
      ensures 0 < n <= current.number ==>
                && n - 1 in canon && canon[n].Of? && canon[n].block.number == n && canon[n].block.parent == canon[n - 1]
    {
      LineKeys(genesis, current);
      if current.number == 0 {
        var a := Along(genesis, current, 0);
      } else {
        LineLinked(genesis, current, if 0 < n <= current.number then n else current.number);
      }
    }

    /** With empty caches, all is sound if the database is. */
    lemma PurgedStores()
      requires IsGenesis(genesis) && headerCache.items == map[] && tdCache.items == map[] && numberCache.items == map[]
      ensures Stores() <==> DbOk(genesis, db)
    {
      assert UnfoldStores(0);
    }

    /** Take the head off the database and go to its parent. */
    method DropHead(ghost first: Db, ghost line: map<nat, Hash>, ghost top: Block)
      requires IsGenesis(genesis) && DbOk(genesis, first) && Rooted(genesis, top) && line == Line(genesis, top)
      requires Named() && Rooted(genesis, current) && current.Key() in first.tds && 0 < current.number <= top.number
      requires current.number in line && line[current.number] == Of(current) && db == Cut(first, line, current.number)
      modifies this`db, this`current, this`headerCache
      ensures Named() && Rooted(genesis, current) && current.Key() in first.tds && current.number == old(current).number - 1
      ensures current.number in line && line[current.number] == Of(current) && db == Cut(first, line, current.number)
    {
      var hash, num := Of(current), current.number;
      DropStep(genesis, first, line, top, current);
      db := Db(db.headers - {(num, hash)}, db.tds - {(num, hash)}, db.numbers - {hash});
      var got := GetHeader(current.parent, PrevNumber(num));
      current := got.value;
    }

    /** Take the headers above a number off the database, from the head downwards. */
    method DropAbove(head: nat)
      requires Valid()
      modifies this`db, this`current, this`headerCache
      ensures Rooted(genesis, current) && current.number == Min(head, old(current).number)
      ensures current.Key() in old(db.tds)
      ensures current.number in Line(genesis, old(current)) && Line(genesis, old(current))[current.number] == Of(current)
      ensures db == Cut(old(db), Line(genesis, old(current)), head)
    {
      ghost var line := Line(genesis, current);
      assert DbOk(genesis, db) by {
        assert UnfoldStores(0);
      }
      LineKeys(genesis, current);
      StoresNamed();
      CutNothing(db, line, current.number);
      while current.number > head
        invariant head <= current.number || current == old(current)
        invariant current.number <= old(current).number && Named() && Rooted(genesis, current) && current.Key() in old(db.tds)
        invariant current.number in line && line[current.number] == Of(current)
        invariant db == Cut(old(db), line, current.number)
        decreases current.number
      {
        DropHead(old(db), line, old(current));
      }
      CutAbove(old(db), line, current.number, head, old(current).number);
    }

    /** Take the numbers above a number off the canonical index. */
    method Unnumber(height: nat, head: nat)
      requires forall n: nat :: n in canon <==> n <= height
      modifies this`canon
      ensures forall n: nat :: n in canon <==> n <= height && n <= head
      ensures forall n: nat :: n in canon ==> canon[n] == old(canon)[n]
    {
      var i := height;
      while i > head
        invariant forall n: nat :: n in canon <==> n <= i
        invariant forall n: nat :: n in canon ==> n in old(canon) && canon[n] == old(canon)[n]
        invariant head <= i <= height || i == height
      {
        canon := canon - {i};
        i := i - 1;
      }
    }

    /** Rewind the chain to a number. The canonical index is the chain to the new head and
        nothing above, and the headers above it are gone from the database. The chain is
        as sound as before if and only if no header off the old chain had its parent among
        those that are gone, and none was heavier than the new head. */
    method SetHead(head: nat)
      requires Valid()
      modifies this
      ensures Rooted(genesis, current) && current.number == Min(head, old(current).number)
      ensures current.number in Line(genesis, old(current)) && Line(genesis, old(current))[current.number] == Of(current)
      ensures canon == Line(genesis, current) && currentHash == headHash == Of(current)
      ensures db == Cut(old(db), Line(genesis, old(current)), head)
      ensures Valid() <==>
              NoSideChild(old(db), Line(genesis, old(current)), head) &&
              NoneHeavier(genesis, old(db), Line(genesis, old(current)), head, current)
    {
      assert DbOk(genesis, db) by {
        assert UnfoldStores(0);
      }
      var height := current.number;
      LineKeys(genesis, current);
      DropAbove(head);
      Unnumber(height, head);
      headerCache, tdCache, numberCache := headerCache.Purge(), tdCache.Purge(), numberCache.Purge();
      currentHash, headHash := Of(current), Of(current);
      CutLine(genesis, canon, old(current), current);
      SoundAfter(genesis, old(db), old(current), head, current);
      PurgedStores();
    }

    method Remember(header: Block)
      requires Stores() && header.Key() in db.tds
      modifies this`headerCache, this`numberCache
      ensures Stores()
    {
      assert UnfoldStores(0);
      headerCache := headerCache.Add(Of(header), header);
      numberCache := numberCache.Add(Of(header), header.number);
    }
  }

  /** The header k is on the line, above the number n. */
  predicate Over(line: map<nat, Hash>, n: nat, k: (nat, Hash)) {
    k.0 > n && k.0 in line && line[k.0] == k.1
  }

  /** The database without the headers of a line above the number n. */
  function Cut(db: Db, line: map<nat, Hash>, n: nat): (r: Db) {
    Db(map k | k in db.headers && !Over(line, n, k) :: db.headers[k],
       map k | k in db.tds && !Over(line, n, k) :: db.tds[k],
       map h | h in db.numbers && !(h.Of? && Over(line, n, h.block.Key())) :: db.numbers[h])
  }

  lemma CutNothing(db: Db, line: map<nat, Hash>, n: nat)
    requires forall k: nat :: k in line ==> k <= n
    ensures Cut(db, line, n) == db
  {
  }

  lemma CutAbove(db: Db, line: map<nat, Hash>, n: nat, head: nat, top: nat)
    requires forall k: nat :: k in line ==> k <= top
    requires n == Min(head, top)
    ensures Cut(db, line, n) == Cut(db, line, head)
  {
    if head > top {
      CutNothing(db, line, n);
      CutNothing(db, line, head);
    }
  }

  /** Taking one header off the end of what is left of a line. */
  lemma CutOne(db: Db, line: map<nat, Hash>, x: Block)
    requires x.number > 0 && x.number in line && line[x.number] == Of(x)
    ensures var c := Cut(db, line, x.number);
            Cut(db, line, x.number - 1) == Db(c.headers - {x.Key()}, c.tds - {x.Key()}, c.numbers - {Of(x)})
  {
  }

  lemma DropStep(g: Block, db: Db, line: map<nat, Hash>, top: Block, x: Block)
    requires IsGenesis(g) && DbOk(g, db) && Rooted(g, top) && line == Line(g, top) && x.Key() in db.tds && Rooted(g, x)
    requires 0 < x.number <= top.number && x.number in line && line[x.number] == Of(x)
    ensures var c := Cut(db, line, x.number);
            Cut(db, line, x.number - 1) == Db(c.headers - {x.Key()}, c.tds - {x.Key()}, c.numbers - {Of(x)})
    ensures x.parent.Of? && x.parent.block.number == x.number - 1 && Rooted(g, x.parent.block)
    ensures x.ParentKey() in db.tds && x.ParentKey() in Cut(db, line, x.number - 1).headers
    ensures x.parent.block.Key() == x.ParentKey() && db.headers[x.ParentKey()] == x.parent.block
    ensures x.number - 1 in line && line[x.number - 1] == x.parent
  {
    CutOne(db, line, x);
    assert Known(g, db, x.Key());
    assert Known(g, db, x.ParentKey());
    LineLinked(g, top, x.number);
  }

  /** What is left of the index of a chain up to an ancestor is the index of that. */
  lemma CutLine(g: Block, canon: map<nat, Hash>, top: Block, x: Block)
    requires IsGenesis(g) && Rooted(g, top) && Rooted(g, x) && x.number <= top.number
    requires x.number in Line(g, top) && Line(g, top)[x.number] == Of(x)
    requires forall n: nat :: n in canon <==> n <= x.number
    requires forall n: nat :: n in canon ==> n in Line(g, top) && canon[n] == Line(g, top)[n]
    ensures canon == Line(g, x)
  {
    MetAt(g, top, x);
    LineKeys(g, x);
  }

  /** The parent of every header is there, too. */
  ghost predicate NoOrphans(g: Block, db: Db) {
    forall k {:trigger Parented(g, db, k)} :: k in db.tds ==> Parented(g, db, k)
  }

  ghost predicate Parented(g: Block, db: Db, k: (nat, Hash)) {
    k.1.Of? && (k.1.block != g ==> k.1.block.ParentKey() in db.tds)
  }

  /** No header off the line has its parent on the line, above the number n. */
  ghost predicate NoSideChild(db: Db, line: map<nat, Hash>, n: nat) {
    forall k :: k in db.tds && !Over(line, n, k) && k.1.Of? ==> !Over(line, n, k.1.block.ParentKey())
  }

  /** No header but those of the line above the number n is heavier than b. */
  ghost predicate NoneHeavier(g: Block, db: Db, line: map<nat, Hash>, n: nat, b: Block) {
    forall k :: k in db.tds && !Over(line, n, k) ==> db.tds[k] <= TotalDifficulty(g, b)
  }

  /** A header has lost its parent if and only if it was off the line and the parent on it. */
  lemma CutOrphans(g: Block, db: Db, top: Block, n: nat)
    requires IsGenesis(g) && DbOk(g, db) && Rooted(g, top)
    ensures NoOrphans(g, Cut(db, Line(g, top), n)) <==> NoSideChild(db, Line(g, top), n)
  {
    var line := Line(g, top);
    var c := Cut(db, line, n);
    forall k | k in db.tds && !Over(line, n, k)
      ensures k in c.tds && k.1.Of? && (Parented(g, c, k) <==> !Over(line, n, k.1.block.ParentKey()))
    {
      assert Known(g, db, k);
      if k.1.block == g && Over(line, n, g.ParentKey()) {
        NothingAtZero(g, top, PrevNumber(0));
      }
    }
    if NoOrphans(g, c) {
      forall k | k in db.tds && !Over(line, n, k) && k.1.Of? ensures !Over(line, n, k.1.block.ParentKey()) {
        assert Parented(g, c, k);
      }
    }
  }

  lemma NothingAtZero(g: Block, top: Block, n: nat)
    requires IsGenesis(g) && Rooted(g, top) && n in Line(g, top)
    ensures Line(g, top)[n].Of?
  {
    LineKeys(g, top);
    var a := Along(g, top, n);
  }

  lemma CutHeaviest(g: Block, db: Db, line: map<nat, Hash>, n: nat, b: Block)
    ensures Heaviest(g, Cut(db, line, n), b) <==> NoneHeavier(g, db, line, n, b)
  {
    var c := Cut(db, line, n);
    forall k ensures k in c.tds <==> k in db.tds && !Over(line, n, k) {
    }
  }

  /** What is left of a sound chain above its new head decides whether it is still sound. */
  lemma SoundAfter(g: Block, db: Db, top: Block, n: nat, head: Block)
    requires IsGenesis(g) && DbOk(g, db) && Rooted(g, top) && head.Key() in db.tds
    requires head.number > n ==> head.number !in Line(g, top)
    ensures head.Key() in Cut(db, Line(g, top), n).tds
    ensures DbOk(g, Cut(db, Line(g, top), n)) && Heaviest(g, Cut(db, Line(g, top), n), head) <==>
            NoSideChild(db, Line(g, top), n) && NoneHeavier(g, db, Line(g, top), n, head)
  {
    Rewound(g, db, Line(g, top), n, head);
    CutOrphans(g, db, top, n);
    CutHeaviest(g, db, Line(g, top), n, head);
  }

  /** A cut database is sound if and only if no header has lost its parent. */
  lemma Rewound(g: Block, db: Db, line: map<nat, Hash>, n: nat, head: Block)
    requires IsGenesis(g) && DbOk(g, db) && head.Key() in db.tds && (head.number > n ==> head.number !in line)
    ensures DbOk(g, Cut(db, line, n)) <==> NoOrphans(g, Cut(db, line, n))
    ensures head.Key() in Cut(db, line, n).tds
  {
    var c := Cut(db, line, n);
    forall k | k in c.tds ensures Known(g, c, k) <==> Parented(g, c, k) {
      assert Known(g, db, k);
    }
  }

  lemma AdoptedLine(g: Block, canon: map<nat, Hash>, b: Block)
    requires IsGenesis(g) && Rooted(g, b) && b.parent.Of? && Rooted(g, b.parent.block) && b.number == b.parent.block.number + 1
    requires forall n: nat :: n in canon ==> n <= b.number
    requires forall n: nat :: n < b.number ==> n in canon && n in Line(g, b.parent.block) && canon[n] == Line(g, b.parent.block)[n]
    ensures canon[b.number := Of(b)] == Line(g, b)
  {
    var c, line, below := canon[b.number := Of(b)], Line(g, b), Line(g, b.parent.block);
    LineKeys(g, b.parent.block);
    assert line == below[b.number := Of(b)];
    SameEntries(canon, below, b.number, Of(b));
  }

  lemma SameEntries(x: map<nat, Hash>, y: map<nat, Hash>, n: nat, h: Hash)
    requires forall k: nat :: k < n ==> k in x && k in y && x[k] == y[k]
    requires forall k: nat :: k in x || k in y ==> k <= n
    ensures x[n := h] == y[n := h]
  {
  }

  ghost predicate UnfoldRewriting(k: int) { true }

  /** The index is rewritten for the chain to p above its ancestor x, and is still that
      of the head up to x. */
  ghost predicate Rewriting(g: Block, canon: map<nat, Hash>, p: Block, head: Block, x: Block) {
    forall k {:trigger UnfoldRewriting(k)} :: UnfoldRewriting(k) ==>
      && Rooted(g, p) && Rooted(g, head) && Rooted(g, x) && x.number <= p.number
      && (forall n: nat :: n in canon ==> n <= p.number + 1)
      && (forall n: nat :: x.number < n <= p.number ==> n in canon && n in Line(g, p) && canon[n] == Line(g, p)[n])
      && x.number in Line(g, p) && Line(g, p)[x.number] == Of(x)
      && (forall n: nat :: n <= x.number ==> (n in canon <==> n <= head.number))
      && (forall n: nat :: n <= x.number && n in canon ==> n in Line(g, head) && canon[n] == Line(g, head)[n])
  }

  lemma RewriteStart(g: Block, canon: map<nat, Hash>, p: Block, head: Block)
    requires IsGenesis(g) && Rooted(g, p) && Rooted(g, head)
    requires forall n: nat :: n in canon <==> n <= p.number + 1 && n <= head.number
    requires forall n: nat :: n in canon ==> n in Line(g, head) && canon[n] == Line(g, head)[n]
    ensures Rewriting(g, canon, p, head, p)
  {
    LineKeys(g, p);
  }

  lemma RewriteStep(g: Block, db: Db, canon: map<nat, Hash>, p: Block, head: Block, x: Block)
    requires IsGenesis(g) && DbOk(g, db) && x.Key() in db.tds && Rewriting(g, canon, p, head, x)
    requires CanonAt(canon, x.number) != Of(x)
    ensures x.parent.Of? && x.number > 0 && x.ParentKey() in db.tds && x.parent.block.Key() == x.ParentKey()
    ensures Rewriting(g, canon[x.number := Of(x)], p, head, x.parent.block)
  {
    assert x != g && x.parent.Of? && x.number > 0 && x.ParentKey() in db.tds && x.number == x.parent.block.number + 1 by {
      assert UnfoldRewriting(0);
      NotFirst(g, db, canon, x, head);
    }
    RewriteMoves(g, canon, p, head, x);
  }

  lemma RewriteMoves(g: Block, canon: map<nat, Hash>, p: Block, head: Block, x: Block)
    requires IsGenesis(g) && Rewriting(g, canon, p, head, x) && x != g && x.parent.Of? && x.number == x.parent.block.number + 1
    ensures Rewriting(g, canon[x.number := Of(x)], p, head, x.parent.block)
  {
    assert UnfoldRewriting(0);
    LineLinked(g, p, x.number);
  }

  lemma RewriteDone(g: Block, canon: map<nat, Hash>, p: Block, head: Block, x: Block)
    requires IsGenesis(g) && Rewriting(g, canon, p, head, x) && x.number in canon && canon[x.number] == Of(x)
    ensures forall n: nat :: n in canon ==> n <= p.number + 1
    ensures forall n: nat :: n <= p.number ==> n in canon && n in Line(g, p) && canon[n] == Line(g, p)[n]
  {
    assert UnfoldRewriting(0);
    MetAt(g, head, x);
    MetAt(g, p, x);
  }

  /** Where the index does not hold a known header, that header has a known parent. */
  lemma NotFirst(g: Block, db: Db, canon: map<nat, Hash>, x: Block, head: Block)
    requires IsGenesis(g) && DbOk(g, db) && x.Key() in db.tds && Rooted(g, head)
    requires CanonAt(canon, x.number) != Of(x)
    requires forall n: nat :: n <= x.number ==> (n in canon <==> n <= head.number)
    requires forall n: nat :: n <= x.number && n in canon ==> n in Line(g, head) && canon[n] == Line(g, head)[n]
    ensures x != g && x.parent.Of? && x.number > 0 && x.ParentKey() in db.tds && Rooted(g, x.parent.block)
    ensures x.parent.block.Key() == x.ParentKey()
  {
    assert Known(g, db, x.Key());
    if x == g {
      var a := Along(g, head, 0);
    }
  }

  /** Where the index meets the chain of the head, it goes on like it. */
  lemma MetAt(g: Block, head: Block, x: Block)
    requires IsGenesis(g) && Rooted(g, head) && x.number <= head.number
    requires x.number in Line(g, head) && Line(g, head)[x.number] == Of(x)
    ensures forall n: nat :: n <= x.number ==> n in Line(g, head) && n in Line(g, x) && Line(g, head)[n] == Line(g, x)[n]
  {
    var a := Along(g, head, x.number);
  }
}
