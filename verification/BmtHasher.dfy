/** The hasher in front of the tree: it cuts what is written into double segments, one
    for each leaf, and takes the hash from the goroutines that climb the tree. */
module BmtHasher {
  import opened Wrappers
  import opened BmtReference
  import opened BmtMachine
  import opened BmtInvariant
  import opened BmtTree
  import opened BmtRuns
  import opened BmtTermination
  import opened BmtWear
  import opened BmtRefinement

  /** More data in the last double segment. */
  lemma {:induction false} SectionsGrow(b: Base, d: Bytes, e: Bytes, full: seq<Bytes>, s: Bytes)
    requires b.size >= 1 && Sections(b, d) == full + [s] && |s| + |e| <= 2 * b.size
    ensures Sections(b, d + e) == full + [s + e]
    decreases |d|
  {
    var w := 2 * b.size;
    if |d| <= w {
      assert full == [] && s == d;
    } else {
      SectionLengths(b, d);
      SectionsTail(b, d);
      assert full == [d[..w]] + full[1..];
      assert Sections(b, d[w..]) == full[1..] + [s];
      SectionsGrow(b, d[w..], e, full[1..], s);
      assert (d + e)[..w] == d[..w] && (d + e)[w..] == d[w..] + e;
      assert |d + e| > w;
    }
  }

  /** One more double segment after a full one. */
  lemma {:induction false} SectionsNext(b: Base, d: Bytes, e: Bytes, full: seq<Bytes>, s: Bytes)
    requires b.size >= 1 && Sections(b, d) == full + [s] && |s| == 2 * b.size && 0 < |e| <= 2 * b.size
    ensures Sections(b, d + e) == full + [s] + [e]
    decreases |d|
  {
    var w := 2 * b.size;
    if |d| <= w {
      assert full == [] && s == d;
      assert (d + e)[..w] == d && (d + e)[w..] == e;
      assert Sections(b, d + e) == [d] + Sections(b, e);
    } else {
      SectionLengths(b, d);
      SectionsTail(b, d);
      assert full == [d[..w]] + full[1..];
      assert Sections(b, d[w..]) == full[1..] + [s];
      SectionsNext(b, d[w..], e, full[1..], s);
      assert (d + e)[..w] == d[..w] && (d + e)[w..] == d[w..] + e;
      assert Sections(b, d + e) == [d[..w]] + (full[1..] + [s] + [e]);
    }
  }

  lemma {:induction false} SectionsWidth(b: Base, d: Bytes, full: seq<Bytes>, s: Bytes)
    requires b.size >= 1 && Sections(b, d) == full + [s]
    ensures |d| == Width(b, |full|) + |s|
    decreases |d|
  {
    var w := 2 * b.size;
    if |d| <= w {
      assert full == [] && s == d;
    } else {
      SectionLengths(b, d);
      SectionsTail(b, d);
      assert full == [d[..w]] + full[1..];
      assert Sections(b, d[w..]) == full[1..] + [s];
      SectionsWidth(b, d[w..], full[1..], s);
      WidthTimes(b, |full|);
      WidthTimes(b, |full| - 1);
    }
  }

  /** The length of n segments. */
  function Length(b: Base, n: nat): (m: nat) {
    if n == 0 then 0 else Length(b, n - 1) + b.size
  }

  lemma {:induction false} LengthTimes(b: Base, n: nat)
    ensures Length(b, n) == n * b.size
  {
    if n > 0 {
      LengthTimes(b, n - 1);
    }
  }

  /** The segments from leaf i on. */
  lemma {:induction false} RestFrom(b: Base, n: nat, i: nat)
    requires 2 * i <= n
    ensures Length(b, n) - Width(b, i) == Length(b, n - 2 * i)
  {
    if i > 0 {
      RestFrom(b, n, i - 1);
    }
  }

  lemma {:induction false} LengthMonotone(b: Base, n: nat, m: nat)
    requires n <= m
    ensures Length(b, n) <= Length(b, m)
  {
    if n < m {
      LengthMonotone(b, n, m - 1);
    }
  }

  class Hasher {
    const base: Base
    const count: nat
    const depth: nat
    var nodes: map<Pos, Node>
    var cur: nat
    var segment: Bytes
    var started: seq<Bytes>
    ghost var data: Bytes
    ghost var jobs: nat
    ghost var meetings: map<Pos, nat>

    /** The number of leaves the hasher uses. */
    function Leaves(): (n: nat) { (count + 1) / 2 }

    ghost function Capacity(): (n: nat) { Length(base, count) }

    ghost predicate Valid()
      reads this
    {
      && base.size >= 1 && count >= 1 && depth == TopHeight((count - 1) / 2) && Clean(depth, nodes)
      && cur == |started| < Leaves() && started + [segment] == Sections(base, data)
      && Tallied()
    }

    /** Every counter shows two for each job in which two goroutines met in the node. */
    ghost predicate Tallied()
      reads this
    {
      && meetings.Keys == nodes.Keys
      && (forall p :: p in meetings ==> meetings[p] <= jobs && nodes[p].state == Up(0, 2 * meetings[p]))
    }

    constructor (base: Base, count: nat)
      requires base.size >= 1 && count >= 1
      ensures Valid() && this.base == base && this.count == count && data == [] && cur == 0 && segment == []
      ensures jobs == 0
    {
      this.base := base;
      this.count := count;
      var d, tree := NewTree(count);
      depth, nodes := d, tree;
      cur, segment, started, data, jobs := 0, [], [], [], 0;
      meetings := map p | p in tree :: 0;
    }

    /** A write goes past the capacity of the hasher if the number of segments is odd
        and there is data in an open segment below one of the other leaves. */
    ghost predicate Overruns(n: nat)
      reads this
    {
      count % 2 == 1 && cur + 1 < Leaves() && segment != [] && |data| + n > Capacity()
    }

    /** How many of n bytes a write takes. */
    ghost function Taken(n: nat): (m: int)
      reads this
    {
      var need := if n < Capacity() - Width(base, cur) then n else Capacity() - Width(base, cur);
      var room := if cur + 1 < Leaves() then Width(base, Leaves()) - |data| else Capacity() - |data|;
      if need < room then need else room
    }

    /** What is left of the capacity from the current leaf on. */
    lemma LeafRoom()
      requires Valid()
      ensures Capacity() - Width(base, cur) >= base.size
      ensures cur + 1 < Leaves() ==> Capacity() - Width(base, cur) > 2 * base.size
      ensures cur + 1 == Leaves() ==>
                Capacity() - Width(base, cur) == if count % 2 == 1 then base.size else 2 * base.size
      ensures Width(base, Leaves()) == Capacity() + if count % 2 == 1 then base.size else 0
    {
      RestFrom(base, count, cur);
      LengthMonotone(base, 1, count - 2 * cur);
      if count - 2 * cur >= 3 {
        LengthMonotone(base, 3, count - 2 * cur);
      }
      RestFrom(base, if count % 2 == 1 then count + 1 else count, Leaves());
    }

    /** The length of the leaves from the current one on. */
    method Remaining() returns (need: int)
      ensures need == Capacity() - Width(base, cur)
    {
      need := count * base.size - cur * 2 * base.size;
      LengthTimes(base, count);
      WidthTimes(base, cur);
      assert cur * 2 * base.size == cur * (2 * base.size);
    }

    /** The open segment fits its leaf, unless the hasher has overrun. */
    lemma OpenSegment()
      requires Valid()
      ensures |data| == Width(base, cur) + |segment|
      ensures |data| <= Capacity() <==>
              |segment| <= if Capacity() - Width(base, cur) > base.size then 2 * base.size else base.size
    {
      SectionsWidth(base, data, started, segment);
      SectionLengths(base, data);
      assert segment == (started + [segment])[cur];
      LeafRoom();
    }

    /** A write takes all the bytes the capacity allows, and no more, unless it overruns. */
    lemma TakenExactly(b: Bytes)
      requires Valid() && |data| <= Capacity()
      ensures 0 <= Taken(|b|) <= |b|
      ensures data + b[..Taken(|b|)] == (data + b)[..Min(|data| + |b|, Capacity())] <==> !Overruns(|b|)
    {
      OpenSegment();
      LeafRoom();
      var t, m := Taken(|b|), Min(|data| + |b|, Capacity());
      assert |data + b[..t]| == |data| + t && |(data + b)[..m]| == m;
      assert data + b[..t] == (data + b)[..|data| + t];
    }

    lemma TakenIs(n: nat, need: nat, size: nat, rest: nat, upTo: nat)
      requires Valid() && |data| <= Capacity()
      requires need == if n < Capacity() - Width(base, cur) then n else Capacity() - Width(base, cur)
      requires size == if Capacity() - Width(base, cur) > base.size then 2 * base.size else base.size
      requires |segment| <= size && rest == Min(need, size - |segment|)
      requires cur == Leaves() - 1 ==> upTo == rest
      requires cur < Leaves() - 1 ==> |data| + upTo == Min(|data| + need, Width(base, Leaves()))
      ensures upTo == Taken(n)
    {
      OpenSegment();
      LeafRoom();
    }

    /** How many of n bytes are needed at all, the size of the current leaf, and how
        many bytes complete the open segment; a negative number if it is too long. */
    method FirstCut(n: nat) returns (need: nat, size: nat, rest: int)
      requires Valid()
      ensures need == if n < Capacity() - Width(base, cur) then n else Capacity() - Width(base, cur)
      ensures size == if Capacity() - Width(base, cur) > base.size then 2 * base.size else base.size
      ensures rest == if need < size - |segment| then need else size - |segment|
      ensures rest < 0 <==> |data| > Capacity()
      ensures cur < Leaves() - 1 ==> size == 2 * base.size
    {
      OpenSegment();
      LeafRoom();
      need := Remaining();
      size := base.size;
      if need > size {
        size := size * 2;
      }
      if n < need {
        need := n;
      }
      rest := size - |segment|;
      if need < rest {
        rest := need;
      }
    }

    /** Fill the hasher: the open segment first, then one leaf after the other. */
    method Fill(b: Bytes, need: nat, size: nat, rest: nat)
      requires Valid() && |data| <= Capacity() && |b| > 0
      requires need == if |b| < Capacity() - Width(base, cur) then |b| else Capacity() - Width(base, cur)
      requires size == if Capacity() - Width(base, cur) > base.size then 2 * base.size else base.size
      requires |segment| <= size && rest == Min(need, size - |segment|) && (cur < Leaves() - 1 ==> size == 2 * base.size)
      modifies `started, `segment, `cur, `data
      ensures Valid() && 0 <= old(Taken(|b|)) <= |b| && data == old(data) + b[..old(Taken(|b|))]
    {
      SectionsGrow(base, data, b[..rest], started, segment);
      var done, s, upTo := Spread(base, Leaves(), b, rest, need - rest, size, started, segment + b[..rest], data);
      TakenIs(|b|, need, size, rest, upTo);
      started, segment, cur, data := done, s, |done|, data + b[..upTo];
    }

    /** Write keeps what was written so far and the new bytes, up to the capacity: if
        and only if it does not overrun. A hasher that has overrun cannot take another
        byte: the slice expression for the open segment panics, here None. */
    method Write(b: Bytes) returns (n: Option<nat>)
      requires Valid()
      modifies `started, `segment, `cur, `data
      ensures Valid() && (n.None? <==> b != [] && |old(data)| > Capacity()) && (n.Some? ==> n.value == |b|)
      ensures n.None? || b == [] ==> data == old(data) && segment == old(segment) && started == old(started) && cur == old(cur)
      ensures |old(data)| <= Capacity() ==>
                && 0 <= old(Taken(|b|)) <= |b| && data == old(data) + b[..old(Taken(|b|))]
                && (data == (old(data) + b)[..Min(|old(data)| + |b|, Capacity())] <==> !old(Overruns(|b|)))
    {
      if |data| <= Capacity() {
        TakenExactly(b);
      }
      n := Some(|b|);
      if |b| <= 0 {
        assert data + [] == data;
        return;
      }
      var need, size, rest := FirstCut(|b|);
      if rest < 0 {
        n := None;
        return;
      }
      OpenSegment();
      Fill(b, need, size, rest);
    }

    ghost function Task(): (job: Job)
      reads this
    {
      Job(base, depth, nodes, started + [segment])
    }

    /** A tree is ready for any job while it has seen fewer than 2^30. */
    lemma ReadyAtFirst()
      requires Valid() && jobs < 0x4000_0000
      ensures Ready(Task())
    {
      forall p | Paired(Task(), p) ensures Unworn(Task(), p) {
        if p in nodes {
          GoodFor(meetings[p]);
        }
      }
    }

    /** After 2^30 jobs with two goroutines in the same node it is not, for one more. */
    lemma NotReadyAfter(p: Pos)
      requires Valid() && Paired(Task(), p) && p in meetings && meetings[p] == 0x4000_0000
      ensures !Ready(Task())
    {
      GoodFor(meetings[p]);
      assert !Unworn(Task(), p);
    }

    lemma TaskIsValid()
      requires Valid()
      ensures ValidJob(Task())
    {
      PathMonotone(cur, (count - 1) / 2, depth);
      TopIsFirstZero((count - 1) / 2, depth);
      DataIsJob(Task(), data);
    }

    /** How often two goroutines have met in each node, after one more job. */
    ghost function Meetings(): (m: map<Pos, nat>)
      reads this
    {
      map p | p in meetings :: meetings[p] + if Paired(Task(), p) then 1 else 0
    }

    lemma TallyOn(after: map<Pos, Node>)
      requires Valid() && CountedUp(Task(), after)
      ensures Meetings().Keys == after.Keys
      ensures forall p :: p in Meetings() ==> Meetings()[p] <= jobs + 1 && after[p].state == Up(0, 2 * Meetings()[p])
    {
      forall p | p in meetings ensures after[p].state == Up(0, 2 * Meetings()[p]) {
        UpAgain(0, 2 * meetings[p], 2);
      }
    }

    /** The hash, under whatever schedule of the goroutines: the reference hash of the
        data written, if the tree is ready for the job, and so for the first 2^30 jobs.
        The hasher is then ready for new data, with its meetings tallied. On a tree that
        is not ready nothing is promised; None stands for waiting for ever. */
    method Sum() returns (c: Option<Bytes>)
      requires Valid()
      modifies this
      ensures old(jobs) < 0x4000_0000 ==> old(Ready(Task()))
      ensures old(Ready(Task())) ==>
                && c.Some? && Valid() && data == [] && cur == 0 && segment == [] && jobs == old(jobs) + 1 && meetings == old(Meetings())
                && forall k: nat :: |old(data)| <= base.size * Pow2(k + 1) ==> c.value == RefHash(base, old(data), k)
    {
      TaskIsValid();
      if jobs < 0x4000_0000 {
        ReadyAtFirst();
      }
      var job := Job(base, depth, nodes, started + [segment]);
      var s := Execute(job);
      if Ready(job) {
        TallyOn(s.nodes);
        forall k: nat | |data| <= base.size * Pow2(k + 1) ensures RootValue(job) == RefHash(base, data, k) {
          RootIsReference(job, data, k);
        }
      }
      c := s.result;
      jobs, meetings := jobs + 1, Meetings();
      nodes, cur, segment, started, data := s.nodes, 0, [], [], [];
    }
  }

  /** Somebody can take a step. */
  predicate Busy(job: Job, s: State) {
    MainEnabled(job, s) || exists j :: j in s.routines && RoutineEnabled(s, j)
  }

  lemma SomeStep(job: Job, s: State) returns (step: Step)
    requires Busy(job, s)
    ensures Enabled(job, s, step)
  {
    if MainEnabled(job, s) {
      step := Step.Main;
    } else {
      var j :| j in s.routines && RoutineEnabled(s, j);
      step := Go(j);
    }
  }

  /** A run under an arbitrary schedule, until the result is taken or nobody can move. On
      a tree that is ready for the job it ends with the value of the tree. */
  method Execute(job: Job) returns (s: State)
    requires ValidJob(job) && Clean(job.depth, job.tree)
    ensures s.main.Finished? || !Busy(job, s)
    ensures Ready(job) ==> s.main.Finished? && Done(job, s)
  {
    s := Initial(job);
    ghost var st: Progress := map[];
    InitialGood(job);
    while !s.main.Finished? && Busy(job, s)
      invariant Confined(job, s) && (Ready(job) ==> Good(job, s, st))
      decreases Fuel(job, s, job.depth + 1)
    {
      ghost var some := SomeStep(job, s);
      var step :| Enabled(job, s, step);
      StepConfined(job, s, step);
      if Ready(job) {
        ReadyIsSound(job, s, st, step);
        st := StepKeeps(job, s, st, step);
      }
      s := Next(job, s, step);
    }
    if Ready(job) && !s.main.Finished? {
      ghost var step := Progressing(job, s, st);
    }
  }

  /** c is the hash of as much of d as the capacity of n segments allows. */
  ghost predicate Hashes(base: Base, n: nat, d: Bytes, c: Bytes)
    requires base.size >= 1
  {
    var kept := d[..Min(|d|, Length(base, n))];
    forall k: nat :: |kept| <= base.size * Pow2(k + 1) ==> c == RefHash(base, kept, k)
  }

  /** What the concurrent hasher makes of data written at once. */
  method HashAtOnce(base: Base, count: nat, d: Bytes) returns (c: Bytes)
    requires base.size >= 1 && count >= 1
    ensures Hashes(base, count, d, c)
  {
    var h := new Hasher(base, count);
    c := HashWith(h, d);
  }

  /** One piece of data with an empty hasher, which is then empty again. */
  method HashWith(h: Hasher, d: Bytes) returns (c: Bytes)
    requires h.Valid() && h.data == [] && h.cur == 0 && h.segment == [] && h.jobs < 0x4000_0000
    modifies h
    ensures h.Valid() && h.data == [] && h.cur == 0 && h.segment == [] && h.jobs == old(h.jobs) + 1
    ensures Hashes(h.base, h.count, d, c)
  {
    var n := h.Write(d);
    assert [] + d == d;
    var r := h.Sum();
    c := r.value;
  }

  /** One hasher, and so one tree, is good for up to 2^30 pieces of data. */
  method HashAll(base: Base, count: nat, ds: seq<Bytes>) returns (cs: seq<Bytes>)
    requires base.size >= 1 && count >= 1 && |ds| <= 0x4000_0000
    ensures |cs| == |ds| && forall i :: 0 <= i < |ds| ==> Hashes(base, count, ds[i], cs[i])
  {
    var h := new Hasher(base, count);
    cs := [];
    while |cs| < |ds|
      invariant h.Valid() && h.base == base && h.count == count && h.data == [] && h.cur == 0 && h.segment == []
      invariant h.jobs == |cs| <= |ds| && forall i :: 0 <= i < |cs| ==> Hashes(base, count, ds[i], cs[i])
    {
      var c := HashWith(h, ds[|cs|]);
      cs := cs + [c];
    }
  }

  /** The concurrent hasher and the reference hasher agree on any data written at
      once, beyond the capacity or not. */
  method BothHash(base: Base, count: nat, d: Bytes) returns (c: Bytes, r: Bytes)
    requires base.size >= 1 && count >= 1
    ensures c == r
    ensures Hashes(base, count, d, c)
  {
    c := HashAtOnce(base, count, d);
    var ref := new RefHasher(base, count);
    LengthTimes(base, count);
    assert 2 * ref.span == base.size * Pow2(ref.k + 1);
    r := ref.Hash(d);
  }

  /** Two writes can overrun: the hasher for three one-byte segments ends up with four
      bytes of the data. */
  method OverrunExample(hash: Bytes -> Bytes, d: Bytes) returns (h: Hasher)
    requires |d| == 4
    ensures h.Valid() && h.Capacity() == 3 && h.data == d
  {
    h := new Hasher(Base(1, hash), 3);
    LengthTimes(h.base, 3);
    WidthTimes(h.base, 2);
    assert h.Capacity() == 3 && Width(h.base, 0) == 0 && h.Leaves() == 2;
    var n := h.Write(d[..1]);
    assert h.data == d[..1];
    h.OpenSegment();
    assert h.cur == 0 by {
      WidthUpTo(h.base, 1, h.cur + 1);
    }
    n := h.Write(d[1..]);
    assert d[..1] + d[1..] == d;
  }

  /** Cut `need` more bytes of b, from `rest` on, into double segments of the given
      size, as long as there are leaves; the open segment goes to its leaf first. */
  method Spread(base: Base, leaves: nat, b: Bytes, rest0: nat, need0: nat, size0: nat, started0: seq<Bytes>, s0: Bytes,
                ghost d: Bytes)
    returns (started: seq<Bytes>, s: Bytes, rest: nat)
    requires base.size >= 1 && rest0 + need0 <= |b| && |started0| < leaves
    requires started0 + [s0] == Sections(base, d + b[..rest0])
    requires need0 > 0 && |started0| < leaves - 1 ==> |s0| == size0 == 2 * base.size
    ensures |started0| <= |started| < leaves && rest <= |b| && started + [s] == Sections(base, d + b[..rest])
    ensures |started0| == leaves - 1 ==> rest == rest0
    ensures |started0| < leaves - 1 ==>
              |d| + rest == Min(|d| + rest0 + need0, Width(base, leaves))
  {
    started, s, rest := started0, s0, rest0;
    var i, need: int, size := |started0|, need0, size0;
    while need > 0 && i < leaves - 1
      invariant rest <= |b| && i == |started| && |started0| <= i < leaves && started + [s] == Sections(base, d + b[..rest])
      invariant (i == |started0| ==> rest == rest0) && (need >= 0 ==> rest + need == rest0 + need0) && (need <= 0 ==> rest == rest0 + need0)
      invariant need > 0 && |started0| < leaves - 1 ==> |s| == size == 2 * base.size
      decreases leaves - i
    {
      need := need - size;
      if need < 0 {
        size := size + need;
      }
      SectionsNext(base, d + b[..rest], b[rest..rest + size], started, s);
      assert d + b[..rest] + b[rest..rest + size] == d + b[..rest + size];
      started := started + [s];
      s := b[rest..rest + size];
      rest := rest + size;
      i := i + 1;
    }
    SectionsWidth(base, d + b[..rest], started, s);
    SectionLengths(base, d + b[..rest]);
    WidthUpTo(base, |started| + 1, leaves);
  }

  lemma {:induction false} WidthUpTo(b: Base, n: nat, m: nat)
    requires n <= m
    ensures Width(b, n) <= Width(b, m)
  {
    if n < m {
      WidthUpTo(b, n, m - 1);
    }
  }
}
