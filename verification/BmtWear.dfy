/** The counters of a tree wear out: how long two goroutines that meet in a node pair
    off, and what happens when they no longer do. */
module BmtWear {
  import opened Wrappers
  import opened BmtReference
  import opened BmtMachine
  import opened BmtInvariant
  import opened BmtProof
  import opened BmtTree
  import opened BmtRuns
  import opened BmtTermination

  // --------------------------------------------------- the life of a counter

  /** A counter that began at zero shows the count until it wraps. */
  lemma {:induction false} UpFromZero(n: nat)
    requires n <= 0x8000_0000
    ensures Up(0, n) == if n < 0x8000_0000 then n else -0x8000_0000
  {
    if n > 0 {
      UpFromZero(n - 1);
    }
  }

  lemma {:induction false} UpAgain(n: Int32, a: nat, b: nat)
    ensures Up(Up(n, a), b) == Up(n, a + b)
  {
    if b > 0 {
      UpAgain(n, a, b - 1);
    }
  }

  /** With two counts for every job, a counter is good for 2^30 jobs, and no longer. */
  lemma GoodFor(jobs: nat)
    requires jobs <= 0x4000_0000
    ensures Up(0, 2 * jobs) >= 0 <==> jobs < 0x4000_0000
  {
    UpFromZero(2 * jobs);
  }

  // ------------------------------------------------ two that both go on

  /** Two goroutines are about to compute the value of the same node. */
  ghost predicate Clash(s: State) {
    exists i, k :: BothGoOn(s, i, k)
  }

  predicate BothGoOn(s: State, i: nat, k: nat) {
    && i != k && i in s.routines && k in s.routines && s.routines[i].pos == s.routines[k].pos
    && s.routines[i].pc == Combine && s.routines[k].pc == Combine
  }

  lemma NoClash(job: Job, s: State, st: Progress, i: nat, k: nat)
    requires ValidJob(job) && Good(job, s, st)
    ensures !BothGoOn(s, i, k)
  {
    if BothGoOn(s, i, k) {
      assert RoutineOk(job, s, st, i) && RoutineOk(job, s, st, k);
      Meeting(job, s, st, i);
      Meeting(job, s, st, k);
    }
  }

  /** A node in which two goroutines meet although its counter was negative. */
  predicate Worn(job: Job, p: Pos)
    requires |job.secs| >= 1
  {
    Paired(job, p) && !Unworn(job, p)
  }

  /** No goroutine has counted a worn node yet. */
  ghost predicate Uncounted(job: Job, s: State)
    requires |job.secs| >= 1
  {
    forall p :: Worn(job, p) && p in s.nodes ==> s.nodes[p].state == job.tree[p].state
  }

  lemma StaysUncounted(job: Job, s: State, step: Step)
    requires |job.secs| >= 1 && Uncounted(job, s) && Enabled(job, s, step) && Sound(job, s, step)
    ensures Uncounted(job, Next(job, s, step))
  {
  }

  /** In a worn node that nobody has counted, neither half is past the count. */
  lemma HalvesWait(job: Job, s: State, st: Progress, p: Pos)
    requires ValidJob(job) && Inv(job, s, st) && Uncounted(job, s) && Worn(job, p)
    ensures At(st, p).Unborn? && Pending(s, st, LeftChild(p)) && Pending(s, st, RightChild(p))
  {
    assert NodeOk(job, s, st, p);
    var a, b := LeftChild(p), RightChild(p);
    assert Live(job, a) && StatusOk(job, s, st, a) && Live(job, b) && StatusOk(job, s, st, b);
    UpMoves(job.tree[p].state);
  }

  lemma UpMoves(n: Int32)
    ensures Up(n, 1) != n && Up(n, 2) != n
  {
    assert Up(n, 1) == Increment(Up(n, 0));
  }

  /** A half is not computed yet, or its goroutine has not counted its parent. */
  ghost predicate Pending(s: State, st: Progress, c: Pos) {
    match At(st, c)
    case Unborn => true
    case Carried(j) => j in s.routines && s.routines[j].pc in {Store, Test, Toggle} && s.routines[j].pos == c.Parent()
    case _ => false
  }

  /** Nothing below the height g is worn. */
  ghost predicate LowestWorn(job: Job, g: nat)
    requires |job.secs| >= 1
  {
    forall p: Pos :: p.height < g ==> !Worn(job, p)
  }

  /** The half c is with goroutine j, which is about to count the parent. */
  ghost predicate AboutToCount(s: State, st: Progress, c: Pos, j: nat) {
    At(st, c) == Carried(j) && j in s.routines && s.routines[j].pc == Toggle && s.routines[j].pos == c.Parent()
  }

  /** Somebody can bring a half of the lowest worn node on without counting one. */
  lemma BringOn(job: Job, s: State, st: Progress, p: Pos, c: Pos) returns (step: Step)
    requires ValidJob(job) && Inv(job, s, st) && Uncounted(job, s) && Worn(job, p) && LowestWorn(job, p.height)
    requires s.main.Waiting? && (c == LeftChild(p) || c == RightChild(p))
    requires forall j :: !AboutToCount(s, st, c, j)
    ensures Enabled(job, s, step) && Sound(job, s, step) && step.Go?
  {
    HalvesWait(job, s, st, p);
    assert Live(job, c) && StatusOk(job, s, st, c);
    ChildFacts(p);
    if At(st, c).Unborn? {
      var j := SomebodyWorks(job, s, st, c);
      step := Go(j);
      assert RoutineOk(job, s, st, j);
      if s.routines[j].pc == Toggle {
        CountsWherePaired(job, s, st, j);
        assert !Worn(job, s.routines[j].pos);
      }
    } else {
      var j := At(st, c).leaf;
      assert !AboutToCount(s, st, c, j);
      assert RoutineOk(job, s, st, j);
      step := Go(j);
    }
  }

  /** Until both halves of the lowest worn node are there, a step that counts no worn
      node is possible. */
  lemma NextSound(job: Job, s: State, st: Progress, p: Pos) returns (step: Step)
    requires ValidJob(job) && Inv(job, s, st) && Uncounted(job, s) && Worn(job, p) && LowestWorn(job, p.height)
    requires forall i, k :: !(AboutToCount(s, st, LeftChild(p), i) && AboutToCount(s, st, RightChild(p), k))
    ensures Enabled(job, s, step) && Sound(job, s, step) && (s.main.Waiting? ==> step.Go?)
  {
    if s.main.Waiting? {
      if j :| AboutToCount(s, st, LeftChild(p), j) {
        step := BringOn(job, s, st, p, RightChild(p));
      } else {
        step := BringOn(job, s, st, p, LeftChild(p));
      }
    } else {
      step := Main;
      if s.main.Finalising? {
        assert Live(job, s.main.pos) && FlagsOk(job, s, s.main.pos);
      }
    }
  }

  lemma NotFinished(job: Job, s: State, step: Step)
    requires Enabled(job, s, step) && !s.main.Finished? && (s.main.Waiting? ==> step.Go?)
    ensures !Next(job, s, step).main.Finished?
  {
  }

  lemma ReachStep(job: Job, s: State, st: Progress, p: Pos) returns (step: Step, sp: Progress)
    requires ValidJob(job) && Inv(job, s, st) && Outside(job, s.nodes) && Uncounted(job, s)
    requires Worn(job, p) && LowestWorn(job, p.height)
    requires forall i, k :: !(AboutToCount(s, st, LeftChild(p), i) && AboutToCount(s, st, RightChild(p), k))
    ensures Enabled(job, s, step)
    ensures var t := Next(job, s, step);
            && Inv(job, t, sp) && Outside(job, t.nodes) && Uncounted(job, t) && Fuel(job, t, Top(job)) < Fuel(job, s, Top(job))
  {
    step := NextSound(job, s, st, p);
    sp := StepKeeps(job, s, st, step);
    StaysUncounted(job, s, step);
    GoodBurns(job, s, st, step);
    NotFinished(job, s, step);
  }

  /** Some schedule brings both halves of the lowest worn node there. */
  lemma {:induction false} Reach(job: Job, s: State, st: Progress, p: Pos)
    returns (steps: seq<Step>, sp: Progress, i: nat, k: nat)
    requires ValidJob(job) && Inv(job, s, st) && Outside(job, s.nodes) && Uncounted(job, s)
    requires Worn(job, p) && LowestWorn(job, p.height)
    ensures Run(job, s, steps).Some?
    ensures var t := Run(job, s, steps).value;
            && Inv(job, t, sp) && Uncounted(job, t)
            && AboutToCount(t, sp, LeftChild(p), i) && AboutToCount(t, sp, RightChild(p), k)
    decreases Fuel(job, s, Top(job))
  {
    steps, sp := [], st;
    if x: nat, y: nat :| AboutToCount(s, st, LeftChild(p), x) && AboutToCount(s, st, RightChild(p), y) {
      i, k := x, y;
    } else {
      var step, after := ReachStep(job, s, st, p);
      steps, sp, i, k := Reach(job, Next(job, s, step), after, p);
      RunFirst(job, s, step, steps);
      steps := [step] + steps;
    }
  }

  lemma RunFirst(job: Job, s: State, step: Step, steps: seq<Step>)
    requires Enabled(job, s, step)
    ensures Run(job, s, [step] + steps) == Run(job, Next(job, s, step), steps)
  {
    assert ([step] + steps)[1..] == steps;
  }

  lemma {:induction false} RunParts(job: Job, s: State, first: seq<Step>, rest: seq<Step>)
    requires Run(job, s, first).Some?
    ensures Run(job, s, first + rest) == Run(job, Run(job, s, first).value, rest)
    decreases |first|
  {
    if first == [] {
      assert [] + rest == rest;
    } else {
      RunParts(job, Next(job, s, first[0]), first[1..], rest);
      assert first + rest == [first[0]] + (first[1..] + rest);
      RunFirst(job, s, first[0], first[1..] + rest);
    }
  }

  lemma RunOn(job: Job, s: State, steps: seq<Step>, step: Step)
    requires Run(job, s, steps).Some? && Enabled(job, Run(job, s, steps).value, step)
    ensures Run(job, s, steps + [step]) == Some(Next(job, Run(job, s, steps).value, step))
  {
    RunParts(job, s, steps, [step]);
    RunFirst(job, Run(job, s, steps).value, step, []);
    assert [step] + [] == [step];
  }

  /** Both that count a worn node go on. */
  lemma BothCount(job: Job, s: State, st: Progress, p: Pos, i: nat, k: nat)
    requires ValidJob(job) && Inv(job, s, st) && Uncounted(job, s) && Worn(job, p)
    requires AboutToCount(s, st, LeftChild(p), i) && AboutToCount(s, st, RightChild(p), k)
    ensures Enabled(job, s, Go(i)) && Enabled(job, Next(job, s, Go(i)), Go(k))
    ensures BothGoOn(Next(job, Next(job, s, Go(i)), Go(k)), i, k)
  {
    assert Live(job, LeftChild(p)) && StatusOk(job, s, st, LeftChild(p));
    assert Live(job, RightChild(p)) && StatusOk(job, s, st, RightChild(p));
    ChildFacts(p);
    assert NodeOk(job, s, st, p);
    Pairing(job.tree[p].state);
    assert Up(job.tree[p].state, 1) == Increment(Up(job.tree[p].state, 0));
  }

  /** The lowest of the worn nodes. */
  lemma {:induction false} Lowest(job: Job, g: nat) returns (p: Pos)
    requires |job.secs| >= 1 && !LowestWorn(job, g)
    ensures Worn(job, p) && LowestWorn(job, p.height)
  {
    if LowestWorn(job, g - 1) {
      p :| p.height < g && Worn(job, p);
    } else {
      p := Lowest(job, g - 1);
    }
  }

  /** On a tree that is not ready some schedule lets two goroutines go on from one node. */
  lemma SomeClash(job: Job) returns (steps: seq<Step>)
    requires ValidJob(job) && Clean(job.depth, job.tree) && !Ready(job)
    ensures Run(job, Initial(job), steps).Some? && Clash(Run(job, Initial(job), steps).value)
  {
    var q :| Paired(job, q) && !Unworn(job, q);
    assert Worn(job, q);
    var p := Lowest(job, q.height + 1);
    InitialGood(job);
    var first, sp, i, k := Reach(job, Initial(job), map[], p);
    var t := Run(job, Initial(job), first).value;
    BothCount(job, t, sp, p, i, k);
    RunOn(job, Initial(job), first, Go(i));
    RunOn(job, Initial(job), first + [Go(i)], Go(k));
    steps := first + [Go(i)] + [Go(k)];
  }

  /** Under every schedule the goroutines pair off, one stopping and one going on from
      every node in which two meet, if and only if none of these nodes has a negative
      counter before the job. */
  lemma PairOff(job: Job)
    requires ValidJob(job) && Clean(job.depth, job.tree)
    ensures Ready(job) <==>
            forall steps :: Run(job, Initial(job), steps).Some? ==> !Clash(Run(job, Initial(job), steps).value)
  {
    if Ready(job) {
      forall steps | Run(job, Initial(job), steps).Some? ensures !Clash(Run(job, Initial(job), steps).value) {
        InitialGood(job);
        var sp := RunKeeps(job, Initial(job), map[], steps);
        forall i: nat, k: nat ensures !BothGoOn(Run(job, Initial(job), steps).value, i, k) {
          NoClash(job, Run(job, Initial(job), steps).value, sp, i, k);
        }
      }
    } else {
      var steps := SomeClash(job);
    }
  }

  // ------------------------------------------------ the tree after 2^30 jobs

  /** A tree of depth one whose root has counted 2^30 pairs, with anything left over in its
      nodes. */
  function WornTree(l: Pos -> Bytes, r: Pos -> Bytes): (t: map<Pos, Node>) {
    var top, a, b := Pos(1, 0), Pos(0, 0), Pos(0, 1);
    map[top := Node(l(top), r(top), Up(0, 0x8000_0000), false, true),
        a := Node(l(a), r(a), 0, false, false), b := Node(l(b), r(b), 0, false, false)]
  }

  lemma WornTreeIsClean(l: Pos -> Bytes, r: Pos -> Bytes)
    ensures Clean(1, WornTree(l, r)) && WornTree(l, r)[Pos(1, 0)].state == -0x8000_0000
  {
    UpFromZero(0x8000_0000);
    forall p: Pos ensures p in WornTree(l, r) <==> InTree(1, p) {
      InSmallTree(p);
    }
  }

  lemma InSmallTree(p: Pos)
    ensures InTree(1, p) <==> p == Pos(1, 0) || p == Pos(0, 0) || p == Pos(0, 1)
  {
    assert PathIndex(p.index, 0) == p.index && PathIndex(p.index, 1) == p.index / 2;
  }

  /** The job for two double segments on that tree. */
  function WornJob(base: Base, a: Bytes, b: Bytes, l: Pos -> Bytes, r: Pos -> Bytes): (job: Job) {
    Job(base, 1, WornTree(l, r), [a, b])
  }

  /** The main thread gets both goroutines going; the first one climbs, and the result
      is taken. */
  function WornSchedule(): (steps: seq<Step>) {
    [Step.Main, Step.Main, Step.Main, Step.Main, Go(0), Go(0), Go(0), Go(0), Go(0), Step.Main]
  }

  /** The state before the first goroutine moves. */
  function WornReady(job: Job): (s: State)
    requires |job.secs| == 2 && Pos(1, 0) in job.tree
  {
    State(job.tree[Pos(1, 0) := job.tree[Pos(1, 0)].(right := [])], map[0 := Start(job, 0, 1), 1 := Start(job, 1, 0)], Waiting, None)
  }

  lemma WornStart(base: Base, a: Bytes, b: Bytes, l: Pos -> Bytes, r: Pos -> Bytes)
    requires base.size >= 1 && |a| > base.size && |b| > base.size
    ensures var job := WornJob(base, a, b, l, r); Run(job, Initial(job), WornSchedule()[..4]) == Some(WornReady(job))
  {
    var job := WornJob(base, a, b, l, r);
    WornTreeIsClean(l, r);
    var s1 := MainStep(job, Initial(job));
    var s2 := MainStep(job, s1);
    var s3 := MainStep(job, s2);
    assert s3.nodes == WornReady(job).nodes;
    RunFirst(job, s3, Step.Main, []);
    RunFirst(job, s2, Step.Main, [Step.Main]);
    RunFirst(job, s1, Step.Main, [Step.Main, Step.Main]);
    RunFirst(job, Initial(job), Step.Main, [Step.Main, Step.Main, Step.Main]);
  }

  /** The first goroutine finds the other half missing, and goes on all the same. */
  lemma WornClimb(base: Base, a: Bytes, b: Bytes, l: Pos -> Bytes, r: Pos -> Bytes)
    requires base.size >= 1 && |a| > base.size && |b| > base.size
    ensures var job := WornJob(base, a, b, l, r);
            var t := Run(job, WornReady(job), WornSchedule()[4..]);
            && t.Some? && t.value.main.Finished? && t.value.result == Some(base.hash(base.hash(a)))
            && t.value.routines == map[1 := Start(job, 1, 0)]
  {
    var job := WornJob(base, a, b, l, r);
    WornTreeIsClean(l, r);
    var s1 := RoutineStep(job, WornReady(job), 0);
    var s2 := RoutineStep(job, s1, 0);
    var s3 := RoutineStep(job, s2, 0);
    assert s3.routines[0].pc == Toggle;
    var s4 := RoutineStep(job, s3, 0);
    assert s4.routines[0].pc == Combine;
    var s5 := RoutineStep(job, s4, 0);
    assert base.hash(a) + [] == base.hash(a);
    assert s5.routines == map[1 := Start(job, 1, 0)];
    RunFirst(job, s5, Step.Main, []);
    RunFirst(job, s4, Go(0), [Step.Main]);
    RunFirst(job, s3, Go(0), [Go(0), Step.Main]);
    RunFirst(job, s2, Go(0), [Go(0), Go(0), Step.Main]);
    RunFirst(job, s1, Go(0), [Go(0), Go(0), Go(0), Step.Main]);
    RunFirst(job, WornReady(job), Go(0), [Go(0), Go(0), Go(0), Go(0), Step.Main]);
  }

  /** After 2^30 jobs: the tree is clean and the job is valid, and yet a schedule takes
      the hash of the left half alone for the result, with the goroutine of the right
      half still on its way. */
  lemma WornExample(base: Base, a: Bytes, b: Bytes, l: Pos -> Bytes, r: Pos -> Bytes)
    requires base.size >= 1 && |a| > base.size && |b| > base.size
    ensures var job := WornJob(base, a, b, l, r);
            var t := Run(job, Initial(job), WornSchedule());
            && ValidJob(job) && Clean(job.depth, job.tree) && !Ready(job)
            && t.Some? && t.value.main.Finished? && t.value.result == Some(base.hash(base.hash(a)))
            && 1 in t.value.routines && RootValue(job) == base.hash(base.hash(a) + base.hash(b))
  {
    var job := WornJob(base, a, b, l, r);
    WornTreeIsClean(l, r);
    WornStart(base, a, b, l, r);
    WornClimb(base, a, b, l, r);
    RunParts(job, Initial(job), WornSchedule()[..4], WornSchedule()[4..]);
    assert WornSchedule()[..4] + WornSchedule()[4..] == WornSchedule();
    WornValues(base, a, b, l, r);
  }

  lemma WornValues(base: Base, a: Bytes, b: Bytes, l: Pos -> Bytes, r: Pos -> Bytes)
    requires base.size >= 1 && |a| > base.size && |b| > base.size
    ensures var job := WornJob(base, a, b, l, r);
            ValidJob(job) && !Ready(job) && RootValue(job) == base.hash(base.hash(a) + base.hash(b))
  {
    var job := WornJob(base, a, b, l, r);
    WornTreeIsClean(l, r);
    assert Path(job, 0) == 1 && Path(job, 1) == 0 && TopHeight(1) == 1;
    assert Paired(job, Pos(1, 0));
    assert NodeValue(job, Pos(0, 0)) == base.hash(a) && NodeValue(job, Pos(0, 1)) == base.hash(b);
  }
}
