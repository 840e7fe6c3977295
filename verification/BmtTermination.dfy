/** Every schedule of the concurrent hasher is finite. */
module BmtTermination {
  import opened BmtMachine
  import opened BmtInvariant
  import opened BmtTree
  import opened BmtRuns

  function Rank(pc: Pc): (n: nat) {
    match pc
    case Seal => 1
    case Store => 4
    case Test => 3
    case Toggle => 2
    case Combine => 1
  }

  /** The steps the goroutine of leaf j still has, at most, if nobody gets above h. */
  function Left(job: Job, s: State, j: nat, h: nat): (n: nat)
    requires |job.secs| >= 1
  {
    if j in s.routines
    then 4 * (if s.routines[j].pos.height <= h then h - s.routines[j].pos.height else 0) + Rank(s.routines[j].pc)
    else if Launched(job, s.main, j) then 0 else 4 * h + 4
  }

  /** The steps the main thread still has. */
  function MainLeft(job: Job, m: Main, h: nat): (n: nat)
    requires |job.secs| >= 1
  {
    match m
    case Writing(next) => (if next <= job.Last() then job.Last() - next else 0) + h + 4
    case Finalising(pos, _, _) => (if pos.height <= h then h - pos.height else 0) + 3
    case Launching(_) => 2
    case Waiting => 1
    case Finished => 0
  }

  function Total(job: Job, s: State, n: nat, h: nat): (t: nat)
    requires |job.secs| >= 1
  {
    if n == 0 then 0 else Total(job, s, n - 1, h) + Left(job, s, n - 1, h)
  }

  function Fuel(job: Job, s: State, h: nat): (n: nat)
    requires |job.secs| >= 1
  {
    MainLeft(job, s.main, h) + Total(job, s, |job.secs|, h)
  }

  /** Nobody is above the height h, and only goroutines that were started are there. */
  ghost predicate Below(job: Job, s: State, h: nat)
    requires |job.secs| >= 1
  {
    && (forall j :: j in s.routines ==> j < |job.secs| && Launched(job, s.main, j) && s.routines[j].pos.height <= h)
    && (s.main.Finalising? ==> s.main.pos.height <= h)
    && (s.main.Writing? ==> s.main.next <= job.Last())
  }

  lemma {:induction false} TotalMonotone(job: Job, s: State, t: State, n: nat, h: nat)
    requires |job.secs| >= 1 && forall i: nat :: i < n ==> Left(job, t, i, h) <= Left(job, s, i, h)
    ensures Total(job, t, n, h) <= Total(job, s, n, h)
  {
    if n > 0 {
      TotalMonotone(job, s, t, n - 1, h);
    }
  }

  lemma {:induction false} TotalLess(job: Job, s: State, t: State, n: nat, j: nat, h: nat)
    requires |job.secs| >= 1 && j < n && Left(job, t, j, h) < Left(job, s, j, h)
    requires forall i: nat :: i < n ==> Left(job, t, i, h) <= Left(job, s, i, h)
    ensures Total(job, t, n, h) < Total(job, s, n, h)
  {
    if j == n - 1 {
      TotalMonotone(job, s, t, n - 1, h);
    } else {
      TotalLess(job, s, t, n - 1, j, h);
    }
  }

  lemma RoutineBurns(job: Job, s: State, j: nat, h: nat)
    requires |job.secs| >= 1 && RoutineEnabled(s, j) && Below(job, s, h) && Below(job, RoutineStep(job, s, j), h)
    ensures Left(job, RoutineStep(job, s, j), j, h) < Left(job, s, j, h)
    ensures forall i: nat :: i != j ==> Left(job, RoutineStep(job, s, j), i, h) == Left(job, s, i, h)
  {
    assert j in s.routines && Launched(job, s.main, j) && s.routines[j].pos.height <= h;
    var t := RoutineStep(job, s, j);
    if j in t.routines {
      assert t.routines[j].pos.height <= h;
    }
  }

  lemma MainBurns(job: Job, s: State, h: nat)
    requires |job.secs| >= 1 && MainEnabled(job, s) && Below(job, s, h) && Below(job, MainStep(job, s), h)
    ensures MainLeft(job, MainStep(job, s).main, h) < MainLeft(job, s.main, h)
    ensures forall i: nat :: i < |job.secs| ==> Left(job, MainStep(job, s), i, h) <= Left(job, s, i, h)
  {
    forall i: nat | i < |job.secs| ensures Left(job, MainStep(job, s), i, h) <= Left(job, s, i, h) {
      assert i in s.routines ==> Launched(job, s.main, i);
    }
  }

  /** Every step uses up fuel. */
  lemma StepBurns(job: Job, s: State, step: Step, h: nat)
    requires |job.secs| >= 1 && Enabled(job, s, step) && Below(job, s, h) && Below(job, Next(job, s, step), h)
    ensures Fuel(job, Next(job, s, step), h) < Fuel(job, s, h)
  {
    var t := Next(job, s, step);
    match step
    case Main =>
      MainBurns(job, s, h);
      TotalMonotone(job, s, t, |job.secs|, h);
    case Go(j) =>
      RoutineBurns(job, s, j, h);
      TotalLess(job, s, t, |job.secs|, j, h);
  }

  lemma OneMore(n: nat, x: nat)
    ensures (n + 1) * x == n * x + x
  {
  }

  lemma {:induction false} FreshTotal(job: Job, n: nat, h: nat)
    requires |job.secs| >= 1
    ensures Total(job, Initial(job), n, h) == n * (4 * h + 4)
  {
    if n > 0 {
      FreshTotal(job, n - 1, h);
      OneMore(n - 1, 4 * h + 4);
    }
  }

  // ------------------------------------------------- on a tree ready for the job

  /** On a tree that is ready nobody gets above the top of the data. */
  lemma GoodIsBelow(job: Job, s: State, st: Progress)
    requires ValidJob(job) && Good(job, s, st)
    ensures Below(job, s, Top(job))
  {
    forall j | j in s.routines ensures j < |job.secs| && Launched(job, s.main, j) && s.routines[j].pos.height <= Top(job) {
      assert RoutineOk(job, s, st, j);
      assert LeafOk(job, s, st, j);
    }
  }

  lemma GoodBurns(job: Job, s: State, st: Progress, step: Step)
    requires ValidJob(job) && Good(job, s, st) && Enabled(job, s, step) && Sound(job, s, step)
    ensures Fuel(job, Next(job, s, step), Top(job)) < Fuel(job, s, Top(job))
  {
    GoodIsBelow(job, s, st);
    var sp := StepKeeps(job, s, st, step);
    GoodIsBelow(job, Next(job, s, step), sp);
    StepBurns(job, s, step, Top(job));
  }

  lemma {:induction false} RunBurns(job: Job, s: State, st: Progress, steps: seq<Step>)
    requires ValidJob(job) && Ready(job) && Good(job, s, st) && Run(job, s, steps).Some?
    ensures |steps| <= Fuel(job, s, Top(job))
    decreases |steps|
  {
    if steps != [] {
      ReadyIsSound(job, s, st, steps[0]);
      GoodBurns(job, s, st, steps[0]);
      var sp := StepKeeps(job, s, st, steps[0]);
      RunBurns(job, Next(job, s, steps[0]), sp, steps[1..]);
    }
  }

  /** A run for n double segments takes at most n + h + 3 + n * 4(h + 1) steps, where h
      is the height of the tree over them. */
  lemma Terminates(job: Job, steps: seq<Step>)
    requires ValidJob(job) && Clean(job.depth, job.tree) && Ready(job) && Run(job, Initial(job), steps).Some?
    ensures |steps| <= |job.secs| + Top(job) + 3 + |job.secs| * (4 * Top(job) + 4)
  {
    InitialGood(job);
    RunBurns(job, Initial(job), map[], steps);
    FreshTotal(job, |job.secs|, Top(job));
  }

  // ------------------------------------------------------------- on any tree

  /** Nobody is more than one step above the tree, whatever its counters. */
  ghost predicate Confined(job: Job, s: State)
    requires |job.secs| >= 1
  {
    (forall p :: p in s.nodes ==> p.height <= job.depth) && Below(job, s, job.depth + 1)
  }

  lemma StepConfined(job: Job, s: State, step: Step)
    requires |job.secs| >= 1 && Confined(job, s) && Enabled(job, s, step)
    ensures Confined(job, Next(job, s, step))
    ensures Fuel(job, Next(job, s, step), job.depth + 1) < Fuel(job, s, job.depth + 1)
  {
    match step
    case Main => MainConfined(job, s); StepBurns(job, s, step, job.depth + 1);
    case Go(j) => RoutineConfined(job, s, j); StepBurns(job, s, step, job.depth + 1);
  }

  lemma RoutineConfined(job: Job, s: State, j: nat)
    requires |job.secs| >= 1 && Confined(job, s) && RoutineEnabled(s, j)
    ensures Confined(job, RoutineStep(job, s, j))
  {
    var t := RoutineStep(job, s, j);
    forall i | i in t.routines
      ensures i < |job.secs| && Launched(job, t.main, i) && t.routines[i].pos.height <= job.depth + 1
    {
      assert i in s.routines;
    }
  }

  lemma MainConfined(job: Job, s: State)
    requires |job.secs| >= 1 && Confined(job, s) && MainEnabled(job, s)
    ensures Confined(job, MainStep(job, s))
  {
  }

  lemma {:induction false} RunConfined(job: Job, s: State, steps: seq<Step>)
    requires |job.secs| >= 1 && Confined(job, s) && Run(job, s, steps).Some?
    ensures |steps| <= Fuel(job, s, job.depth + 1)
    decreases |steps|
  {
    if steps != [] {
      StepConfined(job, s, steps[0]);
      RunConfined(job, Next(job, s, steps[0]), steps[1..]);
    }
  }

  /** Even on a tree with counters of any value, a run on a tree of depth d takes at most
      n + d + 4 + n * 4(d + 2) steps. */
  lemma TerminatesAnyway(job: Job, steps: seq<Step>)
    requires |job.secs| >= 1 && (forall p :: p in job.tree ==> p.height <= job.depth) && Run(job, Initial(job), steps).Some?
    ensures |steps| <= |job.secs| + job.depth + 4 + |job.secs| * (4 * job.depth + 8)
  {
    RunConfined(job, Initial(job), steps);
    FreshTotal(job, |job.secs|, job.depth + 1);
  }
}
