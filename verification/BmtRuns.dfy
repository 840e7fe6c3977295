/** Whole runs of the concurrent hasher, over every schedule of its goroutines. */
module BmtRuns {
  import opened Wrappers
  import opened BmtMachine
  import opened BmtInvariant
  import opened BmtProof
  import opened BmtMain
  import opened BmtTree

  /** Who takes the next step: the main thread, or the goroutine of a leaf. */
  datatype Step = Main | Go(leaf: nat)

  predicate Enabled(job: Job, s: State, step: Step) {
    match step
    case Main => MainEnabled(job, s)
    case Go(j) => RoutineEnabled(s, j)
  }

  function Next(job: Job, s: State, step: Step): (t: State)
    requires Enabled(job, s, step)
  {
    match step
    case Main => MainStep(job, s)
    case Go(j) => RoutineStep(job, s, j)
  }

  /** The state after a schedule, if the schedule is one that can happen. */
  function Run(job: Job, s: State, steps: seq<Step>): (t: Option<State>)
    decreases |steps|
  {
    if steps == [] then Some(s)
    else if Enabled(job, s, steps[0]) then Run(job, Next(job, s, steps[0]), steps[1..])
    else None
  }

  function Initial(job: Job): (s: State) {
    State(job.tree, map[], Writing(0), None)
  }

  /** A node in which two goroutines meet. */
  predicate Paired(job: Job, p: Pos)
    requires |job.secs| >= 1
  {
    Live(job, p) && !RightChildless(job, p)
  }

  /** No node in which two goroutines are going to meet has a negative counter. */
  ghost predicate Ready(job: Job)
    requires |job.secs| >= 1
  {
    forall p :: Paired(job, p) ==> Unworn(job, p)
  }

  /** The counter of a node after the job: two more where two goroutines met. */
  function CountAfter(job: Job, p: Pos): (n: Int32)
    requires |job.secs| >= 1 && p in job.tree
  {
    if Paired(job, p) then Up(job.tree[p].state, 2) else job.tree[p].state
  }

  // ----------------------------------------------------------- the invariant

  /** The nodes are those of the tree, and the ones without data stay as they were. */
  ghost predicate Outside(job: Job, nodes: map<Pos, Node>)
    requires |job.secs| >= 1
  {
    && (forall p :: p in nodes <==> InTree(job.depth, p)) && nodes.Keys == job.tree.Keys
    && (forall p :: p in nodes && !Live(job, p) ==> nodes[p] == job.tree[p] && CleanNode(job.depth, p, nodes[p]))
  }

  /** The counter of every node is the one after the job. */
  ghost predicate CountedUp(job: Job, nodes: map<Pos, Node>)
    requires |job.secs| >= 1
  {
    nodes.Keys == job.tree.Keys && forall p :: p in nodes ==> nodes[p].state == CountAfter(job, p)
  }

  /** The result is out, no goroutine is left, the tree is clean, and the nodes in which
      two goroutines met have counted two more. */
  ghost predicate Done(job: Job, s: State)
    requires |job.secs| >= 1
  {
    && s.result == Some(RootValue(job)) && s.routines == map[]
    && Clean(job.depth, s.nodes) && CountedUp(job, s.nodes)
  }

  ghost predicate Good(job: Job, s: State, st: Progress)
    requires |job.secs| >= 1
  {
    if s.main.Finished? then Done(job, s) else Inv(job, s, st) && Outside(job, s.nodes)
  }

  lemma InitialGood(job: Job)
    requires ValidJob(job) && Clean(job.depth, job.tree)
    ensures Good(job, Initial(job), map[])
  {
    var s, st: Progress := Initial(job), map[];
    forall p | Live(job, p) ensures FlagsOk(job, s, p) && NodeOk(job, s, st, p) && StatusOk(job, s, st, p) {
      LiveInTree(job, p);
    }
  }

  /** Once the top is computed, so is everything below. */
  lemma {:induction false} AllUsed(job: Job, s: State, st: Progress, p: Pos)
    requires ValidJob(job) && Inv(job, s, st) && s.result.Some? && Live(job, p)
    ensures At(st, p).Used?
    decreases Top(job) - p.height
  {
    if p.height == Top(job) {
      assert StatusOk(job, s, st, p);
    } else {
      var q := p.Parent();
      assert Live(job, q) && (p == LeftChild(q) || p == RightChild(q));
      AllUsed(job, s, st, q);
      assert NodeOk(job, s, st, q);
    }
  }

  /** When the result is out no goroutine is left. */
  lemma NobodyLeft(job: Job, s: State, st: Progress)
    requires ValidJob(job) && Inv(job, s, st) && s.result.Some?
    ensures s.routines == map[]
  {
    assert s.routines.Keys == {} by {
      forall j ensures j !in s.routines {
        assert RoutineOk(job, s, st, j);
        if j in s.routines {
          var r := s.routines[j];
          AllUsed(job, s, st, if r.pos.height == 0 then r.pos else Child(r.pos, r.isLeft));
        }
      }
    }
  }

  /** Two increments keep a counter even. */
  lemma UpTwo(n: Int32)
    requires n % 2 == 0
    ensures Up(n, 2) % 2 == 0 && Up(n, 0) == n
  {
    assert Up(n, 1) == Increment(Up(n, 0));
  }

  /** When the result is out, every counter is as it is after the job. */
  lemma FinalCount(job: Job, s: State, st: Progress, p: Pos)
    requires ValidJob(job) && Inv(job, s, st) && s.result.Some? && Live(job, p)
    ensures p in s.nodes && p in job.tree && s.nodes[p].state == CountAfter(job, p) && s.nodes[p].state % 2 == 0
  {
    assert NodeOk(job, s, st, p);
    UpTwo(job.tree[p].state);
    if !RightChildless(job, p) {
      AllUsed(job, s, st, LeftChild(p));
      AllUsed(job, s, st, RightChild(p));
    }
  }

  lemma UntouchedByRelease(job: Job, nodes: map<Pos, Node>, p: Pos)
    requires ValidJob(job) && Outside(job, nodes) && p in nodes && !Live(job, p)
    ensures CleanNode(job.depth, p, Released(job, nodes)[p]) && Released(job, nodes)[p].state == CountAfter(job, p)
  {
  }

  /** The release takes all marks away. */
  lemma ReleasedFlags(job: Job, s: State, p: Pos)
    requires ValidJob(job) && FlagsOk(job, s, p) && s.main.Waiting? && Live(job, p) && InTree(job.depth, p)
    ensures var n := Released(job, s.nodes)[p];
            !n.unbalanced && n.root == (p == Pos(job.depth, 0)) && n.state == s.nodes[p].state
  {
    TopIsFirstZero(job.Last(), Top(job));
    TopIsFirstZero(job.Last(), job.depth);
  }

  /** The release leaves every node clean, and every counter as it is after the job. */
  lemma ReleasedNode(job: Job, s: State, st: Progress, p: Pos)
    requires ValidJob(job) && Inv(job, s, st) && Outside(job, s.nodes) && s.result.Some? && s.main.Waiting? && p in s.nodes
    ensures CleanNode(job.depth, p, Released(job, s.nodes)[p])
    ensures Released(job, s.nodes)[p].state == CountAfter(job, p)
  {
    assert InTree(job.depth, p);
    if Live(job, p) {
      assert FlagsOk(job, s, p);
      FinalCount(job, s, st, p);
      ReleasedFlags(job, s, p);
    } else {
      UntouchedByRelease(job, s.nodes, p);
    }
  }

  lemma FinishKeeps(job: Job, s: State, st: Progress)
    requires ValidJob(job) && Good(job, s, st) && MainEnabled(job, s) && s.main.Waiting?
    ensures Done(job, MainStep(job, s))
  {
    NobodyLeft(job, s, st);
    forall p | p in s.nodes
      ensures CleanNode(job.depth, p, Released(job, s.nodes)[p]) && Released(job, s.nodes)[p].state == CountAfter(job, p)
    {
      ReleasedNode(job, s, st, p);
    }
  }

  /** A change to a node with data is no change outside. */
  lemma OutsideFrame(job: Job, nodes: map<Pos, Node>, p: Pos, n: Node)
    requires |job.secs| >= 1 && Outside(job, nodes) && p in nodes && Live(job, p)
    ensures Outside(job, nodes[p := n])
  {
  }

  lemma RoutineWrites(job: Job, s: State, j: nat)
    requires RoutineEnabled(s, j)
    ensures var p, t := s.routines[j].pos, RoutineStep(job, s, j);
            p in t.nodes && (t.nodes == s.nodes || t.nodes == s.nodes[p := t.nodes[p]])
  {
  }

  lemma RoutineOutside(job: Job, s: State, st: Progress, j: nat)
    requires |job.secs| >= 1 && RoutineOk(job, s, st, j) && Outside(job, s.nodes) && RoutineEnabled(s, j)
    ensures Outside(job, RoutineStep(job, s, j).nodes)
  {
    var p, t := s.routines[j].pos, RoutineStep(job, s, j);
    RoutineWrites(job, s, j);
    OutsideFrame(job, s.nodes, p, t.nodes[p]);
  }

  lemma MainOutside(job: Job, s: State, st: Progress)
    requires |job.secs| >= 1 && Inv(job, s, st) && Outside(job, s.nodes) && MainEnabled(job, s) && !s.main.Waiting?
    ensures Outside(job, MainStep(job, s).nodes)
  {
    if s.main.Finalising? {
      var p, t := s.main.pos, MainStep(job, s);
      OutsideFrame(job, s.nodes, p, t.nodes[p]);
    }
  }

  /** A step that is not the count of a node whose counter was negative. */
  predicate Sound(job: Job, s: State, step: Step) {
    step.Go? && step.leaf in s.routines && s.routines[step.leaf].pc == Toggle ==> Unworn(job, s.routines[step.leaf].pos)
  }

  /** Goroutines count only where two meet. */
  lemma CountsWherePaired(job: Job, s: State, st: Progress, j: nat)
    requires |job.secs| >= 1 && RoutineOk(job, s, st, j) && j in s.routines && s.routines[j].pc == Toggle
    ensures Paired(job, s.routines[j].pos)
  {
  }

  lemma ReadyIsSound(job: Job, s: State, st: Progress, step: Step)
    requires ValidJob(job) && Good(job, s, st) && Ready(job) && Enabled(job, s, step)
    ensures Sound(job, s, step)
  {
    if step.Go? && s.routines[step.leaf].pc == Toggle {
      assert RoutineOk(job, s, st, step.leaf);
      CountsWherePaired(job, s, st, step.leaf);
    }
  }

  lemma StepKeeps(job: Job, s: State, st: Progress, step: Step) returns (sp: Progress)
    requires ValidJob(job) && Good(job, s, st) && Enabled(job, s, step) && Sound(job, s, step)
    ensures !s.main.Finished? && Good(job, Next(job, s, step), sp)
  {
    sp := st;
    match step {
      case Go(j) =>
        assert RoutineOk(job, s, st, j);
        RoutineOutside(job, s, st, j);
        sp := RoutineKeeps(job, s, st, j);
      case Main =>
        match s.main {
          case Waiting => FinishKeeps(job, s, st);
          case Writing(_) => MainOutside(job, s, st); WritingKeeps(job, s, st);
          case Launching(_) => MainOutside(job, s, st); LaunchKeeps(job, s, st);
          case Finalising(_, _, _) => MainOutside(job, s, st); MarkKeeps(job, s, st);
        }
    }
  }

  lemma {:induction false} RunKeeps(job: Job, s: State, st: Progress, steps: seq<Step>) returns (sp: Progress)
    requires ValidJob(job) && Ready(job) && Good(job, s, st) && Run(job, s, steps).Some?
    ensures Good(job, Run(job, s, steps).value, sp)
    decreases |steps|
  {
    sp := st;
    if steps != [] {
      ReadyIsSound(job, s, st, steps[0]);
      sp := StepKeeps(job, s, st, steps[0]);
      sp := RunKeeps(job, Next(job, s, steps[0]), sp, steps[1..]);
    }
  }

  /** Whatever the schedule, a result is the value of the tree over the segments; and
      a finished run leaves no goroutine behind and a clean tree, with two counts more
      in every node in which two goroutines met and none in the others. */
  lemma EveryRun(job: Job, steps: seq<Step>)
    requires ValidJob(job) && Clean(job.depth, job.tree) && Ready(job) && Run(job, Initial(job), steps).Some?
    ensures var t := Run(job, Initial(job), steps).value;
            && (t.result.Some? ==> t.result.value == RootValue(job) && t.routines == map[])
            && (t.main.Finished? ==> t.result.Some? && Clean(job.depth, t.nodes) && CountedUp(job, t.nodes))
  {
    InitialGood(job);
    var sp := RunKeeps(job, Initial(job), map[], steps);
    var t := Run(job, Initial(job), steps).value;
    if t.result.Some? && !t.main.Finished? {
      NobodyLeft(job, t, sp);
    }
  }

  // ---------------------------------------------------- progress and termination

  /** A live node without a value is being worked on, once all goroutines started. */
  lemma {:induction false} SomebodyWorks(job: Job, s: State, st: Progress, p: Pos) returns (j: nat)
    requires |job.secs| >= 1 && Inv(job, s, st) && s.main.Waiting? && Live(job, p) && At(st, p).Unborn?
    ensures RoutineEnabled(s, j) && s.routines[j].pos.height <= p.height
    decreases p.height
  {
    assert NodeOk(job, s, st, p);
    if p.height == 0 {
      j := p.index;
      assert LeafOk(job, s, st, j);
    } else {
      var c := LeftChild(p);
      if At(st, c).LeftBehind? {
        c := RightChild(p);
      }
      assert Live(job, c) && StatusOk(job, s, st, c);
      if At(st, c).Unborn? {
        j := SomebodyWorks(job, s, st, c);
      } else {
        j := At(st, c).leaf;
      }
    }
    assert RoutineOk(job, s, st, j);
  }

  lemma Progressing(job: Job, s: State, st: Progress) returns (step: Step)
    requires ValidJob(job) && Good(job, s, st) && !s.main.Finished?
    ensures Enabled(job, s, step)
  {
    step := Main;
    if s.main.Waiting? && s.result.None? {
      var top := Pos(Top(job), 0);
      TopIsFirstZero(job.Last(), Top(job));
      assert Live(job, top) && StatusOk(job, s, st, top);
      var j := SomebodyWorks(job, s, st, top);
      step := Go(j);
    } else if s.main.Finalising? {
      assert Live(job, s.main.pos) && FlagsOk(job, s, s.main.pos);
    }
  }

  /** No schedule gets stuck before the run is finished. */
  lemma NoDeadlock(job: Job, steps: seq<Step>) returns (step: Step)
    requires ValidJob(job) && Clean(job.depth, job.tree) && Ready(job) && Run(job, Initial(job), steps).Some?
    requires !Run(job, Initial(job), steps).value.main.Finished?
    ensures Enabled(job, Run(job, Initial(job), steps).value, step)
  {
    InitialGood(job);
    var sp := RunKeeps(job, Initial(job), map[], steps);
    step := Progressing(job, Run(job, Initial(job), steps).value, sp);
  }
}
