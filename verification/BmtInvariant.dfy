/** The invariant of the concurrent hasher: which value each node stands for, where
    each value is on its way up, and why no interleaving can lose or mix one. */
module BmtInvariant {
  import opened BmtReference
  import opened BmtMachine

  // ------------------------------------------------- the tree over the segments

  /** The height at which the tree over leaves 0 .. last closes. */
  function TopHeight(last: nat): (h: nat) {
    if last == 0 then 0 else 1 + TopHeight(last / 2)
  }

  lemma {:induction false} PathIndexShift(last: nat, g: nat)
    ensures PathIndex(last, g + 1) == PathIndex(last / 2, g)
  {
    if g > 0 {
      PathIndexShift(last, g - 1);
    }
  }

  lemma {:induction false} TopIsFirstZero(last: nat, g: nat)
    ensures PathIndex(last, g) == 0 <==> TopHeight(last) <= g
  {
    if g == 0 || last == 0 {
      ZeroPath(g);
    } else {
      PathIndexShift(last, g - 1);
      TopIsFirstZero(last / 2, g - 1);
    }
  }

  lemma {:induction false} ZeroPath(g: nat)
    ensures PathIndex(0, g) == 0
  {
    if g > 0 {
      ZeroPath(g - 1);
    }
  }

  function Path(job: Job, g: nat): (i: nat)
    requires |job.secs| >= 1
  {
    PathIndex(job.Last(), g)
  }

  function Top(job: Job): (h: nat)
    requires |job.secs| >= 1
  {
    TopHeight(job.Last())
  }

  /** Nodes of the tree that have data below them. */
  predicate Live(job: Job, p: Pos)
    requires |job.secs| >= 1
  {
    p.height <= Top(job) && p.index <= Path(job, p.height)
  }

  function LeftChild(p: Pos): (c: Pos) requires p.height > 0 { Pos(p.height - 1, 2 * p.index) }
  function RightChild(p: Pos): (c: Pos) requires p.height > 0 { Pos(p.height - 1, 2 * p.index + 1) }
  function Child(p: Pos, left: bool): (c: Pos) requires p.height > 0 { if left then LeftChild(p) else RightChild(p) }

  /** The value of a node: what the reference makes of the data below it. */
  function NodeValue(job: Job, p: Pos): (v: Bytes)
    requires |job.secs| >= 1 && p.index <= Path(job, p.height)
    decreases p.height
  {
    if p.height == 0 then LeafValue(job.base, job.secs[p.index])
    else if RightChild(p).index <= Path(job, p.height - 1)
    then job.base.hash(NodeValue(job, LeftChild(p)) + NodeValue(job, RightChild(p)))
    else NodeValue(job, LeftChild(p))
  }

  function RootValue(job: Job): (v: Bytes)
    requires |job.secs| >= 1
  {
    if job.Last() == 0 then job.base.hash(job.secs[0]) else TopValue(job)
  }

  function TopValue(job: Job): (v: Bytes)
    requires |job.secs| >= 1
  {
    NodeValue(job, Pos(Top(job), 0))
  }

  // ----------------------------------------------------------- the invariant

  /** How far the value of a node has come: not computed, carried to the parent by
      the goroutine of some leaf, left behind in the parent for the other half, or
      used up by the parent. */
  datatype Status = Unborn | Carried(leaf: nat) | LeftBehind | Used

  type Progress = map<Pos, Status>

  function At(st: Progress, p: Pos): (x: Status) {
    if p in st then st[p] else Unborn
  }

  /** The height up to which the last path has been marked. */
  function Marked(job: Job, m: Main): (h: nat)
    requires |job.secs| >= 1
  {
    match m
    case Writing(_) => 0
    case Finalising(pos, _, _) => pos.height
    case _ => Top(job) + 1
  }

  /** The lowest height that is marked. */
  function MarkBase(job: Job): (h: nat)
    requires |job.secs| >= 1
  {
    if StartsAtParent(job) then 1 else 0
  }

  /** Whether the last path enters its node at height g from the left. */
  predicate FromLeft(job: Job, g: nat)
    requires |job.secs| >= 1
  {
    g == 0 || Path(job, g - 1) % 2 == 0
  }

  predicate IsMarked(job: Job, m: Main, p: Pos)
    requires |job.secs| >= 1
  {
    MarkBase(job) <= p.height < Marked(job, m) && p.index == Path(job, p.height) && FromLeft(job, p.height)
  }

  predicate Launched(job: Job, m: Main, j: nat)
    requires |job.secs| >= 1
  {
    match m
    case Writing(next) => j < next
    case Finalising(_, _, _) => j < job.Last()
    case Launching(_) => j < job.Last()
    case _ => j <= job.Last()
  }

  ghost predicate MainOk(job: Job, s: State)
    requires |job.secs| >= 1
  {
    match s.main
    case Writing(next) => next <= job.Last() && s.result.None?
    case Finalising(pos, isLeft, d) =>
      && MarkBase(job) <= pos.height <= Top(job) && pos.index == Path(job, pos.height)
      && isLeft == FromLeft(job, pos.height) && d == pos.height - MarkBase(job) && s.result.None?
    case Launching(d) => d == Top(job) - MarkBase(job) && s.result.None?
    case _ => true
  }

  /** The flags of a live node. */
  ghost predicate FlagsOk(job: Job, s: State, p: Pos)
    requires |job.secs| >= 1
  {
    && p in s.nodes
    && s.nodes[p].unbalanced == IsMarked(job, s.main, p)
    && s.nodes[p].root == (p == Pos(job.depth, 0) || (p == Pos(Top(job), 0) && Marked(job, s.main) > Top(job)))
    && (IsMarked(job, s.main, p) ==> s.nodes[p].right == [])
  }

  /** The half c has been written into its parent. */
  ghost predicate Stored(s: State, st: Progress, c: Pos) {
    match At(st, c)
    case LeftBehind => true
    case Carried(j) => j in s.routines && s.routines[j].pc in {Test, Toggle, Combine}
    case _ => false
  }

  /** The half c has been through the toggle of its parent. */
  ghost predicate Toggled(s: State, st: Progress, c: Pos) {
    match At(st, c)
    case LeftBehind => true
    case Carried(j) => j in s.routines && s.routines[j].pc == Combine
    case _ => false
  }

  /** The counter of a node was not negative before the job. */
  predicate Unworn(job: Job, p: Pos) {
    p in job.tree ==> job.tree[p].state >= 0
  }

  /** A counter after k increments. */
  function Up(n: Int32, k: nat): (m: Int32) {
    if k == 0 then n else Increment(Up(n, k - 1))
  }

  /** How often the half c has counted in its parent. */
  ghost function Counted(s: State, st: Progress, c: Pos): (n: nat) {
    if Toggled(s, st, c) || At(st, c).Used? then 1 else 0
  }

  /** A node with two live halves. */
  ghost predicate PairOk(job: Job, s: State, st: Progress, p: Pos)
    requires |job.secs| >= 1 && p.height > 0 && p.index <= Path(job, p.height)
    requires RightChild(p).index <= Path(job, p.height - 1) && p in s.nodes && p in job.tree
  {
    var a, b, n := LeftChild(p), RightChild(p), s.nodes[p];
    && (At(st, p).Unborn? <==> !At(st, a).Used?) && (At(st, a).Used? <==> At(st, b).Used?)
    && !(At(st, a).LeftBehind? && At(st, b).LeftBehind?)
    && (Stored(s, st, a) ==> n.left == NodeValue(job, a))
    && (Stored(s, st, b) ==> n.right == NodeValue(job, b))
    && n.state == Up(job.tree[p].state, Counted(s, st, a) + Counted(s, st, b))
    && (Toggled(s, st, a) && !At(st, a).LeftBehind? ==> At(st, b).LeftBehind?)
    && (Toggled(s, st, b) && !At(st, b).LeftBehind? ==> At(st, a).LeftBehind?)
  }

  /** A node with a left half only. */
  ghost predicate SingleOk(job: Job, s: State, st: Progress, p: Pos)
    requires |job.secs| >= 1 && p.height > 0 && p.index <= Path(job, p.height) && p in s.nodes && p in job.tree
  {
    var a, n := LeftChild(p), s.nodes[p];
    && (At(st, p).Unborn? <==> !At(st, a).Used?) && !At(st, a).LeftBehind? && n.state == job.tree[p].state
    && (Stored(s, st, a) ==> n.left == NodeValue(job, a))
  }

  ghost predicate NodeOk(job: Job, s: State, st: Progress, p: Pos)
    requires |job.secs| >= 1
  {
    && p in s.nodes && p in job.tree && p.index <= Path(job, p.height) && job.tree[p].state % 2 == 0
    && (p.height == 0 ==> s.nodes[p].state == job.tree[p].state)
    && (p.height > 0 ==>
          if RightChild(p).index <= Path(job, p.height - 1) then PairOk(job, s, st, p) else SingleOk(job, s, st, p))
  }

  /** A carried value is with its goroutine, below the parent; the value above the
      last leaf exists only once the last goroutine is launched; the top is used
      exactly when the result is out. */
  ghost predicate StatusOk(job: Job, s: State, st: Progress, c: Pos)
    requires |job.secs| >= 1
  {
    && (At(st, c).Carried? ==>
          var j := At(st, c).leaf;
          && j in s.routines && s.routines[j].pc != Seal
          && s.routines[j].pos == c.Parent() && s.routines[j].isLeft == c.IsLeft() && c.height < Top(job))
    && (!At(st, c).Unborn? && c.index == Path(job, c.height) ==> s.main.Waiting?)
    && (c.height == Top(job) ==> if s.result.Some? then At(st, c).Used? else At(st, c).Unborn?)
  }

  /** A leaf whose value is not computed has its goroutine, if that was launched. */
  ghost predicate LeafOk(job: Job, s: State, st: Progress, j: nat)
    requires |job.secs| >= 1
  {
    && (At(st, Pos(0, j)).Unborn? && Launched(job, s.main, j) ==> j in s.routines && s.routines[j].pos == Pos(0, j))
    && (!Launched(job, s.main, j) ==> j !in s.routines && At(st, Pos(0, j)).Unborn?)
  }

  /** A goroutine still at its leaf. */
  ghost predicate AtLeafOk(job: Job, s: State, st: Progress, j: nat)
    requires 1 <= |job.secs| && j < |job.secs| && j in s.routines
  {
    var r := s.routines[j];
    && At(st, Pos(0, j)).Unborn? && Launched(job, s.main, j) && r.s == job.secs[j] && r.i >= j
    && (j < job.Last() ==> r.d > 0)
    && (r.pc == Seal ==> |job.secs[j]| > job.base.size && job.depth > 0 && r.isLeft == (j % 2 == 0) && r.i == j)
    && (r.pc != Seal ==>
          && j == job.Last() && r.isLeft && (|job.secs[j]| <= job.base.size || job.depth == 0)
          && r.i == 2 * j && r.d == Top(job) - MarkBase(job) && r.pc != Toggle
          && Pos(0, j) in s.nodes && (r.pc != Store ==> s.nodes[Pos(0, j)].left == job.secs[j]))
  }

  /** A goroutine on its way up. */
  ghost predicate ClimbingOk(job: Job, s: State, st: Progress, j: nat)
    requires 1 <= |job.secs| && j in s.routines && s.routines[j].pos.height > 0
  {
    var r := s.routines[j];
    var c := Child(r.pos, r.isLeft);
    && Live(job, r.pos) && Live(job, c) && At(st, c) == Carried(j) && r.pc != Seal
    && r.s == NodeValue(job, c) && (r.i > 0 || r.d > 0)
    && (r.pc == Toggle ==> RightChild(r.pos).index <= Path(job, r.pos.height - 1))
  }

  ghost predicate RoutineOk(job: Job, s: State, st: Progress, j: nat)
    requires |job.secs| >= 1
  {
    j in s.routines ==>
      && j < |job.secs| && s.routines[j].pos in s.nodes
      && if s.routines[j].pos.height == 0 then s.routines[j].pos == Pos(0, j) && AtLeafOk(job, s, st, j)
         else ClimbingOk(job, s, st, j)
  }

  ghost predicate Inv(job: Job, s: State, st: Progress)
    requires |job.secs| >= 1
  {
    && MainOk(job, s)
    && (forall p :: Live(job, p) ==> FlagsOk(job, s, p))
    && (forall p :: Live(job, p) ==> NodeOk(job, s, st, p))
    && (forall p :: Live(job, p) ==> StatusOk(job, s, st, p))
    && (forall j :: 0 <= j <= job.Last() ==> LeafOk(job, s, st, j))
    && (forall j :: RoutineOk(job, s, st, j))
    && (s.result.Some? ==> s.result.value == RootValue(job))
    && !s.main.Finished?
  }
}
