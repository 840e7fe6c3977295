/** The concurrent hasher as a state machine. One goroutine climbs the tree for every
    double segment; two that meet in a node agree by a toggle which of them carries
    on. The main thread starts them, marks the path of the last segment, and takes
    the result. Every interleaving of the steps below is a run. */
module BmtMachine {
  import opened Wrappers
  import opened BmtReference

  /** A node of the tree: its height above the leaves and its index at that height. */
  datatype Pos = Pos(height: nat, index: nat) {
    function Parent(): (p: Pos) { Pos(height + 1, index / 2) }
    function IsLeft(): (l: bool) { index % 2 == 0 }
  }

  /** The counters of the nodes: 32-bit numbers that wrap around. */
  type Int32 = n: int | -0x8000_0000 <= n < 0x8000_0000

  function Increment(n: Int32): (m: Int32) {
    if n == 0x7fff_ffff then -0x8000_0000 else n + 1
  }

  /** The remainder of Go: it has the sign of the number divided. */
  function Remainder(n: int, d: nat): (r: int)
    requires d > 0
  {
    if n >= 0 then n % d else -(-n % d)
  }

  /** A goroutine that has counted a node up to n stops there. */
  predicate Stops(n: Int32) {
    Remainder(n, 2) == 1
  }

  datatype Node = Node(left: Bytes, right: Bytes, state: Int32, unbalanced: bool, root: bool)

  datatype Pc = Seal | Store | Test | Toggle | Combine

  /** A goroutine at a node: `i` and `d` are the counters it carries, s its value. */
  datatype Routine = Routine(pc: Pc, pos: Pos, isLeft: bool, i: nat, d: nat, s: Bytes)

  datatype Main =
    | Writing(next: nat)
    | Finalising(pos: Pos, isLeft: bool, d: nat)
    | Launching(d: nat)
    | Waiting
    | Finished

  /** The goroutines are keyed by the leaf they were started for. */
  datatype State = State(nodes: map<Pos, Node>, routines: map<nat, Routine>, main: Main, result: Option<Bytes>)

  /** What is hashed and where: the base hash, the tree as it is before, with its
      depth, and the double segments. */
  datatype Job = Job(base: Base, depth: nat, tree: map<Pos, Node>, secs: seq<Bytes>) {
    function Last(): (l: nat) requires |secs| >= 1 { |secs| - 1 }
  }

  /** Index of the node at height g above the last leaf. */
  function PathIndex(last: nat, g: nat): (i: nat) {
    if g == 0 then last else PathIndex(last, g - 1) / 2
  }

  /** All but the last double segment have more than one segment, and the tree is
      deep enough for all leaves. */
  ghost predicate ValidJob(job: Job) {
    && job.base.size >= 1 && |job.secs| >= 1
    && (forall j :: 0 <= j < job.Last() ==> |job.secs[j]| > job.base.size)
    && (job.Last() > 0 ==> |job.secs[job.Last()]| > 0)
    && PathIndex(job.Last(), job.depth) == 0
  }

  // ---------------------------------------------------------------- the steps

  /** The goroutine started for leaf j: a double segment is hashed first, unless the
      leaf is the whole tree. */
  function Start(job: Job, j: nat, d: nat): (r: Routine)
    requires j < |job.secs|
  {
    if |job.secs[j]| > job.base.size && job.depth > 0
    then Routine(Seal, Pos(0, j), j % 2 == 0, j, d, job.secs[j])
    else Routine(Store, Pos(0, j), true, 2 * j, d, job.secs[j])
  }

  predicate RoutineEnabled(s: State, j: nat) {
    j in s.routines && s.routines[j].pos in s.nodes
  }

  function Climb(r: Routine, s: Bytes): (n: Routine) {
    Routine(Store, r.pos.Parent(), r.pos.IsLeft(), r.i + 1, r.d, s)
  }

  /** The value a goroutine makes of the two halves of its node. */
  function Combined(b: Base, n: Node, r: Routine): (v: Bytes) {
    if !n.unbalanced || !r.isLeft || (r.i == 0 && r.d == 0) then b.hash(n.left + n.right) else n.left + n.right
  }

  function RoutineStep(job: Job, s: State, j: nat): (t: State)
    requires RoutineEnabled(s, j)
  {
    var r := s.routines[j];
    var n := s.nodes[r.pos];
    match r.pc
    case Seal =>
      var v := job.base.hash(r.s);
      if n.root then s.(routines := s.routines - {j}, result := Some(v))
      else s.(routines := s.routines[j := Routine(Store, r.pos.Parent(), r.isLeft, r.i, r.d, v)])
    case Store =>
      s.(nodes := s.nodes[r.pos := if r.isLeft then n.(left := r.s) else n.(right := r.s)],
         routines := s.routines[j := r.(pc := Test)])
    case Test =>
      s.(routines := s.routines[j := r.(pc := if n.unbalanced then Combine else Toggle)])
    case Toggle =>
      var m := n.(state := Increment(n.state));
      if Stops(m.state) then s.(nodes := s.nodes[r.pos := m], routines := s.routines - {j})
      else s.(nodes := s.nodes[r.pos := m], routines := s.routines[j := r.(pc := Combine)])
    case Combine =>
      var v := Combined(job.base, n, r);
      if n.root then s.(routines := s.routines - {j}, result := Some(v))
      else s.(routines := s.routines[j := Climb(r, v)])
  }

  /** Where the marking of the last path begins: at the parent of the last leaf if
      that leaf holds a double segment, else at the leaf. */
  predicate StartsAtParent(job: Job)
    requires |job.secs| >= 1
  {
    |job.secs[job.Last()]| > job.base.size && job.Last() > 0 && job.depth > 0
  }

  function FirstMark(job: Job): (m: Main)
    requires |job.secs| >= 1
  {
    if StartsAtParent(job) then Finalising(Pos(1, job.Last() / 2), job.Last() % 2 == 0, 0)
    else Finalising(Pos(0, job.Last()), true, 0)
  }

  predicate MainEnabled(job: Job, s: State) {
    match s.main
    case Writing(next) => next < |job.secs|
    case Finalising(pos, _, _) => pos in s.nodes
    case Launching(_) => |job.secs| >= 1
    case Waiting => s.result.Some? && |job.secs| >= 1
    case Finished => false
  }

  /** What is left of the marks once the result is taken. */
  function Released(job: Job, nodes: map<Pos, Node>): (r: map<Pos, Node>)
    requires |job.secs| >= 1
  {
    map p | p in nodes ::
      if p.height <= job.depth && p.index == PathIndex(job.Last(), p.height)
      then nodes[p].(unbalanced := false, root := nodes[p].root && p.height == job.depth)
      else nodes[p]
  }

  function MainStep(job: Job, s: State): (t: State)
    requires MainEnabled(job, s)
  {
    match s.main
    case Writing(next) =>
      if next < job.Last()
      then s.(routines := s.routines[next := Start(job, next, job.depth)], main := Writing(next + 1))
      else s.(main := FirstMark(job))
    case Finalising(pos, isLeft, d) =>
      var n := s.nodes[pos].(unbalanced := isLeft, right := []);
      if pos.index == 0
      then s.(nodes := s.nodes[pos := n.(root := true)], main := Launching(d))
      else s.(nodes := s.nodes[pos := n], main := Finalising(pos.Parent(), pos.IsLeft(), d + 1))
    case Launching(d) =>
      s.(routines := s.routines[job.Last() := Start(job, job.Last(), d)], main := Waiting)
    case Waiting =>
      s.(nodes := Released(job, s.nodes), main := Finished)
  }
}
