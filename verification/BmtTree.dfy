/** The tree the concurrent hasher works on: how it is built, and that it is left
    ready for reuse. */
module BmtTree {
  import opened BmtReference
  import opened BmtMachine
  import opened BmtInvariant

  /** The nodes of a tree: those whose path upwards ends in the root. */
  predicate InTree(depth: nat, p: Pos) {
    p.height <= depth && PathIndex(p.index, depth - p.height) == 0
  }

  /** A node as a job leaves it: not marked, and counted by pairs of goroutines. */
  predicate CleanNode(depth: nat, p: Pos, n: Node) {
    !n.unbalanced && n.state % 2 == 0 && n.root == (p == Pos(depth, 0))
  }

  ghost predicate Clean(depth: nat, nodes: map<Pos, Node>) {
    && (forall p :: p in nodes <==> InTree(depth, p))
    && (forall p :: p in nodes ==> CleanNode(depth, p, nodes[p]))
  }

  /** There are 2^g nodes at a distance g from the root. */
  lemma {:induction false} PathEndsAtRoot(i: nat, g: nat)
    ensures PathIndex(i, g) == 0 <==> i < Pow2(g)
  {
    if g > 0 {
      PathIndexShift(i, g - 1);
      PathEndsAtRoot(i / 2, g - 1);
    }
  }

  lemma {:induction false} PathMonotone(i: nat, k: nat, g: nat)
    requires i <= k
    ensures PathIndex(i, g) <= PathIndex(k, g)
  {
    if g > 0 {
      PathMonotone(i, k, g - 1);
    }
  }

  lemma {:induction false} PathJoins(last: nat, g: nat, h: nat)
    ensures PathIndex(PathIndex(last, g), h) == PathIndex(last, g + h)
  {
    if h > 0 {
      PathJoins(last, g, h - 1);
    }
  }

  /** A tree deep enough for a job has all the nodes the job needs. */
  lemma LiveInTree(job: Job, p: Pos)
    requires ValidJob(job) && Live(job, p)
    ensures InTree(job.depth, p)
  {
    TopIsFirstZero(job.Last(), job.depth);
    PathMonotone(p.index, Path(job, p.height), job.depth - p.height);
    PathJoins(job.Last(), p.height, job.depth - p.height);
  }

  /** The depth of a tree for a number of segments: the least that has a leaf for
      every two of them. */
  method Depth(count: nat) returns (d: nat)
    requires count >= 1
    ensures d == TopHeight((count - 1) / 2)
    ensures forall last: nat :: last <= (count - 1) / 2 ==> PathIndex(last, d) == 0
  {
    var last := (count - 1) / 2;
    d := 0;
    var l: nat := last;
    while l > 0
      invariant d + TopHeight(l) == TopHeight(last)
    {
      d, l := d + 1, l / 2;
    }
    forall i: nat | i <= last ensures PathIndex(i, d) == 0 {
      PathMonotone(i, last, d);
      TopIsFirstZero(last, d);
    }
  }

  /** All levels from the root down to a height are there. */
  ghost predicate BuiltTo(depth: nat, nodes: map<Pos, Node>, h: nat) {
    && h <= depth
    && (forall p :: p in nodes <==> h <= p.height && InTree(depth, p))
    && (forall p :: p in nodes ==> nodes[p] == Node([], [], 0, false, p == Pos(depth, 0)))
  }

  /** One level of the tree, below the levels that are there. */
  method AddLevel(depth: nat, nodes: map<Pos, Node>, h: nat, count: nat) returns (r: map<Pos, Node>)
    requires BuiltTo(depth, nodes, h + 1) && count == Pow2(depth - h)
    ensures BuiltTo(depth, r, h)
  {
    r := nodes;
    var i := 0;
    while i < count
      invariant 0 <= i <= count
      invariant forall p :: p in r <==> p in nodes || (p.height == h && p.index < i)
      invariant forall p :: p in r ==> r[p] == Node([], [], 0, false, p == Pos(depth, 0))
    {
      r := r[Pos(h, i) := Node([], [], 0, false, false)];
      i := i + 1;
    }
    forall p ensures p in r <==> h <= p.height && InTree(depth, p) {
      if p.height == h {
        PathEndsAtRoot(p.index, depth - h);
      }
    }
  }

  /** A new tree for a number of segments. */
  method NewTree(segmentCount: nat) returns (depth: nat, nodes: map<Pos, Node>)
    requires segmentCount >= 1
    ensures Clean(depth, nodes) && depth == TopHeight((segmentCount - 1) / 2)
    ensures forall p :: p in nodes ==> nodes[p].state == 0
    ensures forall last: nat :: last <= (segmentCount - 1) / 2 ==> PathIndex(last, depth) == 0
  {
    depth := Depth(segmentCount);
    nodes := map[Pos(depth, 0) := Node([], [], 0, false, true)];
    var d, count := 1, 2;
    while d <= depth
      invariant 1 <= d <= depth + 1 && count == Pow2(d)
      invariant BuiltTo(depth, nodes, depth - (d - 1))
    {
      nodes := AddLevel(depth, nodes, depth - d, count);
      d, count := d + 1, count * 2;
    }
  }
}
