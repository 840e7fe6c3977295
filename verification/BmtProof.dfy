/** Every step of the concurrent hasher keeps its invariant. */
module BmtProof {
  import opened Wrappers
  import opened BmtReference
  import opened BmtMachine
  import opened BmtInvariant

  /** t and s have the same goroutines, except for j. */
  ghost predicate SameOthers(s: State, t: State, j: nat) {
    forall i :: i != j ==> (i in s.routines <==> i in t.routines) && (i in s.routines ==> s.routines[i] == t.routines[i])
  }

  /** p has no right half. */
  predicate RightChildless(job: Job, p: Pos)
    requires |job.secs| >= 1
  {
    p.height == 0 || RightChild(p).index > Path(job, p.height - 1)
  }

  /** The status of the halves of p is the same in both, and neither is with j. */
  predicate HalvesAlone(job: Job, st: Progress, sp: Progress, p: Pos, j: nat)
    requires |job.secs| >= 1
  {
    && (p.height > 0 ==> At(st, LeftChild(p)) == At(sp, LeftChild(p)) != Carried(j))
    && (!RightChildless(job, p) ==> At(st, RightChild(p)) == At(sp, RightChild(p)) != Carried(j))
  }

  /** A node that goroutine j is not working on keeps its part of the invariant. */
  lemma NodeFrame(job: Job, s: State, st: Progress, t: State, sp: Progress, p: Pos, j: nat)
    requires |job.secs| >= 1 && NodeOk(job, s, st, p) && SameOthers(s, t, j) && HalvesAlone(job, st, sp, p, j)
    requires p in t.nodes && t.nodes[p].state == s.nodes[p].state
    requires t.nodes[p].left == s.nodes[p].left && (t.nodes[p].right == s.nodes[p].right || RightChildless(job, p))
    requires At(sp, p).Unborn? == At(st, p).Unborn?
    ensures NodeOk(job, t, sp, p)
  {
  }

  /** A goroutine is at most at one node. */
  lemma OnlyThere(job: Job, s: State, st: Progress, p: Pos, j: nat)
    requires |job.secs| >= 1 && Inv(job, s, st) && Live(job, p) && j in s.routines && s.routines[j].pos != p
    ensures HalvesAlone(job, st, st, p, j)
  {
    if p.height > 0 {
      var a, b := LeftChild(p), RightChild(p);
      assert Live(job, a) && StatusOk(job, s, st, a);
      if !RightChildless(job, p) {
        assert Live(job, b) && StatusOk(job, s, st, b);
      }
    }
  }

  lemma ChildFacts(p: Pos)
    requires p.height > 0
    ensures LeftChild(p).Parent() == p && RightChild(p).Parent() == p
    ensures LeftChild(p).IsLeft() && !RightChild(p).IsLeft()
  {
  }

  /** A climbing goroutine carries one half of its node; the other is not with it. */
  lemma Cargo(job: Job, s: State, st: Progress, j: nat)
    requires |job.secs| >= 1 && Inv(job, s, st) && j in s.routines && s.routines[j].pos.height > 0
    ensures var r := s.routines[j];
            && Live(job, r.pos) && ClimbingOk(job, s, st, j) && NodeOk(job, s, st, r.pos)
            && (!RightChildless(job, r.pos) ==> At(st, Child(r.pos, !r.isLeft)) != Carried(j))
            && (RightChildless(job, r.pos) ==> r.isLeft)
  {
    var r := s.routines[j];
    assert RoutineOk(job, s, st, j);
    ChildFacts(r.pos);
    if !RightChildless(job, r.pos) {
      var o := Child(r.pos, !r.isLeft);
      assert Live(job, o) && StatusOk(job, s, st, o);
    }
  }

  /** A marked node has no right half. */
  lemma MarkedIsSingle(job: Job, m: Main, p: Pos)
    requires |job.secs| >= 1 && IsMarked(job, m, p)
    ensures RightChildless(job, p)
  {
  }

  /** A goroutine other than j keeps its part of the invariant. */
  lemma RoutineFrame(job: Job, s: State, st: Progress, t: State, sp: Progress, i: nat, j: nat)
    requires |job.secs| >= 1 && RoutineOk(job, s, st, i) && SameOthers(s, t, j) && i != j && t.main == s.main
    requires i in s.routines ==>
               var r := s.routines[i];
               && r.pos in t.nodes
               && (r.pos.height == 0 ==> t.nodes[r.pos].left == s.nodes[r.pos].left && At(sp, r.pos) == At(st, r.pos))
               && (r.pos.height > 0 ==> At(sp, Child(r.pos, r.isLeft)) == At(st, Child(r.pos, r.isLeft)))
    ensures RoutineOk(job, t, sp, i)
  {
  }

  lemma LeafFrame(job: Job, s: State, st: Progress, t: State, sp: Progress, i: nat, j: nat)
    requires |job.secs| >= 1 && LeafOk(job, s, st, i) && SameOthers(s, t, j) && i != j && t.main == s.main
    requires At(sp, Pos(0, i)).Unborn? == At(st, Pos(0, i)).Unborn?
    ensures LeafOk(job, t, sp, i)
  {
  }

  // ------------------------------------------------------- steps of a goroutine

  /** What a step of goroutine j at a node may change: the contents of that node, but
      not its flags; the status of that node and of its halves; and j itself. */
  ghost predicate Local(job: Job, s: State, st: Progress, t: State, sp: Progress, j: nat)
    requires |job.secs| >= 1
  {
    && RoutineEnabled(s, j) && SameOthers(s, t, j) && t.main == s.main
    && (t.result == s.result || (s.main.Waiting? && t.result == Some(RootValue(job))))
    && t.nodes.Keys == s.nodes.Keys
    && (forall p :: p in s.nodes && p != s.routines[j].pos ==> t.nodes[p] == s.nodes[p])
    && t.nodes[s.routines[j].pos].unbalanced == s.nodes[s.routines[j].pos].unbalanced
    && t.nodes[s.routines[j].pos].root == s.nodes[s.routines[j].pos].root
    && (s.nodes[s.routines[j].pos].unbalanced ==> t.nodes[s.routines[j].pos].right == s.nodes[s.routines[j].pos].right)
    && (forall p :: At(sp, p) == At(st, p) || StatusMoves(st, sp, s.routines[j].pos, j, p))
  }

  ghost predicate StatusMoves(st: Progress, sp: Progress, pos: Pos, j: nat, p: Pos) {
    || (p == pos && At(st, p).Unborn?)
    || (p.Parent() == pos && !At(sp, p).Unborn? && (At(st, p) == Carried(j) || At(st, p).LeftBehind?))
  }

  lemma LocalNode(job: Job, s: State, st: Progress, t: State, sp: Progress, j: nat, p: Pos)
    requires |job.secs| >= 1 && Inv(job, s, st) && Local(job, s, st, t, sp, j) && Live(job, p)
    requires p != s.routines[j].pos && p != s.routines[j].pos.Parent()
    ensures NodeOk(job, t, sp, p)
  {
    assert NodeOk(job, s, st, p);
    OnlyThere(job, s, st, p, j);
    if p.height > 0 {
      ChildFacts(p);
    }
    NodeFrame(job, s, st, t, sp, p, j);
  }

  lemma LocalRoutine(job: Job, s: State, st: Progress, t: State, sp: Progress, j: nat, i: nat)
    requires |job.secs| >= 1 && Inv(job, s, st) && Local(job, s, st, t, sp, j) && i != j
    ensures RoutineOk(job, t, sp, i)
  {
    assert RoutineOk(job, s, st, i) && RoutineOk(job, s, st, j);
    LocalOther(job, s, st, t, sp, j, i);
  }

  lemma LocalOther(job: Job, s: State, st: Progress, t: State, sp: Progress, j: nat, i: nat)
    requires |job.secs| >= 1 && RoutineOk(job, s, st, i) && RoutineOk(job, s, st, j) && Local(job, s, st, t, sp, j) && i != j
    ensures RoutineOk(job, t, sp, i)
  {
    RoutineFrame(job, s, st, t, sp, i, j);
  }

  lemma LocalLeaf(job: Job, s: State, st: Progress, t: State, sp: Progress, j: nat, i: nat)
    requires |job.secs| >= 1 && Inv(job, s, st) && Local(job, s, st, t, sp, j) && i != j && i <= job.Last()
    ensures LeafOk(job, t, sp, i)
  {
    assert LeafOk(job, s, st, i) && RoutineOk(job, s, st, j);
    LeafFrame(job, s, st, t, sp, i, j);
  }

  /** A local step keeps the invariant if it does so for its own node, for the node
      above, for the statuses it changed or carries, and for itself. */
  lemma LocalKeeps(job: Job, s: State, st: Progress, t: State, sp: Progress, j: nat)
    requires |job.secs| >= 1 && Inv(job, s, st) && Local(job, s, st, t, sp, j)
    requires forall p :: Live(job, p) && (p == s.routines[j].pos || p == s.routines[j].pos.Parent()) ==> NodeOk(job, t, sp, p)
    requires forall p :: Live(job, p) && (At(sp, p) != At(st, p) || At(st, p) == Carried(j) || t.result != s.result) ==>
               StatusOk(job, t, sp, p)
    requires RoutineOk(job, t, sp, j) && (j <= job.Last() ==> LeafOk(job, t, sp, j))
    ensures Inv(job, t, sp)
  {
    forall p | Live(job, p) ensures FlagsOk(job, t, p) && NodeOk(job, t, sp, p) && StatusOk(job, t, sp, p) {
      assert FlagsOk(job, s, p) && NodeOk(job, s, st, p) && StatusOk(job, s, st, p);
      if p != s.routines[j].pos && p != s.routines[j].pos.Parent() {
        LocalNode(job, s, st, t, sp, j, p);
      }
    }
    forall i: nat ensures RoutineOk(job, t, sp, i) && (i <= job.Last() ==> LeafOk(job, t, sp, i)) {
      if i != j {
        LocalRoutine(job, s, st, t, sp, j, i);
        if i <= job.Last() {
          LocalLeaf(job, s, st, t, sp, j, i);
        }
      }
    }
  }

  /** The node above is not affected while the status of this one stays. */
  lemma LocalParent(job: Job, s: State, st: Progress, t: State, sp: Progress, j: nat)
    requires |job.secs| >= 1 && Inv(job, s, st) && Local(job, s, st, t, sp, j)
    requires At(sp, s.routines[j].pos) == At(st, s.routines[j].pos) && Live(job, s.routines[j].pos.Parent())
    ensures NodeOk(job, t, sp, s.routines[j].pos.Parent())
  {
    var p := s.routines[j].pos.Parent();
    assert NodeOk(job, s, st, p);
    OnlyThere(job, s, st, p, j);
    ChildFacts(p);
    NodeFrame(job, s, st, t, sp, p, j);
  }

  lemma StoreAt(job: Job, s: State, st: Progress, j: nat)
    requires |job.secs| >= 1 && Inv(job, s, st) && RoutineEnabled(s, j) && s.routines[j].pc == Store
    ensures NodeOk(job, RoutineStep(job, s, j), st, s.routines[j].pos)
    ensures Local(job, s, st, RoutineStep(job, s, j), st, j)
  {
    var r := s.routines[j];
    if r.pos.height > 0 {
      Cargo(job, s, st, j);
    } else {
      assert RoutineOk(job, s, st, j) && Live(job, r.pos) && NodeOk(job, s, st, r.pos);
    }
    assert FlagsOk(job, s, r.pos);
    if IsMarked(job, s.main, r.pos) {
      MarkedIsSingle(job, s.main, r.pos);
    }
  }

  lemma StoreSelf(job: Job, s: State, st: Progress, j: nat)
    requires |job.secs| >= 1 && RoutineOk(job, s, st, j) && RoutineEnabled(s, j) && s.routines[j].pc == Store
    ensures RoutineOk(job, RoutineStep(job, s, j), st, j)
    ensures LeafOk(job, s, st, j) ==> LeafOk(job, RoutineStep(job, s, j), st, j)
    ensures forall p :: StatusOk(job, s, st, p) ==> StatusOk(job, RoutineStep(job, s, j), st, p)
  {
  }

  /** Storing a half. */
  lemma StoreKeeps(job: Job, s: State, st: Progress, j: nat)
    requires |job.secs| >= 1 && Inv(job, s, st) && RoutineEnabled(s, j) && s.routines[j].pc == Store
    ensures Inv(job, RoutineStep(job, s, j), st)
  {
    var t := RoutineStep(job, s, j);
    StoreAt(job, s, st, j);
    StoreSelf(job, s, st, j);
    if Live(job, s.routines[j].pos.Parent()) {
      LocalParent(job, s, st, t, st, j);
    }
    LocalKeeps(job, s, st, t, st, j);
  }

  lemma TestAt(job: Job, s: State, st: Progress, j: nat)
    requires |job.secs| >= 1 && Inv(job, s, st) && RoutineEnabled(s, j) && s.routines[j].pc == Test
    ensures NodeOk(job, RoutineStep(job, s, j), st, s.routines[j].pos)
  {
    var r := s.routines[j];
    if r.pos.height > 0 {
      Cargo(job, s, st, j);
    } else {
      assert RoutineOk(job, s, st, j) && Live(job, r.pos) && NodeOk(job, s, st, r.pos);
    }
    Marking(job, s, st, j);
  }

  lemma TestSelf(job: Job, s: State, st: Progress, j: nat)
    requires |job.secs| >= 1 && Inv(job, s, st) && RoutineEnabled(s, j) && s.routines[j].pc == Test
    ensures Local(job, s, st, RoutineStep(job, s, j), st, j)
    ensures RoutineOk(job, RoutineStep(job, s, j), st, j)
  {
    assert RoutineOk(job, s, st, j);
    Marking(job, s, st, j);
  }

  /** Once a half with no partner is on its way, its node is marked. */
  lemma Marking(job: Job, s: State, st: Progress, j: nat)
    requires |job.secs| >= 1 && Inv(job, s, st) && RoutineEnabled(s, j) && s.routines[j].pc != Seal
    ensures Live(job, s.routines[j].pos)
    ensures s.nodes[s.routines[j].pos].unbalanced <==> RightChildless(job, s.routines[j].pos)
    ensures RightChildless(job, s.routines[j].pos) ==>
              s.routines[j].isLeft && s.main.Waiting? && s.nodes[s.routines[j].pos].right == []
  {
    var r := s.routines[j];
    assert RoutineOk(job, s, st, j);
    assert FlagsOk(job, s, r.pos);
    if IsMarked(job, s.main, r.pos) {
      MarkedIsSingle(job, s.main, r.pos);
    }
    if r.pos.height > 0 && RightChildless(job, r.pos) {
      Cargo(job, s, st, j);
      var c := LeftChild(r.pos);
      assert Live(job, c) && StatusOk(job, s, st, c);
    }
  }

  /** Reading the mark. */
  lemma TestKeeps(job: Job, s: State, st: Progress, j: nat)
    requires |job.secs| >= 1 && Inv(job, s, st) && RoutineEnabled(s, j) && s.routines[j].pc == Test
    ensures Inv(job, RoutineStep(job, s, j), st)
  {
    var t := RoutineStep(job, s, j);
    TestAt(job, s, st, j);
    TestSelf(job, s, st, j);
    assert LeafOk(job, t, st, j) by { assert LeafOk(job, s, st, j); }
    if Live(job, s.routines[j].pos.Parent()) {
      LocalParent(job, s, st, t, st, j);
    }
    LocalKeeps(job, s, st, t, st, j);
  }

  /** The statuses after a toggle: the first to come leaves its half behind. */
  function AfterToggle(s: State, st: Progress, j: nat): (sp: Progress)
    requires RoutineEnabled(s, j) && s.routines[j].pos.height > 0
  {
    var r := s.routines[j];
    if Stops(Increment(s.nodes[r.pos].state)) then st[Child(r.pos, r.isLeft) := LeftBehind] else st
  }

  /** The first to count a node up from an even number stops and the second goes on,
      if and only if the number is not negative; from a negative one both go on. */
  lemma Pairing(c: Int32)
    requires c % 2 == 0
    ensures Stops(Up(c, 1)) <==> c >= 0
    ensures !Stops(Up(c, 2))
  {
  }

  /** The next goroutine to count a node stops if it is the first. */
  lemma CountUp(c: Int32, k: nat)
    requires c % 2 == 0 && c >= 0 && k <= 1
    ensures Stops(Increment(Up(c, k))) <==> k == 0
  {
    Pairing(c);
  }

  lemma ToggleAt(job: Job, s: State, st: Progress, j: nat)
    requires |job.secs| >= 1 && Inv(job, s, st) && RoutineEnabled(s, j) && s.routines[j].pc == Toggle
    requires Unworn(job, s.routines[j].pos)
    ensures s.routines[j].pos.height > 0
    ensures NodeOk(job, RoutineStep(job, s, j), AfterToggle(s, st, j), s.routines[j].pos)
  {
    assert RoutineOk(job, s, st, j);
    Cargo(job, s, st, j);
    ToggleNode(job, s, st, j);
  }

  lemma ToggleNode(job: Job, s: State, st: Progress, j: nat)
    requires |job.secs| >= 1 && RoutineEnabled(s, j) && s.routines[j].pc == Toggle && s.routines[j].pos.height > 0
    requires ClimbingOk(job, s, st, j) && NodeOk(job, s, st, s.routines[j].pos)
    requires At(st, Child(s.routines[j].pos, !s.routines[j].isLeft)) != Carried(j) && Unworn(job, s.routines[j].pos)
    ensures NodeOk(job, RoutineStep(job, s, j), AfterToggle(s, st, j), s.routines[j].pos)
  {
    var r, t, sp := s.routines[j], RoutineStep(job, s, j), AfterToggle(s, st, j);
    ChildFacts(r.pos);
    var c, o := Child(r.pos, r.isLeft), Child(r.pos, !r.isLeft);
    assert Stored(s, st, c) && !Toggled(s, st, c) && Toggled(t, sp, c);
    assert At(sp, o) == At(st, o) && Stored(t, sp, o) == Stored(s, st, o) && Toggled(t, sp, o) == Toggled(s, st, o);
    assert Toggled(s, st, o) ==> At(st, o).LeftBehind?;
    assert Stops(t.nodes[r.pos].state) <==> !Toggled(s, st, o) by {
      CountUp(job.tree[r.pos].state, Counted(s, st, o));
    }
    assert PairOk(job, t, sp, r.pos);
  }

  lemma ToggleSelf(job: Job, s: State, st: Progress, j: nat)
    requires |job.secs| >= 1 && Inv(job, s, st) && RoutineEnabled(s, j) && s.routines[j].pc == Toggle
    requires s.routines[j].pos.height > 0
    ensures Local(job, s, st, RoutineStep(job, s, j), AfterToggle(s, st, j), j)
    ensures RoutineOk(job, RoutineStep(job, s, j), AfterToggle(s, st, j), j)
    ensures LeafOk(job, RoutineStep(job, s, j), AfterToggle(s, st, j), j)
  {
    assert RoutineOk(job, s, st, j) && LeafOk(job, s, st, j);
    ToggleLocal(job, s, st, j);
    ToggleOwn(job, s, st, j);
  }

  lemma ToggleLocal(job: Job, s: State, st: Progress, j: nat)
    requires |job.secs| >= 1 && RoutineOk(job, s, st, j) && RoutineEnabled(s, j) && s.routines[j].pc == Toggle
    requires s.routines[j].pos.height > 0
    ensures Local(job, s, st, RoutineStep(job, s, j), AfterToggle(s, st, j), j)
  {
    ChildFacts(s.routines[j].pos);
  }

  lemma ToggleOwn(job: Job, s: State, st: Progress, j: nat)
    requires |job.secs| >= 1 && RoutineOk(job, s, st, j) && LeafOk(job, s, st, j) && RoutineEnabled(s, j)
    requires s.routines[j].pc == Toggle && s.routines[j].pos.height > 0
    ensures RoutineOk(job, RoutineStep(job, s, j), AfterToggle(s, st, j), j)
    ensures LeafOk(job, RoutineStep(job, s, j), AfterToggle(s, st, j), j)
  {
    ChildFacts(s.routines[j].pos);
  }

  lemma ToggleStatus(job: Job, s: State, st: Progress, j: nat, p: Pos)
    requires |job.secs| >= 1 && Inv(job, s, st) && RoutineEnabled(s, j) && s.routines[j].pc == Toggle
    requires s.routines[j].pos.height > 0 && Live(job, p)
    ensures StatusOk(job, RoutineStep(job, s, j), AfterToggle(s, st, j), p)
  {
    var r := s.routines[j];
    assert StatusOk(job, s, st, p) && RoutineOk(job, s, st, j);
    ChildFacts(r.pos);
    if At(st, p) == Carried(j) {
      assert p == Child(r.pos, r.isLeft);
    }
  }

  /** Toggling a node. */
  lemma ToggleKeeps(job: Job, s: State, st: Progress, j: nat)
    requires |job.secs| >= 1 && Inv(job, s, st) && RoutineEnabled(s, j) && s.routines[j].pc == Toggle
    requires Unworn(job, s.routines[j].pos)
    ensures s.routines[j].pos.height > 0
    ensures Inv(job, RoutineStep(job, s, j), AfterToggle(s, st, j))
  {
    var t := RoutineStep(job, s, j);
    ToggleAt(job, s, st, j);
    var sp := AfterToggle(s, st, j);
    ToggleSelf(job, s, st, j);
    forall p | Live(job, p) ensures StatusOk(job, t, sp, p) {
      ToggleStatus(job, s, st, j, p);
    }
    if Live(job, s.routines[j].pos.Parent()) {
      LocalParent(job, s, st, t, sp, j);
    }
    LocalKeeps(job, s, st, t, sp, j);
  }

  // ------------------------------------------------- computing a node's value

  /** Goroutine j is about to compute the value of its node. */
  predicate Computing(s: State, j: nat) {
    RoutineEnabled(s, j) && (s.routines[j].pc == Seal || s.routines[j].pc == Combine)
  }

  function NewValue(job: Job, s: State, j: nat): (v: Bytes)
    requires Computing(s, j)
  {
    var r := s.routines[j];
    if r.pc == Seal then job.base.hash(r.s) else Combined(job.base, s.nodes[r.pos], r)
  }

  /** When a goroutine goes on from a node, both halves are there. */
  lemma Meeting(job: Job, s: State, st: Progress, j: nat)
    requires |job.secs| >= 1 && Inv(job, s, st) && Computing(s, j) && s.routines[j].pos.height > 0
    ensures var r, n := s.routines[j], s.nodes[s.routines[j].pos];
            && Live(job, r.pos) && r.pc == Combine && At(st, r.pos).Unborn?
            && At(st, Child(r.pos, r.isLeft)) == Carried(j)
            && n.left == NodeValue(job, LeftChild(r.pos))
            && (RightChildless(job, r.pos) ==> r.isLeft && n.right == [] && n.unbalanced && s.main.Waiting?)
            && (!RightChildless(job, r.pos) ==>
                  !n.unbalanced && At(st, Child(r.pos, !r.isLeft)).LeftBehind? && n.right == NodeValue(job, RightChild(r.pos)))
            && (r.i > 0 || r.d > 0)
  {
    assert RoutineOk(job, s, st, j);
    Cargo(job, s, st, j);
    Marking(job, s, st, j);
    ChildFacts(s.routines[j].pos);
  }

  /** The top node joins the last path from the right. */
  lemma {:induction false} TopPair(last: nat)
    requires last > 0
    ensures TopHeight(last) > 0 && PathIndex(last, TopHeight(last) - 1) == 1 && PathIndex(last, TopHeight(last)) == 0
  {
    if last > 1 {
      TopPair(last / 2);
      PathIndexShift(last, TopHeight(last / 2) - 1);
      PathIndexShift(last, TopHeight(last / 2));
    }
  }

  lemma TopHasTwo(job: Job)
    requires |job.secs| >= 1 && Top(job) > 0
    ensures Live(job, Pos(Top(job), 0)) && Live(job, RightChild(Pos(Top(job), 0))) && Path(job, Top(job)) == 0
    ensures RightChild(Pos(Top(job), 0)).index == Path(job, Top(job) - 1)
  {
    TopPair(job.Last());
  }

  /** Whoever computes the value of the top does so after the last goroutine started. */
  lemma AtTop(job: Job, s: State, st: Progress, j: nat)
    requires ValidJob(job) && Inv(job, s, st) && Computing(s, j) && s.routines[j].pos.height == Top(job)
    ensures s.main.Waiting? && s.routines[j].pos == Pos(Top(job), 0)
  {
    var p := s.routines[j].pos;
    assert RoutineOk(job, s, st, j);
    if p.height > 0 {
      Meeting(job, s, st, j);
      TopHasTwo(job);
      assert StatusOk(job, s, st, RightChild(p));
    }
  }

  /** A node below the top is not the root, and the top is. */
  lemma RootIsTop(job: Job, s: State, st: Progress, j: nat)
    requires ValidJob(job) && Inv(job, s, st) && Computing(s, j)
    ensures Live(job, s.routines[j].pos)
    ensures s.nodes[s.routines[j].pos].root <==> s.routines[j].pos.height == Top(job)
    ensures s.routines[j].pos.height == Top(job) ==> s.main.Waiting? && s.routines[j].pos == Pos(Top(job), 0)
  {
    var p := s.routines[j].pos;
    assert Live(job, p) by {
      assert RoutineOk(job, s, st, j);
    }
    assert FlagsOk(job, s, p);
    TopIsFirstZero(job.Last(), job.depth);
    if p.height == Top(job) {
      AtTop(job, s, st, j);
    }
  }

  /** The value computed for a node is the value of the node. */
  lemma ValueRight(job: Job, s: State, st: Progress, j: nat)
    requires ValidJob(job) && Inv(job, s, st) && Computing(s, j)
    ensures Live(job, s.routines[j].pos)
    ensures NewValue(job, s, j) == if job.Last() == 0 then RootValue(job) else NodeValue(job, s.routines[j].pos)
  {
    var r := s.routines[j];
    assert RoutineOk(job, s, st, j);
    if r.pos.height > 0 {
      Meeting(job, s, st, j);
      assert RightChildless(job, r.pos) ==> s.nodes[r.pos].left + [] == s.nodes[r.pos].left;
    } else if r.pc == Combine {
      Marking(job, s, st, j);
      assert job.secs[j] + [] == job.secs[j];
    }
  }

  /** The statuses once the value of p is computed: its halves are used up, and the
      value is carried on by j, or is the result. */
  function AfterValue(job: Job, st: Progress, p: Pos, j: nat): (sp: Progress)
    requires |job.secs| >= 1
  {
    var own := if p.height == Top(job) then Used else Carried(j);
    if p.height == 0 then st[p := own]
    else if RightChildless(job, p) then st[LeftChild(p) := Used][p := own]
    else st[LeftChild(p) := Used][RightChild(p) := Used][p := own]
  }

  lemma AfterValueAt(job: Job, st: Progress, p: Pos, j: nat, q: Pos)
    requires |job.secs| >= 1
    ensures At(AfterValue(job, st, p, j), q) ==
            if q == p then (if p.height == Top(job) then Used else Carried(j))
            else if p.height > 0 && (q == LeftChild(p) || (q == RightChild(p) && !RightChildless(job, p))) then Used
            else At(st, q)
  {
  }

  lemma ValueLocal(job: Job, s: State, st: Progress, j: nat)
    requires ValidJob(job) && Inv(job, s, st) && Computing(s, j)
    ensures Local(job, s, st, RoutineStep(job, s, j), AfterValue(job, st, s.routines[j].pos, j), j)
  {
    var r, t, sp := s.routines[j], RoutineStep(job, s, j), AfterValue(job, st, s.routines[j].pos, j);
    RootIsTop(job, s, st, j);
    ValueRight(job, s, st, j);
    assert At(st, r.pos).Unborn? by {
      assert RoutineOk(job, s, st, j);
      if r.pos.height > 0 {
        Meeting(job, s, st, j);
      }
    }
    forall p ensures At(sp, p) == At(st, p) || StatusMoves(st, sp, r.pos, j, p) {
      AfterValueAt(job, st, r.pos, j, p);
      if r.pos.height > 0 {
        ChildFacts(r.pos);
        Meeting(job, s, st, j);
      }
    }
  }

  lemma ValueNode(job: Job, s: State, st: Progress, j: nat)
    requires ValidJob(job) && Inv(job, s, st) && Computing(s, j)
    ensures NodeOk(job, RoutineStep(job, s, j), AfterValue(job, st, s.routines[j].pos, j), s.routines[j].pos)
  {
    var p := s.routines[j].pos;
    RootIsTop(job, s, st, j);
    assert NodeOk(job, s, st, p);
    AfterValueAt(job, st, p, j, p);
    if p.height > 0 {
      Meeting(job, s, st, j);
      AfterValueAt(job, st, p, j, LeftChild(p));
      AfterValueAt(job, st, p, j, RightChild(p));
    }
  }

  /** A half that starts on its way up changes nothing for the node above. */
  lemma HalfStarts(job: Job, s: State, st: Progress, t: State, sp: Progress, c: Pos, j: nat)
    requires |job.secs| >= 1 && Live(job, c.Parent()) && NodeOk(job, s, st, c.Parent()) && SameOthers(s, t, j)
    requires c.Parent() in t.nodes && t.nodes[c.Parent()] == s.nodes[c.Parent()]
    requires HalvesAlone(job, st, st, c.Parent(), j)
    requires At(st, c).Unborn? && At(sp, c) == Carried(j) && j in t.routines && t.routines[j].pc == Store
    requires forall q :: q != c && q.height >= c.height ==> At(sp, q) == At(st, q)
    ensures NodeOk(job, t, sp, c.Parent())
  {
    var q := c.Parent();
    assert c == LeftChild(q) || c == RightChild(q);
    assert At(sp, q) == At(st, q);
    var o := Child(q, !c.IsLeft());
    assert At(sp, o) == At(st, o);
  }

  lemma ValueParent(job: Job, s: State, st: Progress, j: nat)
    requires ValidJob(job) && Inv(job, s, st) && Computing(s, j) && Live(job, s.routines[j].pos.Parent())
    ensures NodeOk(job, RoutineStep(job, s, j), AfterValue(job, st, s.routines[j].pos, j), s.routines[j].pos.Parent())
  {
    var p, t, sp := s.routines[j].pos, RoutineStep(job, s, j), AfterValue(job, st, s.routines[j].pos, j);
    RootIsTop(job, s, st, j);
    assert NodeOk(job, s, st, p.Parent()) && FlagsOk(job, s, p.Parent());
    OnlyThere(job, s, st, p.Parent(), j);
    forall q | q != p && q.height >= p.height ensures At(sp, q) == At(st, q) {
      AfterValueAt(job, st, p, j, q);
    }
    assert At(st, p).Unborn? by {
      assert RoutineOk(job, s, st, j);
      if p.height > 0 {
        Meeting(job, s, st, j);
      }
    }
    AfterValueAt(job, st, p, j, p);
    HalfStarts(job, s, st, t, sp, p, j);
  }

  lemma ValueSelf(job: Job, s: State, st: Progress, j: nat)
    requires ValidJob(job) && Inv(job, s, st) && Computing(s, j)
    ensures RoutineOk(job, RoutineStep(job, s, j), AfterValue(job, st, s.routines[j].pos, j), j)
  {
    var p, t, sp := s.routines[j].pos, RoutineStep(job, s, j), AfterValue(job, st, s.routines[j].pos, j);
    RootIsTop(job, s, st, j);
    ValueRight(job, s, st, j);
    AfterValueAt(job, st, p, j, p);
    assert RoutineOk(job, s, st, j);
    if p.height < Top(job) {
      assert Live(job, p.Parent());
      assert FlagsOk(job, s, p.Parent());
      assert Child(p.Parent(), p.IsLeft()) == p;
    }
  }

  lemma ValueLeaf(job: Job, s: State, st: Progress, j: nat)
    requires ValidJob(job) && Inv(job, s, st) && Computing(s, j) && j <= job.Last()
    ensures LeafOk(job, RoutineStep(job, s, j), AfterValue(job, st, s.routines[j].pos, j), j)
  {
    var p := s.routines[j].pos;
    assert RoutineOk(job, s, st, j) && LeafOk(job, s, st, j);
    AfterValueAt(job, st, p, j, Pos(0, j));
  }

  lemma ValueStatus(job: Job, s: State, st: Progress, j: nat, q: Pos)
    requires ValidJob(job) && Inv(job, s, st) && Computing(s, j) && Live(job, q)
    ensures StatusOk(job, RoutineStep(job, s, j), AfterValue(job, st, s.routines[j].pos, j), q)
  {
    var p := s.routines[j].pos;
    RootIsTop(job, s, st, j);
    AfterValueAt(job, st, p, j, q);
    if q == p {
      assert RoutineOk(job, s, st, j);
      if q.index == Path(job, q.height) {
        ValueWaits(job, s, st, j);
      }
    } else {
      OtherStatus(job, s, st, j, q);
    }
  }

  lemma OtherStatus(job: Job, s: State, st: Progress, j: nat, q: Pos)
    requires ValidJob(job) && Inv(job, s, st) && Computing(s, j) && Live(job, q) && q != s.routines[j].pos
    requires Live(job, s.routines[j].pos)
    ensures StatusOk(job, RoutineStep(job, s, j), AfterValue(job, st, s.routines[j].pos, j), q)
  {
    var p := s.routines[j].pos;
    assert StatusOk(job, s, st, q);
    AfterValueAt(job, st, p, j, q);
    assert q.height == Top(job) ==> p.height < q.height && !s.nodes[p].root by {
      RootIsTop(job, s, st, j);
      TopIsFirstZero(job.Last(), Top(job));
    }
    if p.height > 0 {
      Meeting(job, s, st, j);
      ChildFacts(p);
    } else {
      assert RoutineOk(job, s, st, j);
    }
  }

  /** A value on the last path is computed after the last goroutine started. */
  lemma ValueWaits(job: Job, s: State, st: Progress, j: nat)
    requires ValidJob(job) && Inv(job, s, st) && Computing(s, j)
    requires s.routines[j].pos.index == Path(job, s.routines[j].pos.height)
    ensures s.main.Waiting?
  {
    var p := s.routines[j].pos;
    assert RoutineOk(job, s, st, j);
    if p.height > 0 {
      Meeting(job, s, st, j);
      var c := Pos(p.height - 1, Path(job, p.height - 1));
      assert c == LeftChild(p) || c == RightChild(p);
      assert Live(job, c) && StatusOk(job, s, st, c);
    }
  }

  /** Computing the value of a node. */
  lemma ValueKeeps(job: Job, s: State, st: Progress, j: nat)
    requires ValidJob(job) && Inv(job, s, st) && Computing(s, j)
    ensures Inv(job, RoutineStep(job, s, j), AfterValue(job, st, s.routines[j].pos, j))
  {
    var t, sp := RoutineStep(job, s, j), AfterValue(job, st, s.routines[j].pos, j);
    ValueLocal(job, s, st, j);
    ValueNode(job, s, st, j);
    if Live(job, s.routines[j].pos.Parent()) {
      ValueParent(job, s, st, j);
    }
    forall q | Live(job, q) ensures StatusOk(job, t, sp, q) {
      ValueStatus(job, s, st, j, q);
    }
    ValueSelf(job, s, st, j);
    if j <= job.Last() {
      ValueLeaf(job, s, st, j);
    }
    LocalKeeps(job, s, st, t, sp, j);
  }

  /** Any step of a goroutine keeps the invariant. */
  lemma RoutineKeeps(job: Job, s: State, st: Progress, j: nat) returns (sp: Progress)
    requires ValidJob(job) && Inv(job, s, st) && RoutineEnabled(s, j)
    requires s.routines[j].pc == Toggle ==> Unworn(job, s.routines[j].pos)
    ensures Inv(job, RoutineStep(job, s, j), sp)
  {
    match s.routines[j].pc {
      case Store =>
        StoreKeeps(job, s, st, j);
        sp := st;
      case Test =>
        TestKeeps(job, s, st, j);
        sp := st;
      case Toggle =>
        ToggleKeeps(job, s, st, j);
        sp := AfterToggle(s, st, j);
      case _ =>
        ValueKeeps(job, s, st, j);
        sp := AfterValue(job, st, s.routines[j].pos, j);
    }
  }
}
