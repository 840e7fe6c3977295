/** The steps of the main thread keep the invariant of the concurrent hasher. */
module BmtMain {
  import opened BmtMachine
  import opened BmtInvariant
  import opened BmtProof

  /** A goroutine is started for a leaf. */
  ghost predicate Starts(job: Job, s: State, t: State, j: nat, d: nat)
    requires |job.secs| >= 1
  {
    && j <= job.Last() && t.nodes == s.nodes && t.result == s.result
    && t.routines == s.routines[j := Start(job, j, d)]
    && !Launched(job, s.main, j) && Launched(job, t.main, j)
    && (forall i :: i != j ==> Launched(job, s.main, i) == Launched(job, t.main, i))
    && Marked(job, s.main) == Marked(job, t.main)
    && !s.main.Waiting? && !t.main.Finished?
  }

  /** A leaf that has no goroutine yet is in nobody's way. */
  lemma NotYet(job: Job, s: State, st: Progress, p: Pos, j: nat)
    requires |job.secs| >= 1 && Inv(job, s, st) && Live(job, p) && j <= job.Last() && !Launched(job, s.main, j)
    ensures j !in s.routines && HalvesAlone(job, st, st, p, j) && At(st, p) != Carried(j)
  {
    assert LeafOk(job, s, st, j) && StatusOk(job, s, st, p);
    if p.height > 0 {
      assert Live(job, LeftChild(p)) && StatusOk(job, s, st, LeftChild(p));
      if !RightChildless(job, p) {
        assert Live(job, RightChild(p)) && StatusOk(job, s, st, RightChild(p));
      }
    }
  }

  lemma StartNode(job: Job, s: State, st: Progress, t: State, j: nat, d: nat, p: Pos)
    requires |job.secs| >= 1 && Inv(job, s, st) && Starts(job, s, t, j, d) && Live(job, p)
    ensures FlagsOk(job, t, p) && NodeOk(job, t, st, p) && StatusOk(job, t, st, p)
  {
    assert FlagsOk(job, s, p) && NodeOk(job, s, st, p) && StatusOk(job, s, st, p);
    NotYet(job, s, st, p, j);
    NodeFrame(job, s, st, t, st, p, j);
  }

  lemma StartRoutine(job: Job, s: State, st: Progress, t: State, j: nat, d: nat, i: nat)
    requires |job.secs| >= 1 && Inv(job, s, st) && Starts(job, s, t, j, d) && i != j
    ensures RoutineOk(job, t, st, i) && (i <= job.Last() ==> LeafOk(job, t, st, i))
  {
    assert RoutineOk(job, s, st, i);
    assert i <= job.Last() ==> LeafOk(job, s, st, i);
  }

  lemma StartSelf(job: Job, s: State, st: Progress, t: State, j: nat, d: nat)
    requires ValidJob(job) && Inv(job, s, st) && Starts(job, s, t, j, d)
    requires if j < job.Last() then d > 0 else d == Top(job) - MarkBase(job)
    ensures RoutineOk(job, t, st, j) && LeafOk(job, t, st, j)
  {
    assert LeafOk(job, s, st, j);
    assert Live(job, Pos(0, j)) && FlagsOk(job, s, Pos(0, j));
  }

  lemma StartKeeps(job: Job, s: State, st: Progress, t: State, j: nat, d: nat)
    requires ValidJob(job) && Inv(job, s, st) && Starts(job, s, t, j, d) && MainOk(job, t)
    requires if j < job.Last() then d > 0 else d == Top(job) - MarkBase(job)
    ensures Inv(job, t, st)
  {
    forall p | Live(job, p) ensures FlagsOk(job, t, p) && NodeOk(job, t, st, p) && StatusOk(job, t, st, p) {
      StartNode(job, s, st, t, j, d, p);
    }
    StartSelf(job, s, st, t, j, d);
    forall i: nat ensures RoutineOk(job, t, st, i) && (i <= job.Last() ==> LeafOk(job, t, st, i)) {
      if i != j {
        StartRoutine(job, s, st, t, j, d, i);
      }
    }
  }

  /** A node keeps its part of the invariant while the goroutines stay and its halves,
      as far as they are stored, too. */
  lemma NodeSame(job: Job, s: State, st: Progress, t: State, p: Pos)
    requires |job.secs| >= 1 && NodeOk(job, s, st, p) && t.routines == s.routines && p in t.nodes
    requires t.nodes[p].state == s.nodes[p].state && t.nodes[p].left == s.nodes[p].left
    requires t.nodes[p].right == s.nodes[p].right || RightChildless(job, p) || !Stored(s, st, RightChild(p))
    ensures NodeOk(job, t, st, p)
  {
  }

  lemma FirstMarkOk(job: Job, s: State)
    requires ValidJob(job) && s.result.None?
    ensures MainOk(job, s.(main := FirstMark(job)))
  {
    var last := job.Last();
    assert PathIndex(last, 0) == last && PathIndex(last, 1) == last / 2;
    assert last > 0 ==> TopHeight(last) >= 1;
  }

  lemma WritingKeeps(job: Job, s: State, st: Progress)
    requires ValidJob(job) && Inv(job, s, st) && MainEnabled(job, s) && s.main.Writing?
    ensures Inv(job, MainStep(job, s), st)
  {
    var t := MainStep(job, s);
    if s.main.next < job.Last() {
      StartKeeps(job, s, st, t, s.main.next, job.depth);
    } else {
      FirstMarkOk(job, s);
      forall p | Live(job, p) ensures FlagsOk(job, t, p) && NodeOk(job, t, st, p) && StatusOk(job, t, st, p) {
        assert FlagsOk(job, s, p) && NodeOk(job, s, st, p) && StatusOk(job, s, st, p);
        NodeSame(job, s, st, t, p);
      }
      forall i: nat ensures RoutineOk(job, t, st, i) && (i <= job.Last() ==> LeafOk(job, t, st, i)) {
        assert RoutineOk(job, s, st, i) && (i <= job.Last() ==> LeafOk(job, s, st, i));
      }
    }
  }

  /** Marking one node of the last path. */
  lemma MarkNode(job: Job, s: State, st: Progress, p: Pos)
    requires ValidJob(job) && Inv(job, s, st) && MainEnabled(job, s) && s.main.Finalising? && Live(job, p)
    ensures FlagsOk(job, MainStep(job, s), p) && NodeOk(job, MainStep(job, s), st, p)
    ensures StatusOk(job, MainStep(job, s), st, p)
  {
    assert FlagsOk(job, s, p) && NodeOk(job, s, st, p) && StatusOk(job, s, st, p);
    MarkFlags(job, s, p);
    if p == s.main.pos && !RightChildless(job, p) {
      var c := RightChild(p);
      assert Live(job, c) && StatusOk(job, s, st, c);
    }
    NodeSame(job, s, st, MainStep(job, s), p);
  }

  lemma MarkFlags(job: Job, s: State, p: Pos)
    requires ValidJob(job) && MainOk(job, s) && MainEnabled(job, s) && s.main.Finalising? && Live(job, p) && FlagsOk(job, s, p)
    ensures FlagsOk(job, MainStep(job, s), p)
  {
    TopIsFirstZero(job.Last(), s.main.pos.height);
  }

  lemma MarkRoutine(job: Job, s: State, st: Progress, i: nat)
    requires ValidJob(job) && Inv(job, s, st) && MainEnabled(job, s) && s.main.Finalising?
    ensures RoutineOk(job, MainStep(job, s), st, i) && (i <= job.Last() ==> LeafOk(job, MainStep(job, s), st, i))
  {
    assert RoutineOk(job, s, st, i) && (i <= job.Last() ==> LeafOk(job, s, st, i));
    MarkOther(job, s, st, i);
  }

  lemma MarkOther(job: Job, s: State, st: Progress, i: nat)
    requires |job.secs| >= 1 && MainEnabled(job, s) && s.main.Finalising?
    requires RoutineOk(job, s, st, i) && (i <= job.Last() ==> LeafOk(job, s, st, i))
    ensures RoutineOk(job, MainStep(job, s), st, i) && (i <= job.Last() ==> LeafOk(job, MainStep(job, s), st, i))
  {
  }

  lemma MarkKeeps(job: Job, s: State, st: Progress)
    requires ValidJob(job) && Inv(job, s, st) && MainEnabled(job, s) && s.main.Finalising?
    ensures Inv(job, MainStep(job, s), st)
  {
    var t := MainStep(job, s);
    TopIsFirstZero(job.Last(), s.main.pos.height);
    forall p | Live(job, p) ensures FlagsOk(job, t, p) && NodeOk(job, t, st, p) && StatusOk(job, t, st, p) {
      MarkNode(job, s, st, p);
    }
    forall i: nat ensures RoutineOk(job, t, st, i) && (i <= job.Last() ==> LeafOk(job, t, st, i)) {
      MarkRoutine(job, s, st, i);
    }
  }

  lemma LaunchKeeps(job: Job, s: State, st: Progress)
    requires ValidJob(job) && Inv(job, s, st) && MainEnabled(job, s) && s.main.Launching?
    ensures Inv(job, MainStep(job, s), st)
  {
    StartKeeps(job, s, st, MainStep(job, s), job.Last(), s.main.d);
  }
}
