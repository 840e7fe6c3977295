/** The value of the concurrent tree is the reference hash. */
module BmtRefinement {
  import opened Wrappers
  import opened BmtReference
  import opened BmtMachine
  import opened BmtInvariant

  /** The first leaf below the node i at height g. */
  function FirstLeaf(i: nat, g: nat): (l: nat)
    decreases g
  {
    if g == 0 then i else FirstLeaf(2 * i, g - 1)
  }

  lemma {:induction false} LeavesBelow(i: nat, g: nat)
    ensures FirstLeaf(i + 1, g) == FirstLeaf(i, g) + Pow2(g)
    decreases g
  {
    if g > 0 {
      LeavesBelow(2 * i, g - 1);
      LeavesBelow(2 * i + 1, g - 1);
    }
  }

  lemma {:induction false} PathAndLeaves(last: nat, i: nat, g: nat)
    ensures i <= PathIndex(last, g) <==> FirstLeaf(i, g) <= last
    decreases g
  {
    if g > 0 {
      PathAndLeaves(last, 2 * i, g - 1);
    }
  }

  /** The double segments below a node. */
  function Below(job: Job, p: Pos): (s: seq<Bytes>)
    requires |job.secs| >= 1 && p.index <= Path(job, p.height)
    ensures |s| >= 1
  {
    PathAndLeaves(job.Last(), p.index, p.height);
    LeavesBelow(p.index, p.height);
    job.secs[FirstLeaf(p.index, p.height)..Min(FirstLeaf(p.index + 1, p.height), |job.secs|)]
  }

  /** The segments below a node are those below its halves. */
  lemma BelowHalves(job: Job, p: Pos)
    requires |job.secs| >= 1 && p.index <= Path(job, p.height) && p.height > 0
    ensures LeftChild(p).index <= Path(job, p.height - 1)
    ensures var a, b, half := LeftChild(p), RightChild(p), Pow2(p.height - 1);
            if b.index <= Path(job, p.height - 1)
            then |Below(job, p)| > half && Below(job, p)[..half] == Below(job, a) && Below(job, p)[half..] == Below(job, b)
            else |Below(job, p)| <= half && Below(job, p) == Below(job, a)
  {
    var i, g := p.index, p.height;
    LeavesBelow(2 * i, g - 1);
    LeavesBelow(2 * i + 1, g - 1);
    PathAndLeaves(job.Last(), 2 * i, g - 1);
    PathAndLeaves(job.Last(), 2 * i + 1, g - 1);
    var lo, mid, hi := FirstLeaf(2 * i, g - 1), FirstLeaf(2 * i + 1, g - 1), FirstLeaf(2 * i + 2, g - 1);
    BelowIs(job, p, lo, hi);
    BelowIs(job, LeftChild(p), lo, mid);
    if RightChild(p).index <= Path(job, g - 1) {
      BelowIs(job, RightChild(p), mid, hi);
      Halves(job.secs, lo, mid, Min(hi, |job.secs|));
    }
  }

  lemma BelowIs(job: Job, p: Pos, lo: nat, hi: nat)
    requires |job.secs| >= 1 && p.index <= Path(job, p.height)
    requires lo == FirstLeaf(p.index, p.height) && hi == FirstLeaf(p.index + 1, p.height)
    ensures lo <= Min(hi, |job.secs|) && Below(job, p) == job.secs[lo..Min(hi, |job.secs|)]
  {
    PathAndLeaves(job.Last(), p.index, p.height);
    LeavesBelow(p.index, p.height);
  }

  lemma Halves(s: seq<Bytes>, lo: nat, mid: nat, hi: nat)
    requires lo <= mid <= hi <= |s|
    ensures s[lo..hi][..mid - lo] == s[lo..mid] && s[lo..hi][mid - lo..] == s[mid..hi]
  {
  }

  lemma {:induction false} NodeIsSubtree(job: Job, p: Pos)
    requires |job.secs| >= 1 && p.index <= Path(job, p.height)
    ensures NodeValue(job, p) == SubtreeValue(job.base, Below(job, p), p.height)
    decreases p.height
  {
    if p.height > 0 {
      var b := RightChild(p);
      BelowHalves(job, p);
      NodeIsSubtree(job, LeftChild(p));
      if b.index <= Path(job, p.height - 1) {
        NodeIsSubtree(job, b);
      }
    }
  }

  /** A taller tree than needed has the same value. */
  lemma {:induction false} TallerTree(b: Base, secs: seq<Bytes>, g: nat, h: nat)
    requires 1 <= |secs| <= Pow2(g) && g <= h
    ensures SubtreeValue(b, secs, h) == SubtreeValue(b, secs, g)
    decreases h
  {
    if g < h {
      PowMonotone(g, h - 1);
      TallerTree(b, secs, g, h - 1);
    }
  }

  lemma {:induction false} PowMonotone(g: nat, h: nat)
    requires g <= h
    ensures Pow2(g) <= Pow2(h)
  {
    if g < h {
      PowMonotone(g, h - 1);
    }
  }

  lemma TopIsSubtree(job: Job)
    requires |job.secs| >= 1
    ensures |job.secs| <= Pow2(Top(job))
    ensures Path(job, Top(job)) == 0 && TopValue(job) == SubtreeValue(job.base, job.secs, Top(job))
  {
    var top := Pos(Top(job), 0);
    TopIsFirstZero(job.Last(), Top(job));
    PathAndLeaves(job.Last(), 1, Top(job));
    PathAndLeaves(job.Last(), 0, Top(job));
    LeavesBelow(0, Top(job));
    FirstOfFirst(Top(job));
    NodeIsSubtree(job, top);
    assert Below(job, top) == job.secs;
  }

  lemma {:induction false} FirstOfFirst(g: nat)
    ensures FirstLeaf(0, g) == 0
  {
    if g > 0 {
      FirstOfFirst(g - 1);
    }
  }

  /** All double segments but the last are full, and the last is not empty unless it
      is the only one. */
  lemma {:induction false} SectionLengths(b: Base, d: Bytes)
    requires b.size >= 1
    ensures var s := Sections(b, d);
            && (forall j :: 0 <= j < |s| - 1 ==> |s[j]| == 2 * b.size)
            && |s[|s| - 1]| <= 2 * b.size && (|s| > 1 ==> |s[|s| - 1]| > 0)
            && (|s| == 1 ==> s[0] == d)
    decreases |d|
  {
    if |d| > 2 * b.size {
      SectionLengths(b, d[2 * b.size..]);
      SectionsTail(b, d);
      var s := Sections(b, d);
      assert forall j :: 0 < j < |s| ==> s[j] == s[1..][j - 1];
    }
  }

  /** Data cut into double segments is a job for every tree that has the leaves. */
  lemma DataIsJob(job: Job, d: Bytes)
    requires job.base.size >= 1 && job.secs == Sections(job.base, d) && PathIndex(|job.secs| - 1, job.depth) == 0
    ensures ValidJob(job)
  {
    SectionLengths(job.base, d);
  }

  /** The tree over the double segments of some data has the reference hash of the
      data, for every span that covers half the data. */
  lemma RootIsReference(job: Job, d: Bytes, k: nat)
    requires job.base.size >= 1 && job.secs == Sections(job.base, d) && |d| <= job.base.size * Pow2(k + 1)
    ensures RootValue(job) == RefHash(job.base, d, k)
  {
    SectionLengths(job.base, d);
    if job.Last() > 0 {
      var b, top := job.base, Top(job);
      TopIsSubtree(job);
      RefHashIsTree(b, d, k);
      SpanHalf(b, k + 1);
      SectionsFit(b, d, Pow2(k));
      if top <= k {
        TallerTree(b, job.secs, top, k);
      } else {
        TallerTree(b, job.secs, k, top);
      }
    }
  }
}
