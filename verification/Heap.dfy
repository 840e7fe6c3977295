/** A binary min-heap kept in a sequence, after Go's `container/heap`, which the
    transaction pool uses for its nonce index and for its price list.
    Elements are ordered by an integer rank; contents are tracked as multisets. */
module Heap {

  predicate InOrder<T>(rank: T -> int, h: seq<T>, k: int) {
    0 < k < |h| ==> rank(h[(k - 1) / 2]) <= rank(h[k])
  }

  /** Every element is at least its parent. */
  ghost predicate IsHeap<T>(rank: T -> int, h: seq<T>) {
    forall k :: InOrder(rank, h, k)
  }

  /** Heap order between every child and its parent at `lo` or beyond. */
  ghost predicate HeapFrom<T>(rank: T -> int, h: seq<T>, lo: nat) {
    forall k {:trigger h[k]} :: 0 < k < |h| && lo <= (k - 1) / 2 ==> rank(h[(k - 1) / 2]) <= rank(h[k])
  }

  lemma HeapEdges<T>(rank: T -> int, h: seq<T>)
    ensures IsHeap(rank, h) <==> HeapFrom(rank, h, 0)
  {
    if IsHeap(rank, h) {
      forall k {:trigger h[k]} | 0 < k < |h| ensures rank(h[(k - 1) / 2]) <= rank(h[k]) {
        assert InOrder(rank, h, k);
      }
    }
  }

  /** As HeapFrom, except that position i may be out of order with its parent and
      its children; the children of i are in order with the parent of i. */
  ghost predicate HeapAround<T>(rank: T -> int, h: seq<T>, lo: nat, i: int) {
    && (forall k {:trigger h[k]} :: 0 < k < |h| && lo <= (k - 1) / 2 && k != i && (k - 1) / 2 != i ==>
                      rank(h[(k - 1) / 2]) <= rank(h[k]))
    && (forall k :: 0 < k < |h| && (k - 1) / 2 == i && 0 < i && lo <= (i - 1) / 2 ==>
                      rank(h[(i - 1) / 2]) <= rank(h[k]))
  }

  /** Position i is in order with its children. */
  ghost predicate OverChildren<T>(rank: T -> int, h: seq<T>, i: int) {
    forall k :: 0 < k < |h| && (k - 1) / 2 == i ==> rank(h[i]) <= rank(h[k])
  }

  function Swap<T>(h: seq<T>, i: nat, j: nat): (r: seq<T>)
    requires i < |h| && j < |h|
    ensures |r| == |h| && multiset(r) == multiset(h)
  {
    h[i := h[j]][j := h[i]]
  }

  lemma {:induction false} RootIsLeast<T>(rank: T -> int, h: seq<T>, k: nat)
    requires IsHeap(rank, h) && k < |h|
    ensures rank(h[0]) <= rank(h[k])
    decreases k
  {
    if k > 0 {
      assert InOrder(rank, h, k);
      RootIsLeast(rank, h, (k - 1) / 2);
    }
  }

  /** Swapping position j with its greater parent moves the disorder up. */
  lemma RiseStep<T>(rank: T -> int, h: seq<T>, j: nat)
    requires 0 < j < |h| && HeapAround(rank, h, 0, j) && OverChildren(rank, h, j)
    requires rank(h[j]) < rank(h[(j - 1) / 2])
    ensures var r := Swap(h, (j - 1) / 2, j);
            HeapAround(rank, r, 0, (j - 1) / 2) && OverChildren(rank, r, (j - 1) / 2)
  {
  }

  method Up<T>(rank: T -> int, h: seq<T>, j: nat) returns (r: seq<T>)
    requires j < |h| && HeapAround(rank, h, 0, j) && OverChildren(rank, h, j)
    ensures IsHeap(rank, r) && multiset(r) == multiset(h)
    decreases j
  {
    if j > 0 && rank(h[j]) < rank(h[(j - 1) / 2]) {
      var p := (j - 1) / 2;
      var s := Swap(h, p, j);
      RiseStep(rank, h, j);
      r := Up(rank, s, p);
    } else {
      r := h;
      HeapEdges(rank, r);
    }
  }

  /** The child of i with the least rank, the left one on a tie. */
  function LeastChild<T>(rank: T -> int, h: seq<T>, i: nat): (j: nat)
    requires 2 * i + 1 < |h|
    ensures i < j < |h| && (j - 1) / 2 == i
    ensures forall k :: 0 < k < |h| && (k - 1) / 2 == i ==> rank(h[j]) <= rank(h[k])
  {
    if 2 * i + 2 < |h| && rank(h[2 * i + 2]) < rank(h[2 * i + 1]) then 2 * i + 2 else 2 * i + 1
  }

  /** Swapping position i with its least child moves the disorder to that child. */
  lemma SinkStep<T>(rank: T -> int, h: seq<T>, lo: nat, i: nat)
    requires lo <= i && 2 * i + 1 < |h| && HeapAround(rank, h, lo, i)
    requires rank(h[LeastChild(rank, h, i)]) <= rank(h[i])
    ensures var j := LeastChild(rank, h, i); var r := Swap(h, i, j);
            HeapAround(rank, r, lo, j) && rank(r[i]) <= rank(r[j]) &&
            (i > 0 && lo <= (i - 1) / 2 ==> rank(r[(i - 1) / 2]) <= rank(r[i]))
  {
  }

  lemma SinkDone<T>(rank: T -> int, h: seq<T>, lo: nat, i: nat)
    requires i < |h| && HeapAround(rank, h, lo, i) && OverChildren(rank, h, i)
    requires i > 0 ==> rank(h[(i - 1) / 2]) <= rank(h[i])
    ensures HeapFrom(rank, h, lo)
  {
  }

  method Down<T>(rank: T -> int, h: seq<T>, lo: nat, i0: nat) returns (r: seq<T>, moved: bool)
    requires lo <= i0 < |h| && HeapAround(rank, h, lo, i0)
    ensures multiset(r) == multiset(h) && |r| == |h|
    ensures moved ==> HeapFrom(rank, r, lo)
    ensures !moved ==> r == h && OverChildren(rank, r, i0)
    decreases |h| - i0
  {
    moved := 2 * i0 + 1 < |h| && rank(h[LeastChild(rank, h, i0)]) < rank(h[i0]);
    r := h;
    if moved {
      var j := LeastChild(rank, h, i0);
      SinkStep(rank, h, lo, i0);
      r := Swap(h, i0, j);
      var s := r;
      var further;
      r, further := Down(rank, s, lo, j);
      if !further {
        SinkDone(rank, s, lo, j);
      }
    }
  }

  method Push<T>(rank: T -> int, h: seq<T>, x: T) returns (r: seq<T>)
    requires IsHeap(rank, h)
    ensures IsHeap(rank, r) && multiset(r) == multiset(h) + multiset{x}
  {
    HeapEdges(rank, h);
    r := Up(rank, h + [x], |h|);
  }

  /** Pop removes an element of least rank. */
  method Pop<T>(rank: T -> int, h: seq<T>) returns (r: seq<T>, x: T)
    requires IsHeap(rank, h) && |h| > 0
    ensures IsHeap(rank, r) && multiset(h) == multiset(r) + multiset{x}
    ensures x == h[0] && forall y :: y in h ==> rank(x) <= rank(y)
  {
    HeapEdges(rank, h);
    var n := |h| - 1;
    r := Swap(h, 0, n);
    assert r == r[..n] + [h[0]];
    x, r := r[n], r[..n];
    if n > 0 {
      var moved;
      r, moved := Down(rank, r, 0, 0);
    }
    HeapEdges(rank, r);
    forall y | y in h ensures rank(x) <= rank(y) {
      var k: nat :| k < |h| && h[k] == y;
      RootIsLeast(rank, h, k);
    }
  }

  method Remove<T>(rank: T -> int, h: seq<T>, i: nat) returns (r: seq<T>)
    requires IsHeap(rank, h) && i < |h|
    ensures IsHeap(rank, r) && multiset(h) == multiset(r) + multiset{h[i]}
  {
    HeapEdges(rank, h);
    var n := |h| - 1;
    r := Swap(h, i, n);
    assert r == r[..n] + [h[i]];
    r := r[..n];
    if n != i {
      assert HeapAround(rank, r, 0, i);
      var moved;
      r, moved := Down(rank, r, 0, i);
      if !moved {
        r := Up(rank, r, i);
      }
    }
    HeapEdges(rank, r);
  }

  method Init<T>(rank: T -> int, h: seq<T>) returns (r: seq<T>)
    ensures IsHeap(rank, r) && multiset(r) == multiset(h)
  {
    r := h;
    var i := |h| / 2;
    while i > 0
      invariant 0 <= i <= |h| / 2 && |r| == |h| && multiset(r) == multiset(h)
      invariant HeapFrom(rank, r, i)
    {
      i := i - 1;
      var moved;
      r, moved := Down(rank, r, i, i);
    }
    HeapEdges(rank, r);
  }

  ghost predicate SortedBy<T>(rank: T -> int, s: seq<T>) {
    forall i, j :: 0 <= i < j < |s| ==> rank(s[i]) <= rank(s[j])
  }

  function Inserted<T>(rank: T -> int, s: seq<T>, x: T): (r: seq<T>)
    requires SortedBy(rank, s)
    ensures SortedBy(rank, r) && multiset(r) == multiset(s) + multiset{x}
    ensures forall i :: 0 <= i < |r| ==> r[i] == x || r[i] in s
  {
    if s == [] || rank(s[|s| - 1]) <= rank(x) then s + [x]
    else
      var l := |s| - 1;
      assert s == s[..l] + [s[l]];
      var front := Inserted(rank, s[..l], x);
      assert forall i :: 0 <= i < |front| ==> rank(front[i]) <= rank(s[l]);
      front + [s[l]]
  }

  /** `sort.Sort`: an ascending permutation. */
  method Sort<T>(rank: T -> int, s: seq<T>) returns (r: seq<T>)
    ensures SortedBy(rank, r) && multiset(r) == multiset(s)
  {
    r := [];
    for i := 0 to |s|
      invariant SortedBy(rank, r) && multiset(r) == multiset(s[..i])
    {
      assert s[..i + 1] == s[..i] + [s[i]];
      r := Inserted(rank, r, s[i]);
    }
    assert s[..|s|] == s;
  }
}
