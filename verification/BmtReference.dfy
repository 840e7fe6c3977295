/** The reference form of the binary Merkle tree hash: a recursive hash over the data,
    split at powers of two of the segment size. */
module BmtReference {
  import opened Wrappers

  type Byte = b: int | 0 <= b < 256
  type Bytes = seq<Byte>

  /** A base hash and the length of its results, which is also the segment size. */
  datatype Base = Base(size: nat, hash: Bytes -> Bytes)

  function Pow2(k: nat): (n: nat)
    ensures n >= 1
  {
    if k == 0 then 1 else 2 * Pow2(k - 1)
  }

  /** The hash of d with a split span of 2^k segments: data of up to two segments is
      hashed at once; a span that covers all the data is halved; else the data is
      split at the span, and a rest of more than one segment is hashed itself. */
  function RefHash(b: Base, d: Bytes, k: nat): (r: Bytes)
    requires b.size >= 1
    decreases |d|, k
  {
    if |d| <= 2 * b.size then b.hash(d)
    else
      var span := b.size * Pow2(k);
      if span >= |d| then RefHash(b, d, k - 1)
      else
        var right := d[span..];
        b.hash(RefHash(b, d[..span], k) + if |right| > b.size then RefHash(b, right, k) else right)
  }

  /** One data leaf of the tree: the hash of a double segment, or a single segment
      as it is. */
  function LeafValue(b: Base, s: Bytes): (r: Bytes) {
    if |s| > b.size then b.hash(s) else s
  }

  /** The value of a subtree of height g over some double segments: a subtree without
      a right half passes its left half on. */
  function SubtreeValue(b: Base, secs: seq<Bytes>, g: nat): (r: Bytes)
    requires 1 <= |secs|
  {
    if g == 0 then LeafValue(b, secs[0])
    else
      var half := Pow2(g - 1);
      if |secs| <= half then SubtreeValue(b, secs, g - 1)
      else b.hash(SubtreeValue(b, secs[..half], g - 1) + SubtreeValue(b, secs[half..], g - 1))
  }

  /** The data cut into double segments; the last one may be shorter, and is the only
      one when there is no data. */
  function Sections(b: Base, d: Bytes): (s: seq<Bytes>)
    requires b.size >= 1
    ensures |s| >= 1
  {
    if |d| <= 2 * b.size then [d] else [d[..2 * b.size]] + Sections(b, d[2 * b.size..])
  }

  /** The length of n double segments. */
  function Width(b: Base, n: nat): (m: nat) {
    if n == 0 then 0 else Width(b, n - 1) + 2 * b.size
  }

  lemma {:induction false} WidthTimes(b: Base, n: nat)
    ensures Width(b, n) == n * (2 * b.size)
  {
    if n > 0 {
      WidthTimes(b, n - 1);
    }
  }

  lemma SectionsTail(b: Base, d: Bytes)
    requires b.size >= 1 && |d| > 2 * b.size
    ensures var s := Sections(b, d);
            |s| >= 2 && s[0] == d[..2 * b.size] && s[1..] == Sections(b, d[2 * b.size..])
  {
  }

  /** Cutting the data after n double segments cuts its sections after n. */
  lemma {:induction false} SectionsSplit(b: Base, d: Bytes, n: nat, m: nat)
    requires b.size >= 1 && 1 <= n && m == Width(b, n) && m < |d|
    ensures |Sections(b, d)| > n
    ensures Sections(b, d)[..n] == Sections(b, d[..m])
    ensures Sections(b, d)[n..] == Sections(b, d[m..])
    decreases n
  {
    var w := 2 * b.size;
    var s, rest, e := Sections(b, d), d[w..], d[..m];
    SectionsTail(b, d);
    if n > 1 {
      SectionsSplit(b, rest, n - 1, m - w);
      SectionsTail(b, e);
      assert e[..w] == d[..w] && e[w..] == rest[..m - w] && rest[m - w..] == d[m..];
      assert s[..n] == [s[0]] + s[1..][..n - 1];
      assert Sections(b, e) == [Sections(b, e)[0]] + Sections(b, e)[1..];
      assert s[n..] == s[1..][n - 1..];
    }
  }

  lemma {:induction false} SectionsFit(b: Base, d: Bytes, n: nat)
    requires b.size >= 1 && 1 <= n && |d| <= Width(b, n)
    ensures |Sections(b, d)| <= n
    decreases n
  {
    if |d| > 2 * b.size {
      SectionsFit(b, d[2 * b.size..], n - 1);
    }
  }

  lemma {:induction false} ShortRest(b: Base, d: Bytes, g: nat)
    requires b.size >= 1 && |d| <= b.size
    ensures SubtreeValue(b, Sections(b, d), g) == d
  {
    if g > 0 {
      ShortRest(b, d, g - 1);
    }
  }

  /** A span that covers the data is as good as half of it. */
  lemma RefHashHalves(b: Base, d: Bytes, g: nat)
    requires b.size >= 1 && g >= 1 && |d| <= b.size * Pow2(g)
    ensures RefHash(b, d, g) == RefHash(b, d, g - 1)
  {
  }

  /** The reference hash is the value of the tree over the double segments. */
  lemma {:induction false} RefHashIsTree(b: Base, d: Bytes, g: nat)
    requires b.size >= 1 && b.size < |d| <= b.size * Pow2(g + 1)
    ensures RefHash(b, d, g) == SubtreeValue(b, Sections(b, d), g)
    decreases |d|, g
  {
    if g > 0 {
      var span, half := b.size * Pow2(g), Pow2(g - 1);
      SpanHalf(b, g);
      if span >= |d| {
        SectionsFit(b, d, half);
        RefHashHalves(b, d, g);
        RefHashIsTree(b, d, g - 1);
      } else {
        SectionsSplit(b, d, half, span);
        RefHashSplit(b, d, g);
        RefPart(b, d[..span], g);
        RefPart(b, d[span..], g);
      }
    }
  }

  lemma SpanHalf(b: Base, g: nat)
    requires g >= 1
    ensures b.size * Pow2(g) == Width(b, Pow2(g - 1)) && b.size * Pow2(g) >= 2 * b.size
    ensures b.size * Pow2(g + 1) == 2 * (b.size * Pow2(g))
  {
    WidthTimes(b, Pow2(g - 1));
  }

  /** One part of a split, hashed or passed on, is the value of its subtree. */
  lemma {:induction false} RefPart(b: Base, d: Bytes, g: nat)
    requires b.size >= 1 && g >= 1 && |d| <= b.size * Pow2(g)
    ensures SubtreeValue(b, Sections(b, d), g - 1) == if |d| > b.size then RefHash(b, d, g) else d
    decreases |d|, g, 0
  {
    if |d| > b.size {
      RefHashHalves(b, d, g);
      RefHashIsTree(b, d, g - 1);
    } else {
      ShortRest(b, d, g - 1);
    }
  }

  lemma RefHashSplit(b: Base, d: Bytes, g: nat)
    requires b.size >= 1 && g >= 1 && b.size * Pow2(g) < |d|
    ensures var span := b.size * Pow2(g);
            var right := d[span..];
            RefHash(b, d, g) == b.hash(RefHash(b, d[..span], g) + if |right| > b.size then RefHash(b, right, g) else right)
    ensures b.size * Pow2(g) >= 2 * b.size
  {
    SpanHalf(b, g);
  }

  /** The reference hasher for data of at most `count` segments. */
  class RefHasher {
    const base: Base
    const span: nat
    const cap: nat
    ghost const k: nat

    ghost predicate Valid() {
      base.size >= 1 && span == base.size * Pow2(k) && cap <= 2 * span
    }

    constructor (base: Base, count: nat)
      requires base.size >= 1
      ensures Valid() && this.base == base && cap == base.size * count
      ensures count >= 3 ==> Pow2(k) < count
    {
      this.base := base;
      var c := 2;
      ghost var j := 1;
      while c < count
        invariant c == Pow2(j) && j >= 1 && (j > 1 ==> Pow2(j - 1) < count)
        decreases count - c
      {
        c, j := c * 2, j + 1;
      }
      if c > 2 {
        c, j := c / 2, j - 1;
      }
      span := c * base.size;
      cap := base.size * count;
      k := j;
      assert count <= 2 * c;
      MulMonotone(base.size, count, 2 * c);
    }

    /** The hash of the data, as far as the capacity goes. */
    method Hash(d: Bytes) returns (r: Bytes)
      requires Valid()
      ensures r == RefHash(base, d[..Min(|d|, cap)], k)
    {
      r := HashSpan(d[..Min(|d|, cap)], span, k);
    }

    method HashSpan(d: Bytes, span0: nat, ghost k0: nat) returns (r: Bytes)
      requires base.size >= 1 && span0 == base.size * Pow2(k0) && |d| <= 2 * span0
      ensures r == RefHash(base, d, k0)
      decreases |d|
    {
      var left, right: Bytes := d, [];
      if |d| > 2 * base.size {
        var s := span0;
        ghost var j := k0;
        while s >= |d|
          invariant s == base.size * Pow2(j) && |d| <= 2 * s
          invariant RefHash(base, d, k0) == RefHash(base, d, j)
          decreases s
        {
          RefHashHalf(base, d, s, j);
          s, j := s / 2, j - 1;
        }
        left := HashSpan(d[..s], s, j);
        right := d[s..];
        if |d| - s > base.size {
          right := HashSpan(right, s, j);
        }
        RefHashCut(base, d, s, j);
      } else {
        assert left + right == d;
      }
      r := base.hash(left + right);
    }
  }

  /** One halving of the span. */
  lemma RefHashHalf(b: Base, d: Bytes, s: nat, j: nat)
    requires b.size >= 1 && s == b.size * Pow2(j) && 2 * b.size < |d| <= s
    ensures j >= 1 && s / 2 == b.size * Pow2(j - 1) && s == 2 * (s / 2) && s / 2 < s
    ensures RefHash(b, d, j) == RefHash(b, d, j - 1)
  {
  }

  lemma RefHashCut(b: Base, d: Bytes, s: nat, j: nat)
    requires b.size >= 1 && s == b.size * Pow2(j) && 2 * b.size < |d| && s < |d|
    ensures var right := d[s..];
            RefHash(b, d, j) == b.hash(RefHash(b, d[..s], j) + if |right| > b.size then RefHash(b, right, j) else right)
  {
  }

  lemma MulMonotone(x: nat, y: nat, z: nat)
    requires y <= z
    ensures x * y <= x * z
  {
  }
}
