/** The election of validators and miners: sampling by weight, and filling up from the
    rest. Weights are real numbers and the random draws are given. */
module Election {
  import opened Wrappers

  type NodeId = nat

  /** A node with its weight, or with its share of the sum of the weights. */
  datatype Weighted = Weighted(id: NodeId, value: real)

  /** An elected node with its number of votes. */
  datatype Elected = Elected(id: NodeId, votes: int)

  // ---------------------------------------------------------------- weights

  function Total(w: seq<Weighted>): (t: real) {
    if w == [] then 0.0 else Total(w[..|w| - 1]) + w[|w| - 1].value
  }

  predicate Positive(w: seq<Weighted>) {
    forall i :: 0 <= i < |w| ==> w[i].value > 0.0
  }

  predicate Distinct(w: seq<Weighted>) {
    forall i, j :: 0 <= i < j < |w| ==> w[i].id != w[j].id
  }

  function Ids(w: seq<Weighted>): (s: set<NodeId>) { set i | 0 <= i < |w| :: w[i].id }

  lemma {:induction false} TotalPositive(w: seq<Weighted>)
    requires Positive(w)
    ensures Total(w) >= 0.0 && (w != [] ==> Total(w) > 0.0)
  {
    if w != [] {
      TotalPositive(w[..|w| - 1]);
    }
  }

  /** Each weight over a sum. */
  function Scaled(w: seq<Weighted>, t: real): (r: seq<Weighted>)
    requires t != 0.0
  {
    seq(|w|, i requires 0 <= i < |w| => Weighted(w[i].id, w[i].value / t))
  }

  lemma {:induction false} ScaledTotal(w: seq<Weighted>, t: real)
    requires t != 0.0
    ensures Total(Scaled(w, t)) == Total(w) / t
  {
    if w != [] {
      var init := w[..|w| - 1];
      ScaledTotal(init, t);
      assert Scaled(w, t)[..|w| - 1] == Scaled(init, t);
    }
  }

  /** The weights as shares of their sum. */
  function Shares(w: seq<Weighted>): (r: seq<Weighted>) {
    if w == [] || Total(w) == 0.0 then [] else Scaled(w, Total(w))
  }

  /** The weights as shares: same nodes in the same order, positive, with sum one. */
  method Normalize(w: seq<Weighted>) returns (r: seq<Weighted>)
    requires Positive(w)
    ensures r == Shares(w) && Positive(r) && (w != [] ==> Total(r) == 1.0)
    ensures |r| == |w| && forall i :: 0 <= i < |w| ==> r[i].id == w[i].id
  {
    var total, i := 0.0, 0;
    while i < |w|
      invariant 0 <= i <= |w| && total == Total(w[..i])
    {
      assert w[..i + 1][..i] == w[..i];
      total := total + w[i].value;
      i := i + 1;
    }
    assert w[..i] == w;
    r := [];
    TotalPositive(w);
    i := 0;
    while i < |w|
      invariant 0 <= i <= |w| && (w != [] ==> r == Scaled(w[..i], total))
      invariant w == [] ==> r == []
    {
      r := r + [Weighted(w[i].id, w[i].value / total)];
      i := i + 1;
    }
    assert w[..i] == w;
    if w != [] {
      ScaledTotal(w, total);
      ScaledPositive(w, total);
    }
  }

  lemma ScaledPositive(w: seq<Weighted>, t: real)
    requires t > 0.0 && Positive(w)
    ensures Positive(Scaled(w, t)) && t / t == 1.0
  {
    forall i | 0 <= i < |w| ensures w[i].value / t > 0.0 {
      PositiveQuotient(w[i].value, t);
    }
  }

  lemma PositiveQuotient(x: real, t: real)
    requires x > 0.0 && t > 0.0
    ensures x / t > 0.0
  {
  }

  /** The share of the unit interval that node k has. */
  predicate FallsIn(prob: seq<Weighted>, draw: real, k: nat)
    requires k < |prob|
  {
    Total(prob[..k]) <= draw < Total(prob[..k + 1])
  }

  /** The position a draw falls on, among the first n; the first one for a draw beyond. */
  function Drawn(prob: seq<Weighted>, draw: real, n: nat): (k: nat)
    requires n <= |prob|
    ensures k < n || k == 0
  {
    if n == 0 then 0
    else if draw < Total(prob[..n - 1]) then Drawn(prob, draw, n - 1)
    else if draw < Total(prob[..n]) then n - 1 else 0
  }

  lemma {:induction false} TotalMonotone(prob: seq<Weighted>, i: nat, j: nat)
    requires Positive(prob) && i <= j <= |prob|
    ensures Total(prob[..i]) <= Total(prob[..j])
  {
    if i < j {
      TotalMonotone(prob, i, j - 1);
      assert prob[..j][..j - 1] == prob[..j - 1];
    }
  }

  lemma {:induction false} DrawnIs(prob: seq<Weighted>, draw: real, k: nat, n: nat)
    requires Positive(prob) && k < n <= |prob| && FallsIn(prob, draw, k)
    ensures Drawn(prob, draw, n) == k
  {
    if k < n - 1 {
      TotalMonotone(prob, k + 1, n - 1);
      DrawnIs(prob, draw, k, n - 1);
    }
  }

  /** One draw: the node in whose share of the unit interval the draw falls; the first node
      for a draw beyond all shares. */
  method Sample(prob: seq<Weighted>, draw: real) returns (id: NodeId)
    requires prob != [] && Positive(prob) && 0.0 <= draw
    ensures id == prob[Drawn(prob, draw, |prob|)].id
    ensures draw < Total(prob) ==> FallsIn(prob, draw, Drawn(prob, draw, |prob|))
  {
    var rand, i := draw, 0;
    while i < |prob|
      invariant 0 <= i <= |prob| && rand == draw - Total(prob[..i]) >= 0.0
    {
      assert prob[..i + 1][..i] == prob[..i];
      rand := rand - prob[i].value;
      if rand < 0.0 {
        DrawnIs(prob, draw, i, |prob|);
        return prob[i].id;
      }
      i := i + 1;
    }
    assert prob[..i] == prob;
    TotalMonotone(prob, |prob| - 1, |prob|);
    id := prob[0].id;
  }

  // ----------------------------------------------------- choosing from a list

  /** The nodes in a set of ids, in order, with votes; and the others, with none. */
  function Chosen(w: seq<Weighted>, votes: map<NodeId, int>): (r: seq<Elected>) {
    if w == [] then []
    else Chosen(w[..|w| - 1], votes) + if w[|w| - 1].id in votes then [Elected(w[|w| - 1].id, votes[w[|w| - 1].id])] else []
  }

  function Others(w: seq<Weighted>, votes: map<NodeId, int>): (r: seq<NodeId>) {
    if w == [] then []
    else Others(w[..|w| - 1], votes) + if w[|w| - 1].id in votes then [] else [w[|w| - 1].id]
  }

  function Count(s: seq<NodeId>, id: NodeId): (n: nat) {
    if s == [] then 0 else Count(s[..|s| - 1], id) + if s[|s| - 1] == id then 1 else 0
  }

  function IdsOf(e: seq<Elected>): (s: seq<NodeId>) { seq(|e|, i requires 0 <= i < |e| => e[i].id) }

  function NodesOf(w: seq<Weighted>): (s: seq<NodeId>) { seq(|w|, i requires 0 <= i < |w| => w[i].id) }

  lemma {:induction false} CountAppend(a: seq<NodeId>, b: seq<NodeId>, id: NodeId)
    ensures Count(a + b, id) == Count(a, id) + Count(b, id)
  {
    if b == [] {
      assert a + b == a;
    } else {
      assert (a + b)[..|a + b| - 1] == a + b[..|b| - 1];
      CountAppend(a, b[..|b| - 1], id);
    }
  }

  /** The chosen and the others are all the nodes, each as often as it was there. */
  lemma {:induction false} Partition(w: seq<Weighted>, votes: map<NodeId, int>, id: NodeId)
    ensures |Chosen(w, votes)| + |Others(w, votes)| == |w|
    ensures Count(IdsOf(Chosen(w, votes)) + Others(w, votes), id) == Count(NodesOf(w), id)
  {
    if w != [] {
      var init, x := w[..|w| - 1], w[|w| - 1].id;
      Partition(init, votes, id);
      assert NodesOf(w) == NodesOf(init) + [x];
      CountAppend(NodesOf(init), [x], id);
      CountAppend(IdsOf(Chosen(init, votes)), Others(init, votes), id);
      CountAppend(IdsOf(Chosen(w, votes)), Others(w, votes), id);
      if x in votes {
        assert IdsOf(Chosen(w, votes)) == IdsOf(Chosen(init, votes)) + [x] && Others(w, votes) == Others(init, votes);
        CountAppend(IdsOf(Chosen(init, votes)), [x], id);
      } else {
        assert Chosen(w, votes) == Chosen(init, votes);
        CountAppend(Others(init, votes), [x], id);
      }
    }
  }

  lemma IdsGrow(w: seq<Weighted>)
    requires w != []
    ensures Ids(w) == Ids(w[..|w| - 1]) + {w[|w| - 1].id}
    ensures Distinct(w) ==> Distinct(w[..|w| - 1]) && w[|w| - 1].id !in Ids(w[..|w| - 1])
  {
    var init := w[..|w| - 1];
    forall x | x in Ids(w) ensures x in Ids(init) + {w[|w| - 1].id} {
      var i :| 0 <= i < |w| && w[i].id == x;
      assert i < |init| ==> init[i].id == x;
    }
    forall x | x in Ids(init) ensures x in Ids(w) {
      var i :| 0 <= i < |init| && init[i].id == x;
      assert w[i].id == x;
    }
  }

  lemma CommonGrows(s: set<NodeId>, a: set<NodeId>, x: NodeId)
    requires x !in a
    ensures |s * (a + {x})| == |s * a| + if x in s then 1 else 0
  {
    if x in s {
      assert s * (a + {x}) == s * a + {x};
    } else {
      assert s * (a + {x}) == s * a;
    }
  }

  /** As many are chosen as there are ids of the list. */
  lemma {:induction false} ChosenSize(w: seq<Weighted>, votes: map<NodeId, int>)
    requires Distinct(w)
    ensures |Chosen(w, votes)| == |votes.Keys * Ids(w)|
  {
    if w == [] {
      assert votes.Keys * Ids(w) == {};
    } else {
      var init, x := w[..|w| - 1], w[|w| - 1].id;
      IdsGrow(w);
      ChosenSize(init, votes);
      CommonGrows(votes.Keys, Ids(init), x);
    }
  }

  // ----------------------------------------------------------------- sampling

  /** The votes after n draws, of which those after enough different nodes do not count. */
  function Tally(prob: seq<Weighted>, draws: nat -> real, want: nat, n: nat): (votes: map<NodeId, int>)
    requires prob != []
  {
    if n == 0 then map[]
    else
      var v, id := Tally(prob, draws, want, n - 1), prob[Drawn(prob, draws(n - 1), |prob|)].id;
      if |v| == want then v else v[id := (if id in v then v[id] else 0) + 1]
  }

  lemma {:induction false} TallyBounds(prob: seq<Weighted>, draws: nat -> real, want: nat, n: nat)
    requires prob != [] && want >= 1
    ensures Tally(prob, draws, want, n).Keys <= Ids(prob) && |Tally(prob, draws, want, n)| <= want
  {
    if n > 0 {
      TallyBounds(prob, draws, want, n - 1);
      var v, id := Tally(prob, draws, want, n - 1), prob[Drawn(prob, draws(n - 1), |prob|)].id;
      assert id in Ids(prob);
      assert v[id := 1].Keys == v.Keys + {id};
      assert |v[id := (if id in v then v[id] else 0) + 1]| == |v.Keys + {id}|;
    }
  }

  lemma {:induction false} TallyStops(prob: seq<Weighted>, draws: nat -> real, want: nat, i: nat, n: nat)
    requires prob != [] && i <= n && |Tally(prob, draws, want, i)| == want
    ensures Tally(prob, draws, want, n) == Tally(prob, draws, want, i)
  {
    if i < n {
      TallyStops(prob, draws, want, i, n - 1);
    }
  }

  lemma TallyNext(prob: seq<Weighted>, draws: nat -> real, want: nat, i: nat)
    requires prob != [] && |Tally(prob, draws, want, i)| != want
    ensures var v, id := Tally(prob, draws, want, i), prob[Drawn(prob, draws(i), |prob|)].id;
            Tally(prob, draws, want, i + 1) == v[id := (if id in v then v[id] else 0) + 1]
  {
  }

  /** The draw goes to node k: it falls in its share, or beyond all shares and k is the first. */
  predicate GoesTo(prob: seq<Weighted>, draw: real, k: nat)
    requires k < |prob|
  {
    FallsIn(prob, draw, k) || (k == 0 && draw >= Total(prob))
  }

  lemma {:induction false} DrawnFalls(prob: seq<Weighted>, draw: real, n: nat)
    requires n <= |prob| && 0.0 <= draw < Total(prob[..n])
    ensures n > 0 && Drawn(prob, draw, n) < n && FallsIn(prob, draw, Drawn(prob, draw, n))
  {
    if n > 0 && draw < Total(prob[..n - 1]) {
      DrawnFalls(prob, draw, n - 1);
    }
  }

  lemma GoesToDrawn(prob: seq<Weighted>, draw: real, k: nat)
    requires Positive(prob) && 0.0 <= draw && k < |prob|
    ensures GoesTo(prob, draw, k) <==> k == Drawn(prob, draw, |prob|)
  {
    assert prob[..|prob|] == prob;
    if draw < Total(prob) {
      DrawnFalls(prob, draw, |prob|);
    } else {
      TotalMonotone(prob, |prob| - 1, |prob|);
    }
    if FallsIn(prob, draw, k) {
      DrawnIs(prob, draw, k, |prob|);
    }
  }

  /** The draw goes to this node. */
  ghost predicate WonBy(prob: seq<Weighted>, draw: real, id: NodeId) {
    exists k :: 0 <= k < |prob| && prob[k].id == id && GoesTo(prob, draw, k)
  }

  lemma WonByDrawn(prob: seq<Weighted>, draw: real, id: NodeId)
    requires prob != [] && Positive(prob) && 0.0 <= draw
    ensures WonBy(prob, draw, id) <==> prob[Drawn(prob, draw, |prob|)].id == id
  {
    var d := Drawn(prob, draw, |prob|);
    GoesToDrawn(prob, draw, d);
    if WonBy(prob, draw, id) {
      var k :| 0 <= k < |prob| && prob[k].id == id && GoesTo(prob, draw, k);
      GoesToDrawn(prob, draw, k);
    }
  }

  /** Those of the first m draws that go to a node. */
  ghost function DrawsFor(prob: seq<Weighted>, draws: nat -> real, m: nat, id: NodeId): (s: set<nat>) {
    set i: nat | i < m && WonBy(prob, draws(i), id)
  }

  /** The votes of the first m draws: a node has votes exactly if one of them goes to it, and as
      many as go to it. */
  ghost predicate Counts(prob: seq<Weighted>, draws: nat -> real, m: nat, votes: map<NodeId, int>) {
    forall id: NodeId :: CountsFor(prob, draws, m, votes, id)
  }

  ghost predicate CountsFor(prob: seq<Weighted>, draws: nat -> real, m: nat, votes: map<NodeId, int>, id: NodeId) {
    var mine := DrawsFor(prob, draws, m, id);
    (id in votes <==> mine != {}) && (id in votes ==> votes[id] == |mine|)
  }

  ghost predicate Nonnegative(draws: nat -> real) { forall i :: 0.0 <= draws(i) }

  lemma DrawsForNext(prob: seq<Weighted>, draws: nat -> real, m: nat, id: NodeId)
    ensures DrawsFor(prob, draws, m + 1, id) == DrawsFor(prob, draws, m, id) + (if WonBy(prob, draws(m), id) then {m} else {})
    ensures |DrawsFor(prob, draws, m + 1, id)| == |DrawsFor(prob, draws, m, id)| + if WonBy(prob, draws(m), id) then 1 else 0
  {
    assert DrawsFor(prob, draws, m + 1, id) == DrawsFor(prob, draws, m, id) + if WonBy(prob, draws(m), id) then {m} else {};
  }

  /** One more draw. */
  lemma CountsNext(prob: seq<Weighted>, draws: nat -> real, m: nat, votes: map<NodeId, int>)
    requires prob != [] && Positive(prob) && Nonnegative(draws) && Counts(prob, draws, m, votes)
    ensures var x := prob[Drawn(prob, draws(m), |prob|)].id;
            Counts(prob, draws, m + 1, votes[x := (if x in votes then votes[x] else 0) + 1])
  {
    var x := prob[Drawn(prob, draws(m), |prob|)].id;
    var more := votes[x := (if x in votes then votes[x] else 0) + 1];
    var n := m + 1;
    forall id: NodeId ensures CountsFor(prob, draws, n, more, id) {
      assert CountsFor(prob, draws, m, votes, id);
      WonByDrawn(prob, draws(m), id);
      DrawsForNext(prob, draws, m, id);
    }
  }

  /** Of the first j draws, which are not enough, all count. */
  ghost predicate AllCount(prob: seq<Weighted>, draws: nat -> real, want: nat, j: nat)
    requires prob != []
  {
    Counts(prob, draws, j, Tally(prob, draws, want, j)) && |Tally(prob, draws, want, j)| != want
  }

  /** The tally is of the first m draws: all of them, or those up to the first after which enough
      different nodes have votes. */
  lemma {:induction false} TallyIs(prob: seq<Weighted>, draws: nat -> real, want: nat, n: nat) returns (m: nat)
    requires prob != [] && Positive(prob) && Nonnegative(draws)
    ensures m <= n && Counts(prob, draws, m, Tally(prob, draws, want, n))
    ensures m < n ==> |Tally(prob, draws, want, n)| == want
    ensures forall j :: 0 <= j < m ==> AllCount(prob, draws, want, j)
  {
    if n == 0 {
      m := 0;
      forall id: NodeId ensures CountsFor(prob, draws, 0, map[], id) {
        assert DrawsFor(prob, draws, 0, id) == {};
      }
    } else {
      m := TallyIs(prob, draws, want, n - 1);
      if |Tally(prob, draws, want, n - 1)| != want {
        CountsNext(prob, draws, m, Tally(prob, draws, want, n - 1));
        m := n;
      }
    }
  }

  /** Draws until enough different nodes have been drawn, or too many draws were made. */
  method DrawVotes(prob: seq<Weighted>, draws: nat -> real, want: nat, maxSample: nat) returns (votes: map<NodeId, int>)
    requires prob != [] && Positive(prob) && want >= 1 && forall i :: 0.0 <= draws(i)
    ensures votes == Tally(prob, draws, want, maxSample)
  {
    votes := map[];
    var i := 0;
    while i < maxSample
      invariant 0 <= i <= maxSample && votes == Tally(prob, draws, want, i) && |votes| != want
    {
      var node := Sample(prob, draws(i));
      TallyNext(prob, draws, want, i);
      votes := if node in votes then votes[node := votes[node] + 1] else votes[node := 1];
      i := i + 1;
      if |votes| == want {
        TallyStops(prob, draws, want, i, maxSample);
        return;
      }
    }
  }

  /** Everyone, with votes in percent. */
  function Everyone(prob: seq<Weighted>): (r: seq<Elected>) {
    seq(|prob|, i requires 0 <= i < |prob| => Elected(prob[i].id, (100.0 * prob[i].value).Floor))
  }

  /** Nodes without votes. */
  function Voteless(ids: seq<NodeId>, votes: int): (r: seq<Elected>) {
    seq(|ids|, i requires 0 <= i < |ids| => Elected(ids[i], votes))
  }

  method Separate(prob: seq<Weighted>, votes: map<NodeId, int>) returns (chosen: seq<Elected>, others: seq<NodeId>)
    ensures chosen == Chosen(prob, votes) && others == Others(prob, votes)
  {
    chosen, others := [], [];
    var i := 0;
    while i < |prob|
      invariant 0 <= i <= |prob| && chosen == Chosen(prob[..i], votes) && others == Others(prob[..i], votes)
    {
      assert prob[..i + 1][..i] == prob[..i];
      if prob[i].id in votes {
        chosen := chosen + [Elected(prob[i].id, votes[prob[i].id])];
      } else {
        others := others + [prob[i].id];
      }
      i := i + 1;
    }
    assert prob[..i] == prob;
  }

  /** A subset of the nodes of a list without repetition is not chosen more than once each. */
  lemma ChosenAtMost(prob: seq<Weighted>, votes: map<NodeId, int>)
    requires Distinct(prob) && votes.Keys <= Ids(prob)
    ensures |Chosen(prob, votes)| == |votes|
  {
    ChosenSize(prob, votes);
    assert votes.Keys * Ids(prob) == votes.Keys;
  }

  lemma VotelessIds(ids: seq<NodeId>, votes: int)
    ensures IdsOf(Voteless(ids, votes)) == ids
  {
  }

  method OneVoteEach(e: seq<Elected>) returns (r: seq<Elected>)
    ensures r == Voteless(IdsOf(e), 1) && IdsOf(r) == IdsOf(e)
  {
    r := e;
    var i := 0;
    while i < |r|
      invariant 0 <= i <= |r| == |e| && (forall k :: 0 <= k < i ==> r[k] == Elected(e[k].id, 1)) && (forall k :: i <= k < |e| ==> r[k] == e[k])
    {
      r := r[i := Elected(r[i].id, 1)];
      i := i + 1;
    }
    VotelessIds(IdsOf(e), 1);
  }

  // --------------------------------------------------------------- validators

  /** The nodes in the order in which they are elected: all, if they are few; else those
      drawn and then the others, each in the order of the list. */
  function Ranking(prob: seq<Weighted>, draws: nat -> real, want: nat, maxSample: nat): (r: seq<Elected>) {
    if |prob| <= want then Everyone(prob)
    else
      var votes := Tally(prob, draws, want, maxSample);
      Chosen(prob, votes) + Voteless(Others(prob, votes), 1)
  }

  /** Every node is ranked as often as it is in the list. */
  lemma RankingCounts(prob: seq<Weighted>, draws: nat -> real, want: nat, maxSample: nat, id: NodeId)
    ensures |Ranking(prob, draws, want, maxSample)| == |prob|
    ensures Count(IdsOf(Ranking(prob, draws, want, maxSample)), id) == Count(NodesOf(prob), id)
  {
    if |prob| <= want {
      assert IdsOf(Everyone(prob)) == NodesOf(prob);
    } else {
      var votes := Tally(prob, draws, want, maxSample);
      Partition(prob, votes, id);
      IdsJoin(Chosen(prob, votes), Others(prob, votes), 1);
    }
  }

  method SampleValidators(prob: seq<Weighted>, draws: nat -> real, want: nat, maxSample: nat)
    returns (principals: seq<Elected>, remaining: seq<NodeId>)
    requires Distinct(prob) && Positive(prob) && want >= 1 && forall i :: 0.0 <= draws(i)
    ensures |principals| <= want
    ensures principals + Voteless(remaining, 1) == Ranking(prob, draws, want, maxSample)
  {
    if |prob| <= want {
      principals, remaining := Everyone(prob), [];
      assert principals + Voteless(remaining, 1) == principals;
      return;
    }
    var votes := DrawVotes(prob, draws, want, maxSample);
    principals, remaining := Separate(prob, votes);
    TallyBounds(prob, draws, want, maxSample);
    ChosenAtMost(prob, votes);
  }

  /** The validators: the ranking cut in as many principals as wanted, as many backups as
      wanted, as far as there are nodes, and the rest; so every node is in exactly one. */
  method SelectValidators(w: seq<Weighted>, draws: nat -> real, m: int, p: nat, j: int, maxSample: nat)
    returns (principals: seq<Elected>, backups: seq<Elected>, rest: seq<Elected>)
    requires Positive(w) && Distinct(w) && m - j >= 1 && forall i :: 0.0 <= draws(i)
    ensures |principals| == Min(m - j, |w|) && |backups| == Min(p, |w| - |principals|)
    ensures principals + backups + rest == Ranking(Shares(w), draws, m - j, maxSample)
  {
    var prob := Normalize(w);
    SameNodes(w, prob, map[]);
    principals, backups, rest := CutRanking(prob, draws, m - j, p, maxSample);
  }

  /** Every node is in exactly one of the three lists, as often as it was a candidate. */
  lemma ValidatorsPartition(w: seq<Weighted>, draws: nat -> real, want: nat, maxSample: nat, id: NodeId)
    requires Positive(w)
    ensures Count(IdsOf(Ranking(Shares(w), draws, want, maxSample)), id) == Count(NodesOf(w), id)
  {
    TotalPositive(w);
    RankingCounts(Shares(w), draws, want, maxSample, id);
    assert NodesOf(Shares(w)) == NodesOf(w);
  }

  method CutRanking(prob: seq<Weighted>, draws: nat -> real, want: nat, p: nat, maxSample: nat)
    returns (principals: seq<Elected>, backups: seq<Elected>, rest: seq<Elected>)
    requires Positive(prob) && Distinct(prob) && want >= 1 && forall i :: 0.0 <= draws(i)
    ensures |principals| == Min(want, |prob|) && |backups| == Min(p, |prob| - |principals|)
    ensures principals + backups + rest == Ranking(prob, draws, want, maxSample)
  {
    var remaining;
    principals, remaining := SampleValidators(prob, draws, want, maxSample);
    VotelessIds(remaining, 0);
    rest := OneVoteEach(Voteless(remaining, 0));
    RankingCounts(prob, draws, want, maxSample, 0);
    assert |principals| + |rest| == |prob| by {
      assert |principals + rest| == |prob|;
    }
    principals, backups, rest := FillBoth(principals, rest, want, p);
  }

  /** Fill up the principals, then the backups. */
  method FillBoth(first: seq<Elected>, later: seq<Elected>, want: nat, p: nat)
    returns (principals: seq<Elected>, backups: seq<Elected>, rest: seq<Elected>)
    requires |first| <= want
    ensures principals + backups + rest == first + later
    ensures |principals| == Min(want, |first| + |later|) && |backups| == Min(p, |first| + |later| - |principals|)
  {
    principals, rest := FillUp(first, later, want);
    ghost var left := rest;
    backups, rest := FillUp([], rest, p);
    assert [] + left == left;
    assert principals + backups + rest == principals + (backups + rest);
  }

  lemma IdsJoin(e: seq<Elected>, ids: seq<NodeId>, votes: int)
    ensures IdsOf(e + Voteless(ids, votes)) == IdsOf(e) + ids
  {
  }

  /** Move nodes from the front of one list to the end of another, up to a length. */
  method FillUp(list0: seq<Elected>, rest0: seq<Elected>, limit: nat) returns (list: seq<Elected>, rest: seq<Elected>)
    requires |list0| <= limit
    ensures list + rest == list0 + rest0 && |list| == Min(limit, |list0| + |rest0|)
  {
    list, rest := list0, rest0;
    while |list| < limit && |rest| > 0
      invariant list + rest == list0 + rest0 && |list| <= limit && |list| + |rest| == |list0| + |rest0|
    {
      list, rest := list + [rest[0]], rest[1..];
    }
  }

  // ------------------------------------------------------------------- miners

  function SetOf(s: seq<NodeId>): (r: set<NodeId>) { set i | 0 <= i < |s| :: s[i] }

  predicate NoRepeats(s: seq<NodeId>) {
    forall i, j :: 0 <= i < j < |s| ==> s[i] != s[j]
  }

  lemma SetGrows(s: seq<NodeId>, x: NodeId)
    ensures SetOf(s + [x]) == SetOf(s) + {x}
  {
    forall y | y in SetOf(s) ensures y in SetOf(s + [x]) {
      var i :| 0 <= i < |s| && s[i] == y;
      assert (s + [x])[i] == y;
    }
    assert (s + [x])[|s|] == x;
  }

  lemma SetOfPrefix(s: seq<NodeId>, n: nat)
    requires n <= |s|
    ensures SetOf(s[..n]) <= SetOf(s) && (NoRepeats(s) ==> NoRepeats(s[..n]))
  {
    forall y | y in SetOf(s[..n]) ensures y in SetOf(s) {
      var i :| 0 <= i < n && s[..n][i] == y;
      assert s[i] == y;
    }
  }

  lemma SetSplits(s: seq<NodeId>, n: nat)
    requires n <= |s|
    ensures SetOf(s) <= SetOf(s[..n]) + SetOf(s[n..])
  {
    forall y | y in SetOf(s) ensures y in SetOf(s[..n]) + SetOf(s[n..]) {
      var i :| 0 <= i < |s| && s[i] == y;
      if i < n {
        assert s[..n][i] == y;
      } else {
        assert s[n..][i - n] == y;
      }
    }
  }

  lemma {:induction false} SetSize(s: seq<NodeId>)
    requires NoRepeats(s)
    ensures |SetOf(s)| == |s|
  {
    if s != [] {
      var init := s[..|s| - 1];
      SetSize(init);
      assert s == init + [s[|s| - 1]];
      SetGrows(init, s[|s| - 1]);
    }
  }

  /** The votes of elected nodes, by id. */
  function VoteMap(e: seq<Elected>): (votes: map<NodeId, int>) {
    if e == [] then map[] else VoteMap(e[..|e| - 1])[e[|e| - 1].id := e[|e| - 1].votes]
  }

  lemma {:induction false} VoteMapKeys(e: seq<Elected>)
    ensures VoteMap(e).Keys == SetOf(IdsOf(e))
  {
    if e != [] {
      var init, x := e[..|e| - 1], e[|e| - 1].id;
      VoteMapKeys(init);
      SetGrows(IdsOf(init), x);
      assert IdsOf(e) == IdsOf(init) + [x];
    }
  }

  method VotesOf(e: seq<Elected>) returns (votes: map<NodeId, int>)
    ensures votes == VoteMap(e)
  {
    votes := map[];
    var i := 0;
    while i < |e|
      invariant 0 <= i <= |e| && votes == VoteMap(e[..i])
    {
      assert e[..i + 1][..i] == e[..i];
      votes := votes[e[i].id := e[i].votes];
      i := i + 1;
    }
    assert e[..i] == e;
  }

  /** The others are nodes of the list, once each, without votes. */
  lemma {:induction false} OthersOf(w: seq<Weighted>, votes: map<NodeId, int>)
    requires Distinct(w)
    ensures NoRepeats(Others(w, votes)) && SetOf(Others(w, votes)) == Ids(w) - votes.Keys
  {
    if w != [] {
      var init, x := w[..|w| - 1], w[|w| - 1].id;
      IdsGrow(w);
      OthersOf(init, votes);
      var o := Others(init, votes);
      if x !in votes {
        SetGrows(o, x);
        forall i | 0 <= i < |o| ensures o[i] != x {
          assert o[i] in SetOf(o);
        }
      } else {
        assert Others(w, votes) == o;
      }
    }
  }

  /** The chosen are the nodes of the list with votes. */
  lemma {:induction false} ChosenIds(w: seq<Weighted>, votes: map<NodeId, int>)
    ensures SetOf(IdsOf(Chosen(w, votes))) == Ids(w) * votes.Keys
  {
    if w != [] {
      var init, x := w[..|w| - 1], w[|w| - 1].id;
      IdsGrow(w);
      ChosenIds(init, votes);
      var c := IdsOf(Chosen(init, votes));
      if x in votes {
        assert IdsOf(Chosen(w, votes)) == c + [x];
        SetGrows(c, x);
      } else {
        assert Chosen(w, votes) == Chosen(init, votes);
      }
    }
  }

  /** Who is elected as a miner: everyone, or those drawn and then the first of the others. */
  function Winners(prob: seq<Weighted>, draws: nat -> real, ms: nat, maxSample: nat): (r: seq<Elected>) {
    if |prob| <= ms then Everyone(prob)
    else
      var votes := Tally(prob, draws, ms, maxSample);
      var c, o := Chosen(prob, votes), Others(prob, votes);
      if ms <= |c| then c else if ms - |c| <= |o| then c + Voteless(o[..ms - |c|], 0) else c + Voteless(o, 0)
  }

  /** The miners: exactly as many principals as wanted, as far as there are nodes; the others
      are backups, with one vote each; both in the order of the list. */
  method SelectMiners(w: seq<Weighted>, draws: nat -> real, ms: nat, maxSample: nat)
    returns (principals: seq<Elected>, backups: seq<Elected>)
    requires Positive(w) && Distinct(w) && ms >= 1 && forall i :: 0.0 <= draws(i)
    ensures |principals| == Min(ms, |w|) && |principals| + |backups| == |w|
    ensures var votes := VoteMap(Winners(Shares(w), draws, ms, maxSample));
            principals == Chosen(w, votes) && backups == Voteless(Others(w, votes), 1)
  {
    var prob := Normalize(w);
    SameNodes(w, prob, map[]);
    var elected, rest := SampleMiners(prob, draws, ms, maxSample);
    VotelessIds(rest, 0);
    principals, backups := InOrder(prob, elected, Voteless(rest, 0));
    ghost var votes := VoteMap(elected);
    SameNodes(w, prob, votes);
    Partition(prob, votes, 0);
    VoteMapKeys(elected);
    ChosenAtMost(prob, votes);
    backups := OneVoteEach(backups);
  }

  /** Two lists of elected nodes, in the order of the list they were elected from. */
  method InOrder(prob: seq<Weighted>, elected: seq<Elected>, rest: seq<Elected>)
    returns (principals: seq<Elected>, backups: seq<Elected>)
    requires Ids(prob) <= SetOf(IdsOf(elected)) + SetOf(IdsOf(rest))
    ensures principals == Chosen(prob, VoteMap(elected)) && IdsOf(backups) == Others(prob, VoteMap(elected))
  {
    var p := VotesOf(elected);
    var b := VotesOf(rest);
    VoteMapKeys(elected);
    VoteMapKeys(rest);
    principals, backups := [], [];
    var i := 0;
    while i < |prob|
      invariant 0 <= i <= |prob| && principals == Chosen(prob[..i], p) && IdsOf(backups) == Others(prob[..i], p)
    {
      assert prob[..i + 1][..i] == prob[..i];
      var id := prob[i].id;
      assert id in Ids(prob);
      if id in p {
        principals := principals + [Elected(id, p[id])];
      } else if id in b {
        backups := backups + [Elected(id, b[id])];
      }
      i := i + 1;
    }
    assert prob[..i] == prob;
  }

  /** Only the ids count for who is chosen. */
  lemma {:induction false} SameNodes(w: seq<Weighted>, prob: seq<Weighted>, votes: map<NodeId, int>)
    requires |w| == |prob| && forall i :: 0 <= i < |w| ==> prob[i].id == w[i].id
    ensures Chosen(w, votes) == Chosen(prob, votes) && Others(w, votes) == Others(prob, votes)
    ensures NodesOf(w) == NodesOf(prob) && (Distinct(w) ==> Distinct(prob))
  {
    if w != [] {
      SameNodes(w[..|w| - 1], prob[..|w| - 1], votes);
    }
  }

  /** Enough different nodes: those drawn, and then the first of the others. */
  method SampleMiners(prob: seq<Weighted>, draws: nat -> real, ms: nat, maxSample: nat)
    returns (elected: seq<Elected>, rest: seq<NodeId>)
    requires Distinct(prob) && Positive(prob) && ms >= 1 && forall i :: 0.0 <= draws(i)
    ensures elected == Winners(prob, draws, ms, maxSample)
    ensures |elected| == Min(ms, |prob|) == |SetOf(IdsOf(elected))| && SetOf(IdsOf(elected)) <= Ids(prob)
    ensures Ids(prob) <= SetOf(IdsOf(elected)) + SetOf(rest)
  {
    if |prob| <= ms {
      elected, rest := Everyone(prob), [];
      EveryoneIds(prob);
      return;
    }
    var votes := DrawVotes(prob, draws, ms, maxSample);
    elected, rest := Separate(prob, votes);
    TallyBounds(prob, draws, ms, maxSample);
    ChosenAtMost(prob, votes);
    Partition(prob, votes, 0);
    var n := ms - |elected|;
    Filled(prob, votes, n);
    assert n == 0 ==> elected + Voteless(rest[..n], 0) == elected;
    elected, rest := elected + Voteless(rest[..n], 0), rest[n..];
  }

  /** The nodes drawn and the first n of the others are different nodes of the list. */
  lemma Filled(prob: seq<Weighted>, votes: map<NodeId, int>, n: nat)
    requires Distinct(prob) && votes.Keys <= Ids(prob) && n <= |Others(prob, votes)|
    ensures var s := IdsOf(Chosen(prob, votes) + Voteless(Others(prob, votes)[..n], 0));
            && |SetOf(s)| == |Chosen(prob, votes)| + n && SetOf(s) <= Ids(prob)
            && Ids(prob) <= SetOf(s) + SetOf(Others(prob, votes)[n..])
  {
    var more := Others(prob, votes)[..n];
    ChosenKeys(prob, votes);
    MoreIds(prob, votes, n);
    FilledSize(IdsOf(Chosen(prob, votes)), votes.Keys, more, Ids(prob));
    IdsJoin(Chosen(prob, votes), more, 0);
  }

  lemma ChosenKeys(prob: seq<Weighted>, votes: map<NodeId, int>)
    requires Distinct(prob) && votes.Keys <= Ids(prob)
    ensures SetOf(IdsOf(Chosen(prob, votes))) == votes.Keys && |Chosen(prob, votes)| == |votes.Keys|
  {
    ChosenAtMost(prob, votes);
    ChosenIds(prob, votes);
  }

  lemma MoreIds(prob: seq<Weighted>, votes: map<NodeId, int>, n: nat)
    requires Distinct(prob) && n <= |Others(prob, votes)|
    ensures var more := Others(prob, votes)[..n];
            && NoRepeats(more) && SetOf(more) !! votes.Keys && SetOf(more) <= Ids(prob)
            && Ids(prob) <= votes.Keys + SetOf(more) + SetOf(Others(prob, votes)[n..])
  {
    OthersOf(prob, votes);
    SetSplits(Others(prob, votes), n);
    SetOfPrefix(Others(prob, votes), n);
  }

  lemma EveryoneIds(prob: seq<Weighted>)
    requires Distinct(prob)
    ensures var s := IdsOf(Everyone(prob)); |s| == |SetOf(s)| == |prob| && SetOf(s) == Ids(prob)
  {
    var s := IdsOf(Everyone(prob));
    assert forall i :: 0 <= i < |prob| ==> s[i] == prob[i].id;
    SetSize(s);
  }

  lemma FilledSize(c: seq<NodeId>, chosen: set<NodeId>, more: seq<NodeId>, all: set<NodeId>)
    requires SetOf(c) == chosen <= all && |c| == |chosen| && NoRepeats(more) && SetOf(more) !! chosen && SetOf(more) <= all
    ensures |SetOf(c + more)| == |c| + |more| && SetOf(c + more) == chosen + SetOf(more)
  {
    SetSize(more);
    forall y | y in SetOf(c) + SetOf(more) ensures y in SetOf(c + more) {
      if y in SetOf(c) {
        var i :| 0 <= i < |c| && c[i] == y;
        assert (c + more)[i] == y;
      } else {
        var i :| 0 <= i < |more| && more[i] == y;
        assert (c + more)[|c| + i] == y;
      }
    }
    assert SetOf(c + more) == chosen + SetOf(more);
  }

  // ------------------------------------------------------ the draws decide

  /** A node of the list is among the chosen with its votes, or among the others. */
  lemma {:induction false} ChosenOrOther(w: seq<Weighted>, votes: map<NodeId, int>, id: NodeId)
    requires id in Ids(w)
    ensures if id in votes then Elected(id, votes[id]) in Chosen(w, votes) else id in Others(w, votes)
  {
    var init, x := w[..|w| - 1], w[|w| - 1].id;
    IdsGrow(w);
    if id in Ids(init) {
      ChosenOrOther(init, votes, id);
    } else {
      assert id == x;
    }
  }

  /** If there are no more nodes than wanted all are elected, each with its share in percent, rounded
      down. */
  lemma FewElected(prob: seq<Weighted>, draws: nat -> real, want: nat, maxSample: nat, i: nat)
    requires i < |prob| <= want
    ensures var r := Ranking(prob, draws, want, maxSample);
            && Winners(prob, draws, want, maxSample) == r && |r| == |prob| && r[i].id == prob[i].id
            && r[i].votes as real <= 100.0 * prob[i].value < r[i].votes as real + 1.0
  {
  }

  /** A node that a counted draw goes to is among the first that are ranked, and among the miners,
      with as many votes as draws go to it; every other node has one vote in the ranking. The
      draws that count are all of them, or those up to the first after which enough nodes
      have votes. */
  lemma DrawnElected(prob: seq<Weighted>, draws: nat -> real, want: nat, maxSample: nat, id: NodeId) returns (m: nat)
    requires prob != [] && Positive(prob) && Distinct(prob) && Nonnegative(draws) && 1 <= want < |prob| && id in Ids(prob)
    ensures m <= maxSample && forall j :: 0 <= j < m ==> AllCount(prob, draws, want, j)
    ensures m < maxSample ==> |Tally(prob, draws, want, maxSample)| == want
    ensures |Ranking(prob, draws, want, maxSample)| == |prob|
    ensures var mine, r := DrawsFor(prob, draws, m, id), Ranking(prob, draws, want, maxSample);
            && (mine != {} ==> Elected(id, |mine|) in r[..want] && Elected(id, |mine|) in Winners(prob, draws, want, maxSample))
            && (mine == {} ==> Elected(id, 1) in r)
  {
    m := TallyIs(prob, draws, want, maxSample);
    var votes := Tally(prob, draws, want, maxSample);
    assert CountsFor(prob, draws, m, votes, id);
    RankingCounts(prob, draws, want, maxSample, id);
    TallyBounds(prob, draws, want, maxSample);
    ChosenAtMost(prob, votes);
    ChosenOrOther(prob, votes, id);
    RankedFirst(Chosen(prob, votes), Others(prob, votes), want, id);
  }

  lemma RankedFirst(c: seq<Elected>, o: seq<NodeId>, want: nat, id: NodeId)
    requires |c| <= want <= |c| + |o|
    ensures forall e :: e in c ==> e in (c + Voteless(o, 1))[..want]
    ensures id in o ==> Elected(id, 1) in c + Voteless(o, 1)
  {
    var r := c + Voteless(o, 1);
    forall e | e in c ensures e in r[..want] {
      var i :| 0 <= i < |c| && c[i] == e;
      assert r[..want][i] == e;
    }
    if id in o {
      var i :| 0 <= i < |o| && o[i] == id;
      assert r[|c| + i] == Elected(id, 1);
    }
  }
}
