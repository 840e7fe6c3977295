/** The event feed as a state machine: one sender at a time works through the list of
    channels while other goroutines subscribe and unsubscribe. */
module Feeds {
  import opened Wrappers

  /** A channel. REMOVE_SUB is the one on which a sender is told of a removal. */
  type Chan = nat
  const REMOVE_SUB: Chan := 0
  const FIRST_SUB := 1

  // ------------------------------------------------------------ lists of cases

  /** How often a channel is in a list. */
  function Count(cs: seq<Chan>, ch: Chan): (n: nat) {
    if cs == [] then 0 else (if cs[0] == ch then 1 else 0) + Count(cs[1..], ch)
  }

  lemma {:induction false} CountAppend(a: seq<Chan>, b: seq<Chan>, ch: Chan)
    ensures Count(a + b, ch) == Count(a, ch) + Count(b, ch)
  {
    if a == [] {
      assert a + b == b;
    } else {
      assert (a + b)[1..] == a[1..] + b;
      CountAppend(a[1..], b, ch);
    }
  }

  lemma CountAround(a: seq<Chan>, x: Chan, b: seq<Chan>, ch: Chan)
    ensures Count(a + [x] + b, ch) == Count(a, ch) + Count([x], ch) + Count(b, ch)
  {
    CountAppend(a + [x], b, ch);
    CountAppend(a, [x], ch);
  }

  lemma {:induction false} CountIn(cs: seq<Chan>, ch: Chan)
    ensures ch in cs <==> Count(cs, ch) > 0
  {
    if cs != [] {
      CountIn(cs[1..], ch);
    }
  }

  /** The first position of a channel, or -1. */
  function Find(cs: seq<Chan>, ch: Chan): (i: int)
    ensures -1 <= i < |cs|
    ensures i == -1 <==> ch !in cs
    ensures i >= 0 ==> cs[i] == ch && ch !in cs[..i]
  {
    if cs == [] then -1
    else if cs[0] == ch then 0
    else var i := Find(cs[1..], ch); if i == -1 then -1 else (assert cs[..i + 1] == [cs[0]] + cs[1..][..i]; i + 1)
  }

  function Delete(cs: seq<Chan>, i: nat): (r: seq<Chan>)
    requires i < |cs|
  {
    cs[..i] + cs[i + 1..]
  }

  /** Deleting takes away one occurrence. */
  lemma DeleteCount(cs: seq<Chan>, i: nat, ch: Chan)
    requires i < |cs|
    ensures Count(cs, ch) == Count(Delete(cs, i), ch) + Count([cs[i]], ch)
  {
    CountAround(cs[..i], cs[i], cs[i + 1..], ch);
    CountAppend(cs[..i], cs[i + 1..], ch);
    assert cs == cs[..i] + [cs[i]] + cs[i + 1..];
  }

  /** The list after the case at i has been swapped with the last of the first k: the
      active part is then one shorter. */
  function Deactivate(cs: seq<Chan>, i: nat, k: nat): (r: seq<Chan>)
    requires i < k <= |cs|
  {
    cs[i := cs[k - 1]][k - 1 := cs[i]]
  }

  lemma DeactivateParts(cs: seq<Chan>, i: nat, k: nat, ch: Chan)
    requires FIRST_SUB <= i < k <= |cs|
    ensures var r := Deactivate(cs, i, k);
            && Count(cs[1..k], ch) == Count(r[1..k - 1], ch) + Count([cs[i]], ch)
            && Count(r[k - 1..], ch) == Count(cs[k..], ch) + Count([cs[i]], ch)
            && |r| == |cs| && r[0] == cs[0] && Count(r, ch) == Count(cs, ch)
  {
    var r, last := Deactivate(cs, i, k), k - 1;
    DeactivateActive(cs, i, k, ch);
    CountAppend([cs[i]], cs[k..], ch);
    assert r[last..] == [cs[i]] + cs[k..];
    Parts(cs, k, ch);
    Parts(r, last, ch);
  }

  lemma DeactivateActive(cs: seq<Chan>, i: nat, k: nat, ch: Chan)
    requires FIRST_SUB <= i < k <= |cs|
    ensures Count(cs[1..k], ch) == Count(Deactivate(cs, i, k)[1..k - 1], ch) + Count([cs[i]], ch)
  {
    var r, last := Deactivate(cs, i, k), k - 1;
    assert cs[1..k] == cs[1..last] + [cs[last]];
    CountAppend(cs[1..last], [cs[last]], ch);
    if i < last {
      CountAround(cs[1..i], cs[last], cs[i + 1..last], ch);
      CountAround(cs[1..i], cs[i], cs[i + 1..last], ch);
      assert r[1..last] == cs[1..i] + [cs[last]] + cs[i + 1..last];
      assert cs[1..last] == cs[1..i] + [cs[i]] + cs[i + 1..last];
    } else {
      assert r[1..last] == cs[1..last];
    }
  }

  /** A list in its first case, the other active ones and the rest. */
  lemma Parts(cs: seq<Chan>, k: nat, ch: Chan)
    requires FIRST_SUB <= k <= |cs|
    ensures Count(cs, ch) == Count([cs[0]], ch) + Count(cs[1..k], ch) + Count(cs[k..], ch)
  {
    CountAppend([cs[0]] + cs[1..k], cs[k..], ch);
    CountAppend([cs[0]], cs[1..k], ch);
    assert cs == [cs[0]] + cs[1..k] + cs[k..];
  }

  /** A part of a list that lost the element at i. */
  lemma DeletedPart(cs: seq<Chan>, i: nat, a: nat, b: nat)
    requires i < |cs| && a <= i <= b < |cs|
    ensures Delete(cs, i)[a..b] == cs[a..i] + cs[i + 1..b + 1]
  {
    var r := Delete(cs, i)[a..b];
    forall x | 0 <= x < |r| ensures r[x] == (cs[a..i] + cs[i + 1..b + 1])[x] {
      assert r[x] == Delete(cs, i)[a + x];
    }
  }

  lemma DeletedRest(cs: seq<Chan>, i: nat, k: nat)
    requires i < k <= |cs|
    ensures Delete(cs, i)[k - 1..] == cs[k..]
  {
    var r := Delete(cs, i)[k - 1..];
    forall x | 0 <= x < |r| ensures r[x] == cs[k..][x] {
      assert r[x] == Delete(cs, i)[k - 1 + x];
    }
  }

  lemma DeletedFront(cs: seq<Chan>, i: nat, k: nat)
    requires FIRST_SUB <= k <= i < |cs|
    ensures Delete(cs, i)[1..k] == cs[1..k]
  {
    var r := Delete(cs, i)[1..k];
    forall x | 0 <= x < |r| ensures r[x] == cs[1..k][x] {
      assert r[x] == Delete(cs, i)[1 + x];
    }
  }

  /** Deleting an active case leaves the served ones as they are. */
  lemma DeleteActive(cs: seq<Chan>, i: nat, k: nat, ch: Chan)
    requires FIRST_SUB <= i < k <= |cs|
    ensures var r := Delete(cs, i);
            && r[0] == cs[0] && |r| == |cs| - 1
            && r[k - 1..] == cs[k..] && Count(cs[1..k], ch) == Count(r[1..k - 1], ch) + Count([cs[i]], ch)
  {
    CountAround(cs[1..i], cs[i], cs[i + 1..k], ch);
    CountAppend(cs[1..i], cs[i + 1..k], ch);
    assert cs[1..k] == cs[1..i] + [cs[i]] + cs[i + 1..k];
    DeletedPart(cs, i, 1, k - 1);
    DeletedRest(cs, i, k);
  }

  /** Deleting a served case leaves the active ones as they are. */
  lemma DeleteServed(cs: seq<Chan>, i: nat, k: nat, ch: Chan)
    requires FIRST_SUB <= k <= i < |cs|
    ensures var r := Delete(cs, i);
            && r[0] == cs[0] && |r| == |cs| - 1
            && r[1..k] == cs[1..k] && Count(cs[k..], ch) == Count(r[k..], ch) + Count([cs[i]], ch)
  {
    CountAround(cs[k..i], cs[i], cs[i + 1..], ch);
    CountAppend(cs[k..i], cs[i + 1..], ch);
    assert cs[k..] == cs[k..i] + [cs[i]] + cs[i + 1..];
    DeletedFront(cs, i, k);
    DeletedPart(cs, i, k, |cs| - 1);
    assert Delete(cs, i)[k..] == Delete(cs, i)[k..|cs| - 1] && cs[i + 1..] == cs[i + 1..|cs|];
  }

  // ----------------------------------------------- the same on a shared array

  /** The search for a channel. */
  method FindCase(cs: seq<Chan>, ch: Chan) returns (index: int)
    ensures index == Find(cs, ch)
  {
    var i := 0;
    while i < |cs|
      invariant 0 <= i <= |cs| && ch !in cs[..i]
    {
      if cs[i] == ch {
        FindUnique(cs, ch, i);
        return i;
      }
      assert cs[..i + 1] == cs[..i] + [cs[i]];
      i := i + 1;
    }
    assert cs[..i] == cs;
    index := -1;
  }

  lemma FindUnique(cs: seq<Chan>, ch: Chan, i: nat)
    requires i < |cs| && cs[i] == ch && ch !in cs[..i]
    ensures Find(cs, ch) == i
  {
    if i > 0 {
      assert cs[..i] == [cs[0]] + cs[1..][..i - 1];
      FindUnique(cs[1..], ch, i - 1);
    }
  }

  /** Deleting in place: the cases behind move up by one in the array that the list and the
      active prefix share. */
  method DeleteInPlace(a: array<Chan>, n: nat, index: nat)
    requires index < n <= a.Length
    modifies a
    ensures a[..n - 1] == Delete(old(a[..n]), index) && a[n..] == old(a[n..])
  {
    ghost var was := a[..];
    var i := index;
    while i < n - 1
      invariant index <= i <= n - 1
      invariant forall k :: 0 <= k < index ==> a[k] == was[k]
      invariant forall k :: index <= k < i ==> a[k] == was[k + 1]
      invariant forall k :: i <= k < a.Length ==> a[k] == was[k]
    {
      a[i] := a[i + 1];
      i := i + 1;
    }
    assert forall k :: 0 <= k < n - 1 ==> a[..n - 1][k] == Delete(was[..n], index)[k];
  }

  /** Deactivating in place: a swap with the last active case. */
  method DeactivateInPlace(a: array<Chan>, index: nat, k: nat) returns (last: nat)
    requires index < k <= a.Length
    modifies a
    ensures last == k - 1 && a[..] == Deactivate(old(a[..]), index, k)
  {
    last := k - 1;
    a[index], a[last] := a[last], a[index];
  }

  // ------------------------------------------------------------------ the state

  /** The sender: trying the active case at i, or blocked in a select; k is the number of
      active cases, the one for removals included. */
  datatype Sender = Idle | Trying(i: nat, k: nat) | Selecting(k: nat)

  /** What happened since the sender began: the channels it began with, those it sent to,
      and those removed meanwhile, before or after they were sent to. */
  datatype History = History(start: seq<Chan>, sent: seq<Chan>, dropped: seq<Chan>, left: seq<Chan>)

  /** `live` are the subscriptions not yet cancelled, `removing` those cancelled but
      waiting for the sender or for the lock. */
  datatype State = State(inbox: seq<Chan>, sendCases: seq<Chan>, removing: seq<Chan>, live: seq<Chan>,
                         sender: Sender, nsent: nat, past: History)

  function Initial(): (s: State) {
    State([], [REMOVE_SUB], [], [], Idle, 0, History([], [], [], []))
  }

  datatype Step =
    | Subscribe(ch: Chan)
    | Unsubscribe(ch: Chan)
    | RemoveNow(ch: Chan)
    | BeginSend
    | TrySend(ok: bool)
    | Block
    | Chosen(j: nat)
    | Removal(ch: Chan)
    | EndSend

  predicate Enabled(s: State, step: Step) {
    match step
    case Subscribe(ch) => ch != REMOVE_SUB
    case Unsubscribe(ch) => ch in s.live
    case RemoveNow(ch) => s.sender.Idle? && ch in s.removing
    case BeginSend => s.sender.Idle?
    case TrySend(_) => s.sender.Trying? && s.sender.i < s.sender.k <= |s.sendCases|
    case Block => s.sender.Trying? && s.sender.i >= s.sender.k && s.sender.k != FIRST_SUB
    case Chosen(j) => s.sender.Selecting? && FIRST_SUB <= j < s.sender.k <= |s.sendCases|
    case Removal(ch) => s.sender.Selecting? && ch in s.removing
    case EndSend => s.sender.Trying? && s.sender.i >= s.sender.k && s.sender.k == FIRST_SUB
  }

  /** One occurrence less of something that is there. */
  function Minus(cs: seq<Chan>, ch: Chan): (r: seq<Chan>)
    requires ch in cs
  {
    Delete(cs, Find(cs, ch))
  }

  /** A send on the channel at i succeeds. */
  function Deliver(s: State, i: nat, next: Sender): (t: State)
    requires !s.sender.Idle? && i < s.sender.k <= |s.sendCases|
  {
    s.(sendCases := Deactivate(s.sendCases, i, s.sender.k), sender := next, nsent := s.nsent + 1,
       past := s.past.(sent := s.past.sent + [s.sendCases[i]]))
  }

  /** A channel is taken from the list; the sender's active part shrinks if it was there.
      A channel that is not in the list is a run-time error. */
  function TakeOut(s: State, ch: Chan): (t: Option<State>)
    requires ch in s.removing
  {
    var index := Find(s.sendCases, ch);
    if index == -1 then None
    else
      var t := s.(sendCases := Delete(s.sendCases, index), removing := Minus(s.removing, ch));
      if s.sender.Idle? then Some(t)
      else if index < s.sender.k
      then Some(t.(sender := Trying(FIRST_SUB, s.sender.k - 1), past := s.past.(dropped := s.past.dropped + [ch])))
      else Some(t.(sender := Trying(FIRST_SUB, s.sender.k), past := s.past.(left := s.past.left + [ch])))
  }

  /** One step; None stands for a run-time error. */
  function Next(s: State, step: Step): (t: Option<State>)
    requires Enabled(s, step)
  {
    match step
    case Subscribe(ch) => Some(s.(inbox := s.inbox + [ch], live := s.live + [ch]))
    case Unsubscribe(ch) =>
      var index := Find(s.inbox, ch);
      var t := s.(live := Minus(s.live, ch));
      if index != -1 then Some(t.(inbox := Delete(s.inbox, index)))
      else Some(t.(removing := s.removing + [ch]))
    case RemoveNow(ch) => TakeOut(s, ch)
    case BeginSend =>
      var cs := s.sendCases + s.inbox;
      Some(s.(inbox := [], sendCases := cs, sender := Trying(FIRST_SUB, |cs|), nsent := 0,
              past := History(s.live + s.removing, [], [], [])))
    case TrySend(ok) =>
      if ok then Some(Deliver(s, s.sender.i, Trying(s.sender.i, s.sender.k - 1)))
      else Some(s.(sender := Trying(s.sender.i + 1, s.sender.k)))
    case Block => Some(s.(sender := Selecting(s.sender.k)))
    case Chosen(j) => Some(Deliver(s, j, Trying(FIRST_SUB, s.sender.k - 1)))
    case Removal(ch) => TakeOut(s, ch)
    case EndSend => Some(s.(sender := Idle))
  }

  // --------------------------------------------------------------- the invariant

  /** Every subscription is in the inbox or in the list, once; whatever is to be removed
      is in the list; the first case, and no other, is that for removals. */
  ghost predicate Accounted(s: State, ch: Chan) {
    && Count(s.inbox, ch) + Count(s.sendCases, ch) == Count(s.live, ch) + Count(s.removing, ch) + Count([REMOVE_SUB], ch)
    && Count(s.removing, ch) + Count([REMOVE_SUB], ch) <= Count(s.sendCases, ch)
    && (ch == REMOVE_SUB ==> Count(s.live, ch) == 0 && Count(s.removing, ch) == 0)
  }

  /** The active cases are a prefix of the list; behind it are exactly the channels that
      were sent to and are still there. */
  ghost predicate Sending(s: State, k: nat, ch: Chan)
    requires FIRST_SUB <= k <= |s.sendCases|
  {
    && Count(s.past.start, ch) ==
       Count(s.sendCases[1..k], ch) + Count(s.sendCases[k..], ch) + Count(s.past.dropped, ch) + Count(s.past.left, ch)
    && Count(s.past.sent, ch) == Count(s.sendCases[k..], ch) + Count(s.past.left, ch)
  }

  /** What a finished send has done with a channel: sent to it as often as it was there
      at the start, but for the occurrences removed before their turn. */
  ghost predicate Delivered(h: History, ch: Chan) {
    && Count(h.start, ch) == Count(h.sent, ch) + Count(h.dropped, ch)
    && Count(h.left, ch) <= Count(h.sent, ch)
  }

  ghost predicate SenderOk(s: State) {
    match s.sender
    case Idle => forall ch :: Delivered(s.past, ch)
    case Trying(i, k) => FIRST_SUB <= i <= k <= |s.sendCases| && forall ch :: Sending(s, k, ch)
    case Selecting(k) => FIRST_SUB <= k <= |s.sendCases| && forall ch :: Sending(s, k, ch)
  }

  ghost predicate Inv(s: State) {
    && |s.sendCases| >= FIRST_SUB && s.sendCases[0] == REMOVE_SUB && s.nsent == |s.past.sent|
    && (forall ch :: Accounted(s, ch)) && SenderOk(s)
  }

  // ------------------------------------------------------- every step keeps it

  lemma DeliverKeeps(s: State, i: nat, next: Sender, ch: Chan)
    requires Inv(s) && !s.sender.Idle? && FIRST_SUB <= i < s.sender.k <= |s.sendCases|
    ensures var t := Deliver(s, i, next);
            |t.sendCases| == |s.sendCases| && t.sendCases[0] == REMOVE_SUB && Accounted(t, ch) && Sending(t, s.sender.k - 1, ch)
  {
    assert Accounted(s, ch) && Sending(s, s.sender.k, ch);
    DeliverParts(s, i, next, ch);
  }

  lemma DeliverParts(s: State, i: nat, next: Sender, ch: Chan)
    requires !s.sender.Idle? && FIRST_SUB <= i < s.sender.k <= |s.sendCases| && s.sendCases[0] == REMOVE_SUB
    requires Accounted(s, ch) && Sending(s, s.sender.k, ch)
    ensures var t := Deliver(s, i, next);
            |t.sendCases| == |s.sendCases| && t.sendCases[0] == REMOVE_SUB && Accounted(t, ch) && Sending(t, s.sender.k - 1, ch)
  {
    DeactivateParts(s.sendCases, i, s.sender.k, ch);
    CountAppend(s.past.sent, [s.sendCases[i]], ch);
  }

  /** A channel that is to be removed is always found, and not at the first place. */
  lemma AlwaysFound(s: State, ch: Chan)
    requires Inv(s) && ch in s.removing
    ensures Find(s.sendCases, ch) >= FIRST_SUB && TakeOut(s, ch).Some?
  {
    assert Accounted(s, ch);
    CountIn(s.removing, ch);
    CountIn(s.sendCases, ch);
  }

  lemma MinusCount(cs: seq<Chan>, x: Chan, ch: Chan)
    requires x in cs
    ensures Count(cs, ch) == Count(Minus(cs, x), ch) + Count([x], ch)
  {
    DeleteCount(cs, Find(cs, x), ch);
  }

  lemma TakeOutKeeps(s: State, x: Chan, ch: Chan)
    requires Inv(s) && x in s.removing && Find(s.sendCases, x) >= FIRST_SUB
    ensures Accounted(TakeOut(s, x).value, ch)
  {
    assert Accounted(s, ch) && Accounted(s, x);
    DeleteCount(s.sendCases, Find(s.sendCases, x), ch);
    MinusCount(s.removing, x, ch);
    CountIn(s.removing, x);
  }

  lemma TakeOutSends(s: State, x: Chan, ch: Chan)
    requires Inv(s) && x in s.removing && Find(s.sendCases, x) >= FIRST_SUB && !s.sender.Idle?
    ensures var t := TakeOut(s, x).value;
            && t.sender.Trying? && t.sender.i == FIRST_SUB <= t.sender.k <= |t.sendCases|
            && t.sendCases[0] == REMOVE_SUB && Sending(t, t.sender.k, ch)
  {
    assert Sending(s, s.sender.k, ch);
    if Find(s.sendCases, x) < s.sender.k {
      TakeOutActive(s, x, ch);
    } else {
      TakeOutServed(s, x, ch);
    }
  }

  lemma TakeOutActive(s: State, x: Chan, ch: Chan)
    requires x in s.removing && !s.sender.Idle? && FIRST_SUB <= Find(s.sendCases, x) < s.sender.k <= |s.sendCases|
    requires s.sendCases[0] == REMOVE_SUB && Sending(s, s.sender.k, ch)
    ensures var t := TakeOut(s, x).value;
            && t.sender.Trying? && t.sender.i == FIRST_SUB <= t.sender.k <= |t.sendCases|
            && t.sendCases[0] == REMOVE_SUB && Sending(t, t.sender.k, ch)
  {
    DeleteActive(s.sendCases, Find(s.sendCases, x), s.sender.k, ch);
    CountAppend(s.past.dropped, [x], ch);
  }

  lemma TakeOutServed(s: State, x: Chan, ch: Chan)
    requires x in s.removing && !s.sender.Idle? && FIRST_SUB <= s.sender.k <= Find(s.sendCases, x) < |s.sendCases|
    requires s.sendCases[0] == REMOVE_SUB && Sending(s, s.sender.k, ch)
    ensures var t := TakeOut(s, x).value;
            && t.sender.Trying? && t.sender.i == FIRST_SUB <= t.sender.k <= |t.sendCases|
            && t.sendCases[0] == REMOVE_SUB && Sending(t, t.sender.k, ch)
  {
    DeleteServed(s.sendCases, Find(s.sendCases, x), s.sender.k, ch);
    CountAppend(s.past.left, [x], ch);
  }

  lemma UnsubscribeKeeps(s: State, x: Chan, ch: Chan)
    requires Inv(s) && x in s.live
    ensures Accounted(Next(s, Unsubscribe(x)).value, ch)
  {
    assert Accounted(s, ch) && Accounted(s, x);
    MinusCount(s.live, x, ch);
    CountIn(s.live, x);
    CountIn(s.inbox, x);
    if x in s.inbox {
      MinusCount(s.inbox, x, ch);
    } else {
      CountAppend(s.removing, [x], ch);
    }
  }

  lemma BeginKeeps(s: State, ch: Chan)
    requires Inv(s) && s.sender.Idle?
    ensures var t := Next(s, BeginSend).value; Accounted(t, ch) && Sending(t, |t.sendCases|, ch)
  {
    var cs := s.sendCases + s.inbox;
    assert Accounted(s, ch);
    CountAppend(s.sendCases, s.inbox, ch);
    CountAppend(s.live, s.removing, ch);
    Parts(cs, |cs|, ch);
  }

  lemma EndKeeps(s: State, ch: Chan)
    requires Inv(s) && Enabled(s, EndSend)
    ensures Delivered(s.past, ch) && Accounted(Next(s, EndSend).value, ch)
  {
    assert Sending(s, FIRST_SUB, ch) && Accounted(s, ch);
  }

  lemma StepKeepsAt(s: State, step: Step, ch: Chan)
    requires Inv(s) && Enabled(s, step) && Next(s, step).Some?
    ensures Accounted(Next(s, step).value, ch)
  {
    assert Accounted(s, ch);
    match step
    case Subscribe(x) =>
      CountAppend(s.inbox, [x], ch);
      CountAppend(s.live, [x], ch);
    case Unsubscribe(x) => UnsubscribeKeeps(s, x, ch);
    case RemoveNow(x) => AlwaysFound(s, x); TakeOutKeeps(s, x, ch);
    case BeginSend => BeginKeeps(s, ch);
    case TrySend(ok) => if ok { DeliverKeeps(s, s.sender.i, Trying(s.sender.i, s.sender.k - 1), ch); }
    case Block =>
    case Chosen(j) => DeliverKeeps(s, j, Trying(FIRST_SUB, s.sender.k - 1), ch);
    case Removal(x) => AlwaysFound(s, x); TakeOutKeeps(s, x, ch);
    case EndSend =>
  }

  lemma SenderKeeps(s: State, step: Step)
    requires Inv(s) && Enabled(s, step)
    ensures Next(s, step).Some? && SenderOk(Next(s, step).value)
  {
    match step
    case BeginSend =>
      forall ch ensures var t := Next(s, BeginSend).value; Sending(t, |t.sendCases|, ch) {
        BeginKeeps(s, ch);
      }
    case TrySend(ok) =>
      if ok {
        DeliverAll(s, s.sender.i, Trying(s.sender.i, s.sender.k - 1), s.sender.k - 1);
      } else {
        SendingStays(s, Next(s, step).value, s.sender.k);
      }
    case Chosen(j) => DeliverAll(s, j, Trying(FIRST_SUB, s.sender.k - 1), s.sender.k - 1);
    case Removal(x) => TakeOutAll(s, x);
    case RemoveNow(x) => AlwaysFound(s, x);
    case EndSend =>
      forall ch ensures Delivered(s.past, ch) {
        EndKeeps(s, ch);
      }
    case _ =>
      if !s.sender.Idle? {
        SendingStays(s, Next(s, step).value, s.sender.k);
      }
  }

  lemma SendingStays(s: State, t: State, k: nat)
    requires FIRST_SUB <= k <= |s.sendCases| && (forall ch :: Sending(s, k, ch))
    requires t.sendCases == s.sendCases && t.past == s.past
    ensures forall ch :: Sending(t, k, ch)
  {
    forall ch ensures Sending(t, k, ch) {
      assert Sending(s, k, ch);
    }
  }

  lemma DeliverAll(s: State, i: nat, next: Sender, k: nat)
    requires Inv(s) && !s.sender.Idle? && FIRST_SUB <= i < s.sender.k <= |s.sendCases| && k == s.sender.k - 1
    ensures forall ch :: Sending(Deliver(s, i, next), k, ch)
  {
    forall ch ensures Sending(Deliver(s, i, next), k, ch) {
      DeliverKeeps(s, i, next, ch);
    }
  }

  lemma TakeOutAll(s: State, x: Chan)
    requires Inv(s) && x in s.removing && !s.sender.Idle?
    ensures TakeOut(s, x).Some? && SenderOk(TakeOut(s, x).value)
  {
    AlwaysFound(s, x);
    var t := TakeOut(s, x).value;
    TakeOutSends(s, x, 0);
    forall ch ensures Sending(t, t.sender.k, ch) {
      TakeOutSends(s, x, ch);
    }
  }

  /** No step is a run-time error, and every step keeps the invariant. */
  lemma StepKeeps(s: State, step: Step)
    requires Inv(s) && Enabled(s, step)
    ensures Next(s, step).Some? && Inv(Next(s, step).value)
  {
    SenderKeeps(s, step);
    forall ch ensures Accounted(Next(s, step).value, ch) {
      StepKeepsAt(s, step, ch);
    }
    if step.Removal? || step.RemoveNow? {
      AlwaysFound(s, step.ch);
    }
  }

  // --------------------------------------------------------------- whole runs

  /** The state after some steps, if they can happen. */
  function Run(s: State, steps: seq<Step>): (t: Option<State>)
    decreases |steps|
  {
    if steps == [] then Some(s)
    else if !Enabled(s, steps[0]) || Next(s, steps[0]).None? then None
    else Run(Next(s, steps[0]).value, steps[1..])
  }

  lemma {:induction false} RunKeeps(s: State, steps: seq<Step>)
    requires Inv(s) && Run(s, steps).Some?
    ensures Inv(Run(s, steps).value)
    decreases |steps|
  {
    if steps != [] {
      StepKeeps(s, steps[0]);
      RunKeeps(Next(s, steps[0]).value, steps[1..]);
    }
  }

  lemma InitialInv()
    ensures Inv(Initial())
  {
    assert Count([], REMOVE_SUB) == 0;
  }

  /** In no run does a removal fail to find its channel. */
  lemma NoError(steps: seq<Step>, step: Step)
    requires Run(Initial(), steps).Some? && Enabled(Run(Initial(), steps).value, step)
    ensures Next(Run(Initial(), steps).value, step).Some?
  {
    InitialInv();
    RunKeeps(Initial(), steps);
    StepKeeps(Run(Initial(), steps).value, step);
  }

  /** When a send returns, after whatever interleaving: it has sent to every channel as
      often as the channel was subscribed at its start, except for subscriptions that
      were removed before their turn; it returns the number of channels sent to. */
  lemma SendDelivers(steps: seq<Step>, ch: Chan)
    requires Run(Initial(), steps).Some? && Enabled(Run(Initial(), steps).value, EndSend)
    ensures var s := Run(Initial(), steps).value;
            && s.nsent == |s.past.sent|
            && Count(s.past.sent, ch) == Count(s.past.start, ch) - Count(s.past.dropped, ch)
            && (ch !in s.past.dropped ==> Count(s.past.sent, ch) == Count(s.past.start, ch))
  {
    InitialInv();
    RunKeeps(Initial(), steps);
    var s := Run(Initial(), steps).value;
    EndKeeps(s, ch);
    CountIn(s.past.dropped, ch);
  }
}
