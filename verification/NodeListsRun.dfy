/**
 * What all executors keep about their nodes, and when a node can come into two of them.
 *
 * Every operation keeps the two lists aligned and what is waited for in step with them. A node's flag
 * is up while it is in an executor, as long as it is removed only from where it is.
 */
module NodeListsRun {

  import opened NodeListsSpec

  function Guards(nodes: seq<Node>): (r: seq<Guard>)
    ensures |r| == |nodes| && forall k :: 0 <= k < |nodes| ==> r[k] == OfNode(nodes[k])
  {
    seq(|nodes|, k requires 0 <= k < |nodes| => OfNode(nodes[k]))
  }

  predicate Distinct(xs: seq<Node>) {
    forall i, j :: 0 <= i < j < |xs| ==> xs[i] != xs[j]
  }

  // No node is listed twice, the guard conditions stand at the same places as their nodes, and
  // exactly they are waited for, besides the two of the context and the executor.
  ghost predicate Aligned(l: Lists) {
    && Distinct(l.weakNodes)
    && l.guardConditions == Guards(l.weakNodes)
    && l.waitedFor == [OfContext, OfExecutor] + l.guardConditions
  }

  // ---- erasing side by side ----

  lemma {:induction false} EraseKeepsAlignment(nodes: seq<Node>, gone: set<Node>)
    requires Distinct(nodes)
    ensures EraseAt(nodes, Guards(nodes), gone) == Guards(EraseAt(nodes, nodes, gone))
    ensures Distinct(EraseAt(nodes, nodes, gone))
    ensures forall n :: n in EraseAt(nodes, nodes, gone) <==> n in nodes && n !in gone
  {
    if nodes != [] {
      var last := |nodes| - 1;
      var rest := nodes[..last];
      assert nodes == rest + [nodes[last]];
      EraseKeepsAlignment(rest, gone);
      assert Guards(nodes)[..last] == Guards(rest);
      if nodes[last] !in gone {
        assert Guards(EraseAt(rest, rest, gone) + [nodes[last]]) == Guards(EraseAt(rest, rest, gone)) + [OfNode(nodes[last])];
      }
    }
  }

  lemma {:induction false} EraseInTheMiddle<T>(front: seq<T>, x: T, back: seq<T>)
    requires x !in front
    ensures EraseFirst(front + [x] + back, x) == front + back
  {
    var all := front + [x] + back;
    if front == [] {
      assert all[0] == x && all[1..] == back;
    } else {
      assert all[0] == front[0] && all[1..] == front[1..] + [x] + back;
      EraseInTheMiddle(front[1..], x, back);
    }
  }

  // Erasing one by one from what is waited for: the guard conditions from k on are still there.
  lemma {:induction false} StopWaitingSoFar(nodes: seq<Node>, k: nat, gone: set<Node>)
    requires Distinct(nodes) && k <= |nodes|
    ensures StopWaiting(nodes[..k], Guards(nodes)[..k], [OfContext, OfExecutor] + Guards(nodes), gone)
         == [OfContext, OfExecutor] + EraseAt(nodes[..k], Guards(nodes)[..k], gone) + Guards(nodes)[k..]
  {
    var two, guards := [OfContext, OfExecutor], Guards(nodes);
    if k == 0 {
      assert guards[0..] == guards && two + [] == two;
    } else {
      var last := k - 1;
      assert nodes[..k][..last] == nodes[..last] && guards[..k][..last] == guards[..last];
      StopWaitingSoFar(nodes, last, gone);
      var kept := EraseAt(nodes[..last], guards[..last], gone);
      assert guards[last..] == [guards[last]] + guards[k..];
      if nodes[last] in gone {
        NotKeptBefore(nodes, last, gone);
        EraseInTheMiddle(two + kept, guards[last], guards[k..]);
        Regrouped(two, kept, guards[last], guards[k..]);
      } else {
        Regrouped(two, kept, guards[last], guards[k..]);
      }
    }
  }

  lemma Regrouped<T>(front: seq<T>, kept: seq<T>, x: T, rest: seq<T>)
    ensures front + kept + ([x] + rest) == front + (kept + [x]) + rest
    ensures front + kept + ([x] + rest) == front + kept + [x] + rest
  {
  }

  lemma NotKeptBefore(nodes: seq<Node>, k: nat, gone: set<Node>)
    requires Distinct(nodes) && k < |nodes|
    ensures Guards(nodes)[k] !in EraseAt(nodes[..k], Guards(nodes)[..k], gone)
  {
    var before := nodes[..k];
    assert Guards(nodes)[..k] == Guards(before);
    EraseKeepsAlignment(before, gone);
    assert nodes[k] !in before;
  }

  lemma CleanUpKeepsAligned(l: Lists, expired: set<Node>)
    requires Aligned(l)
    ensures Aligned(CleanedUp(l, expired))
  {
    var nodes := l.weakNodes;
    EraseKeepsAlignment(nodes, expired);
    StopWaitingSoFar(nodes, |nodes|, expired);
    assert nodes[..|nodes|] == nodes && Guards(nodes)[..|nodes|] == Guards(nodes) && Guards(nodes)[|nodes|..] == [];
    var kept := EraseAt(nodes, Guards(nodes), expired);
    assert [OfContext, OfExecutor] + kept + [] == [OfContext, OfExecutor] + kept;
  }

  lemma AddKeepsAligned(l: Lists, n: Node)
    requires Aligned(l)
    ensures Aligned(Added(l, n))
  {
    if n !in l.weakNodes {
      assert OfNode(n) !in l.waitedFor;
      assert Guards(l.weakNodes + [n]) == Guards(l.weakNodes) + [OfNode(n)];
    }
  }

  lemma RemoveKeepsAligned(l: Lists, n: Node, expired: set<Node>)
    requires Aligned(l) && n !in expired
    ensures Aligned(Removed(l, n, expired))
  {
    var nodes := l.weakNodes;
    assert {n} - expired == {n};
    EraseKeepsAlignment(nodes, {n});
    StopsWaitingForOne(nodes, n);
  }

  lemma EraseBehind<T>(front: seq<T>, xs: seq<T>, k: nat)
    requires k < |xs| && xs[k] !in front && xs[k] !in xs[..k]
    ensures EraseFirst(front + xs, xs[k]) == front + (xs[..k] + xs[k + 1..])
  {
    assert front + xs == (front + xs[..k]) + [xs[k]] + xs[k + 1..];
    EraseInTheMiddle(front + xs[..k], xs[k], xs[k + 1..]);
    assert front + xs[..k] + xs[k + 1..] == front + (xs[..k] + xs[k + 1..]);
  }

  lemma StopsWaitingForOne(nodes: seq<Node>, n: Node)
    requires Distinct(nodes)
    ensures EraseFirst([OfContext, OfExecutor] + Guards(nodes), OfNode(n))
         == [OfContext, OfExecutor] + EraseAt(nodes, Guards(nodes), {n})
  {
    var guards := Guards(nodes);
    if n in nodes {
      var k :| 0 <= k < |nodes| && nodes[k] == n;
      EraseBehind([OfContext, OfExecutor], guards, k);
      OnlyOneErased(nodes, guards, k);
    } else {
      NoneErased(nodes, guards, n);
    }
  }

  lemma {:induction false} NoneErased<T>(nodes: seq<Node>, xs: seq<T>, n: Node)
    requires |xs| == |nodes| && n !in nodes
    ensures EraseAt(nodes, xs, {n}) == xs
  {
    if nodes != [] {
      var last := |nodes| - 1;
      NoneErased(nodes[..last], xs[..last], n);
      assert xs == xs[..last] + [xs[last]];
    }
  }

  lemma {:induction false} OnlyOneErased<T>(nodes: seq<Node>, xs: seq<T>, k: nat)
    requires |xs| == |nodes| && k < |nodes| && Distinct(nodes)
    ensures EraseAt(nodes, xs, {nodes[k]}) == xs[..k] + xs[k + 1..]
  {
    var last := |nodes| - 1;
    if k == last {
      assert nodes[last] !in nodes[..last];
      NoneErased(nodes[..last], xs[..last], nodes[last]);
      assert xs[..k] + xs[k + 1..] == xs[..last];
    } else {
      OnlyOneErased(nodes[..last], xs[..last], k);
      assert xs[..last][..k] + xs[..last][k + 1..] + [xs[last]] == xs[..k] + xs[k + 1..];
    }
  }

  // ---- all executors ----

  ghost predicate AllAligned(w: World) {
    forall e :: e in w.executors ==> Aligned(w.executors[e])
  }

  lemma StepKeepsAligned(w: World, v: Event)
    requires AllAligned(w) && Sound(w)
    ensures AllAligned(Step(w, v)) && Sound(Step(w, v))
  {
    match v
    case Create(e) => assert Aligned(NewLists());
    case AddNode(e, n) => if e in w.executors { AddKeepsAligned(w.executors[e], n); }
    case RemoveNode(e, n) => if e in w.executors && n !in w.expired { RemoveKeepsAligned(w.executors[e], n, w.expired); }
    case Expire(n) =>
    case CleanUp(e) => if e in w.executors { CleanUpKeepsAligned(w.executors[e], w.expired); }
  }

  ghost function Run(events: seq<Event>): (w: World)
    ensures AllAligned(w) && Sound(w)
  {
    if events == [] then World(map[], {}, {})
    else
      var before := Run(events[..|events| - 1]);
      StepKeepsAligned(before, events[|events| - 1]);
      Step(before, events[|events| - 1])
  }

  // ---- one executor for a node ----

  predicate Holds(w: World, e: ExecutorId, n: Node) {
    e in w.executors && n in w.executors[e].weakNodes
  }

  // A live node is in one executor at most, and its flag is up as long as it is in one.
  ghost predicate Exclusive(w: World) {
    && (forall e, n :: Holds(w, e, n) && n !in w.expired ==> n in w.flagged)
    && (forall d, e, n :: Holds(w, d, n) && Holds(w, e, n) && n !in w.expired ==> d == e)
  }

  // A node is removed from the executor that it is in, if it is in any.
  ghost predicate Proper(w: World, v: Event) {
    v.RemoveNode? && v.n !in w.expired && v.e in w.executors ==> forall d :: Holds(w, d, v.n) ==> d == v.e
  }

  lemma HeldAfter(w: World, v: Event, e: ExecutorId, n: Node)
    requires AllAligned(w) && Sound(w)
    ensures Holds(Step(w, v), e, n) ==> Holds(w, e, n) || (v == AddNode(e, n) && n !in w.flagged)
    ensures v == RemoveNode(e, n) && n !in w.expired ==> !Holds(Step(w, v), e, n)
  {
    match v
    case RemoveNode(d, m) =>
      if d in w.executors && m !in w.expired {
        assert Aligned(w.executors[d]);
        EraseKeepsAlignment(w.executors[d].weakNodes, {m} - w.expired);
      }
    case CleanUp(d) =>
      if d in w.executors {
        assert Aligned(w.executors[d]);
        EraseKeepsAlignment(w.executors[d].weakNodes, w.expired);
      }
    case _ =>
  }

  lemma ProperStepKeepsExclusive(w: World, v: Event)
    requires AllAligned(w) && Sound(w) && Exclusive(w) && Proper(w, v)
    ensures Exclusive(Step(w, v))
  {
    var t := Step(w, v);
    forall e, n | Holds(t, e, n) && n !in t.expired ensures n in t.flagged { HeldAfter(w, v, e, n); }
    forall d, e, n | Holds(t, d, n) && Holds(t, e, n) && n !in t.expired ensures d == e {
      HeldAfter(w, v, d, n);
      HeldAfter(w, v, e, n);
    }
  }

  ghost predicate AllProper(events: seq<Event>) {
    forall k :: 0 <= k < |events| ==> Proper(Run(events[..k]), events[k])
  }

  // As long as nodes are removed only from where they are, no live node is in two executors.
  lemma {:induction false} ProperRunsAreExclusive(events: seq<Event>)
    requires AllProper(events)
    ensures Exclusive(Run(events))
  {
    if events != [] {
      var before, v := events[..|events| - 1], events[|events| - 1];
      forall k | 0 <= k < |before| ensures Proper(Run(before[..k]), before[k]) {
        assert events[..k] == before[..k];
        assert Proper(Run(events[..k]), events[k]);
      }
      assert events[..|before|] == before;
      ProperRunsAreExclusive(before);
      ProperStepKeepsExclusive(Run(before), v);
    }
  }

  // Any other removal opens the way: the node's flag goes down although another executor has it, and
  // the executor that never had it can then add it.
  lemma ImproperRemovalSharesTheNode(w: World, d: ExecutorId, e: ExecutorId, n: Node)
    requires AllAligned(w) && Sound(w) && n !in w.expired
    requires Holds(w, d, n) && e in w.executors && d != e
    ensures Sound(Step(w, RemoveNode(e, n)))
    ensures var t := Step(Step(w, RemoveNode(e, n)), AddNode(e, n)); Holds(t, d, n) && Holds(t, e, n)
  {
    StepKeepsAligned(w, RemoveNode(e, n));
  }
}
