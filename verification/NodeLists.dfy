/**
 * The executor's loops over its two lists of nodes.
 *
 * The nodes and their guard conditions stand in two lists at the same places. Each loop walks both
 * with two iterators, erases from both where a node matches or has expired, and steps both on where
 * it does not. What is waited for is a third list, kept by the memory strategy.
 */
module NodeLists {

  import opened Wrappers
  import opened NodeListsSpec

  class Node {
    const id: nat
    var hasExecutor: bool
    var expired: bool

    constructor (id: nat)
      ensures this.id == id && !hasExecutor && !expired && fresh(this)
    {
      this.id := id;
      hasExecutor, expired := false, false;
    }
  }

  class ExecutorNodes {
    var weakNodes: seq<nat>
    var guardConditions: seq<Guard>
    var waitedFor: seq<Guard>

    function State(): Lists
      reads this
    {
      Lists(weakNodes, guardConditions, waitedFor)
    }

    constructor ()
      ensures State() == NewLists()
    {
      weakNodes, guardConditions, waitedFor := [], [], [OfContext, OfExecutor];
    }

    method AddGuardCondition(g: Guard)
      modifies `waitedFor
      ensures waitedFor == AddOnce(old(waitedFor), g)
    {
      for i := 0 to |waitedFor|
        invariant g !in waitedFor[..i]
      {
        if waitedFor[i] == g { return; }
      }
      waitedFor := waitedFor + [g];
    }

    method RemoveGuardCondition(g: Guard)
      modifies `waitedFor
      ensures waitedFor == EraseFirst(old(waitedFor), g)
    {
      for i := 0 to |waitedFor|
        invariant waitedFor == old(waitedFor) && g !in waitedFor[..i]
      {
        if waitedFor[i] == g {
          ErasedFirst(waitedFor, i);
          waitedFor := waitedFor[..i] + waitedFor[i + 1..];
          return;
        }
      }
    }

    method AddNode(node: Node) returns (refused: Option<Refusal>)
      requires !node.expired
      modifies this, node`hasExecutor
      ensures node.hasExecutor
      ensures old(node.hasExecutor) ==> refused == Some(HasExecutor) && State() == old(State())
      ensures !old(node.hasExecutor) ==>
        && refused == (if node.id in old(weakNodes) then Some(AlreadyAdded) else None)
        && State() == Added(old(State()), node.id)
    {
      var had := node.hasExecutor;
      node.hasExecutor := true;
      if had { return Some(HasExecutor); }
      for i := 0 to |weakNodes|
        invariant State() == old(State()) && node.id !in weakNodes[..i]
      {
        if weakNodes[i] == node.id { return Some(AlreadyAdded); }
      }
      weakNodes := weakNodes + [node.id];
      guardConditions := guardConditions + [OfNode(node.id)];
      AddGuardCondition(OfNode(node.id));
      return None;
    }

    // Both loops that erase from the two lists walk them side by side.
    method RemoveNode(node: Node) returns (removed: bool)
      requires !node.expired && |guardConditions| == |weakNodes|
      modifies this, node`hasExecutor
      ensures !node.hasExecutor
      ensures removed <==> node.id in old(weakNodes)
      ensures State() == Removed(old(State()), node.id, {})
    {
      removed := EraseNode(node.id);
      assert {node.id} - {} == {node.id};
      node.hasExecutor := false;
      RemoveGuardCondition(OfNode(node.id));
    }

    method EraseNode(id: nat) returns (removed: bool)
      requires |guardConditions| == |weakNodes|
      modifies `weakNodes, `guardConditions
      ensures removed <==> id in old(weakNodes)
      ensures weakNodes == EraseAt(old(weakNodes), old(weakNodes), {id})
      ensures guardConditions == EraseAt(old(weakNodes), old(guardConditions), {id})
    {
      ghost var nodes, guards := weakNodes, guardConditions;
      removed := false;
      var it := 0;
      ghost var k := 0;
      while it < |weakNodes|
        invariant 0 <= k <= |nodes| && Walked(nodes, guards, weakNodes, guardConditions, {id}, it, k)
        invariant removed <==> id in nodes[..k]
        decreases |weakNodes| - it
      {
        WalkOn(nodes, guards, weakNodes, guardConditions, {id}, it, k);
        InOneMore(nodes, k, id);
        if weakNodes[it] == id {
          weakNodes := weakNodes[..it] + weakNodes[it + 1..];
          guardConditions := guardConditions[..it] + guardConditions[it + 1..];
          removed := true;
        } else {
          it := it + 1;
        }
        k := k + 1;
      }
      WalkEnds(nodes, guards, weakNodes, guardConditions, {id}, it, k);
    }

    method CleanUp(expired: set<nat>)
      requires |guardConditions| == |weakNodes|
      modifies this
      ensures State() == CleanedUp(old(State()), expired)
    {
      ghost var nodes, guards := weakNodes, guardConditions;
      var it := 0;
      ghost var k := 0;
      while it < |weakNodes|
        invariant 0 <= k <= |nodes| && Walked(nodes, guards, weakNodes, guardConditions, expired, it, k)
        invariant waitedFor == StopWaiting(nodes[..k], guards[..k], old(waitedFor), expired)
        decreases |weakNodes| - it
      {
        WalkOn(nodes, guards, weakNodes, guardConditions, expired, it, k);
        OneGuardMore(nodes, guards, old(waitedFor), expired, k);
        if weakNodes[it] in expired {
          weakNodes := weakNodes[..it] + weakNodes[it + 1..];
          RemoveGuardCondition(guardConditions[it]);
          guardConditions := guardConditions[..it] + guardConditions[it + 1..];
        } else {
          it := it + 1;
        }
        k := k + 1;
      }
      WalkEnds(nodes, guards, weakNodes, guardConditions, expired, it, k);
    }
  }

  // After k of the original places, the first `it` places are what is kept of them, and the rest of
  // both lists is still to come.
  ghost predicate Walked(nodes: seq<nat>, guards: seq<Guard>, ns: seq<nat>, gs: seq<Guard>, gone: set<nat>, it: nat, k: nat) {
    && |guards| == |nodes| && k <= |nodes| && it <= |ns| == |gs|
    && ns == EraseAt(nodes[..k], nodes[..k], gone) + nodes[k..]
    && gs == EraseAt(nodes[..k], guards[..k], gone) + guards[k..]
    && it == |EraseAt(nodes[..k], nodes[..k], gone)| == |EraseAt(nodes[..k], guards[..k], gone)|
  }

  lemma OnePlaceMore<T>(nodes: seq<nat>, xs: seq<T>, gone: set<nat>, k: nat)
    requires |xs| == |nodes| && k < |nodes|
    ensures EraseAt(nodes[..k + 1], xs[..k + 1], gone)
         == EraseAt(nodes[..k], xs[..k], gone) + if nodes[k] in gone then [] else [xs[k]]
  {
    assert nodes[..k + 1][..k] == nodes[..k] && xs[..k + 1][..k] == xs[..k];
  }

  lemma OneGuardMore(nodes: seq<nat>, guards: seq<Guard>, waitedFor: seq<Guard>, gone: set<nat>, k: nat)
    requires |guards| == |nodes| && k < |nodes|
    ensures var before := StopWaiting(nodes[..k], guards[..k], waitedFor, gone);
      StopWaiting(nodes[..k + 1], guards[..k + 1], waitedFor, gone)
      == if nodes[k] in gone then EraseFirst(before, guards[k]) else before
  {
    assert nodes[..k + 1][..k] == nodes[..k] && guards[..k + 1][..k] == guards[..k];
  }

  lemma Dropped<T>(kept: seq<T>, xs: seq<T>, k: nat, it: nat)
    requires k < |xs| && it == |kept|
    ensures (kept + xs[k..])[it] == xs[k]
    ensures (kept + xs[k..])[..it] + (kept + xs[k..])[it + 1..] == kept + xs[k + 1..]
    ensures kept + xs[k..] == kept + [xs[k]] + xs[k + 1..]
  {
  }

  lemma InOneMore(nodes: seq<nat>, k: nat, id: nat)
    requires k < |nodes|
    ensures id in nodes[..k + 1] <==> id in nodes[..k] || id == nodes[k]
  {
    assert nodes[..k + 1] == nodes[..k] + [nodes[k]];
  }

  lemma WalkOn(nodes: seq<nat>, guards: seq<Guard>, ns: seq<nat>, gs: seq<Guard>, gone: set<nat>, it: nat, k: nat)
    requires Walked(nodes, guards, ns, gs, gone, it, k) && it < |ns|
    ensures k < |nodes| && ns[it] == nodes[k] && gs[it] == guards[k]
    ensures nodes[k] in gone ==>
      Walked(nodes, guards, ns[..it] + ns[it + 1..], gs[..it] + gs[it + 1..], gone, it, k + 1)
    ensures nodes[k] !in gone ==> Walked(nodes, guards, ns, gs, gone, it + 1, k + 1)
  {
    var keptN, keptG := EraseAt(nodes[..k], nodes[..k], gone), EraseAt(nodes[..k], guards[..k], gone);
    OnePlaceMore(nodes, nodes, gone, k);
    OnePlaceMore(nodes, guards, gone, k);
    Dropped(keptN, nodes, k, it);
    Dropped(keptG, guards, k, it);
  }

  lemma WalkEnds(nodes: seq<nat>, guards: seq<Guard>, ns: seq<nat>, gs: seq<Guard>, gone: set<nat>, it: nat, k: nat)
    requires Walked(nodes, guards, ns, gs, gone, it, k) && it == |ns|
    ensures k == |nodes| && ns == EraseAt(nodes, nodes, gone) && gs == EraseAt(nodes, guards, gone)
    ensures nodes[..k] == nodes && guards[..k] == guards
  {
    assert k == |nodes|;
    assert nodes[..k] == nodes && guards[..k] == guards && nodes[k..] == [] && guards[k..] == [];
    var keptN, keptG := EraseAt(nodes, nodes, gone), EraseAt(nodes, guards, gone);
    assert keptN + [] == keptN && keptG + [] == keptG;
  }

  lemma {:induction false} ErasedFirst<T>(xs: seq<T>, i: nat)
    requires i < |xs| && xs[i] !in xs[..i]
    ensures EraseFirst(xs, xs[i]) == xs[..i] + xs[i + 1..]
  {
    if i > 0 {
      assert xs[0] == xs[..i][0];
      assert xs[1..][..i - 1] == xs[..i][1..];
      ErasedFirst(xs[1..], i - 1);
    }
  }
}
