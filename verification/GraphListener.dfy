/**
 * The graph listener's list operations and the two loops of one round of its thread, as they run
 * while the nodes mutex is held.
 */
module GraphListener {

  import opened Wrappers
  import opened GraphListenerScan
  import opened GraphListenerSpec

  // What a wait set holds. A guard condition belongs to a node, or is one of the listener's two.
  datatype Guard = Interrupt | ContextShutdown | Graph(node: Node)

  // The nodes of a list that some user watches and whose guard condition was triggered.
  function ToTell(nodes: seq<Node>, watched: set<Node>, triggered: set<Guard>): (r: seq<Node>)
    ensures forall n :: n in r <==> n in nodes && n in watched && Graph(n) in triggered
  {
    if nodes == [] then []
    else
      var last := nodes[|nodes| - 1];
      ToTell(nodes[..|nodes| - 1], watched, triggered)
        + if last in watched && Graph(last) in triggered then [last] else []
  }

  lemma ToldOneMore(nodes: seq<Node>, i: nat, watched: set<Node>, triggered: set<Guard>)
    requires i < |nodes|
    ensures ToTell(nodes[..i + 1], watched, triggered)
         == ToTell(nodes[..i], watched, triggered)
            + if nodes[i] in watched && Graph(nodes[i]) in triggered then [nodes[i]] else []
  {
    var more := nodes[..i + 1];
    assert more[..|more| - 1] == nodes[..i];
  }

  // Where node i's guard condition stands in the wait set; 0 if it was left out.
  predicate Placed(waitSet: seq<Guard>, indexes: seq<nat>, nodes: seq<Node>, watched: set<Node>, i: nat)
    requires i < |indexes| && i < |nodes|
  {
    && indexes[i] < |waitSet|
    && waitSet[indexes[i]] == if nodes[i] in watched then Graph(nodes[i]) else Interrupt
  }

  // What rcl_wait leaves of a wait set.
  function Emptied(waitSet: seq<Guard>, triggered: set<Guard>): (left: seq<Option<Guard>>)
    ensures |left| == |waitSet|
    ensures forall k :: 0 <= k < |left| ==> left[k] == if waitSet[k] in triggered then Some(waitSet[k]) else None
  {
    seq(|waitSet|, k requires 0 <= k < |waitSet| => if waitSet[k] in triggered then Some(waitSet[k]) else None)
  }

  lemma LeftIfTriggered(waitSet: seq<Guard>, indexes: seq<nat>, nodes: seq<Node>, watched: set<Node>, triggered: set<Guard>, i: nat)
    requires i < |indexes| && i < |nodes| && Placed(waitSet, indexes, nodes, watched, i)
    ensures Emptied(waitSet, triggered)[indexes[i]] == Some(Graph(nodes[i])) <==> nodes[i] in watched && Graph(nodes[i]) in triggered
  {
  }

  class GraphListener {
    var nodes: seq<Node>
    var isStarted: bool
    var isShutdown: bool

    constructor ()
      ensures nodes == [] && !isStarted && !isShutdown
    {
      nodes, isStarted, isShutdown := [], false, false;
    }

    method HasNode_(node: Node) returns (found: bool)
      ensures found <==> node in nodes
    {
      for i := 0 to |nodes|
        invariant node !in nodes[..i]
      {
        if node == nodes[i] { return true; }
      }
      return false;
    }

    method RemoveNode_(node: Node) returns (outcome: Outcome)
      modifies this`nodes
      ensures outcome == if node in old(nodes) then Finished else NodeNotFound
      ensures nodes == Without(old(nodes), node)
    {
      var it := 0;
      while it < |nodes|
        invariant it <= |nodes| && nodes == old(nodes) && node !in nodes[..it]
      {
        if node == nodes[it] {
          ErasedIsWithout(nodes, it);
          nodes := nodes[..it] + nodes[it + 1..];
          return Finished;
        }
        it := it + 1;
      }
      return NodeNotFound;
    }

    method HasNode(node: Option<Node>) returns (found: bool)
      ensures Answer(found) == Found(nodes, GraphListenerSpec.HasNode(node))
    {
      if node == None { return false; }
      found := HasNode_(node.value);
    }

    method AddNode(node: Option<Node>) returns (outcome: Outcome)
      modifies this`nodes
      ensures node.Some? && isShutdown ==> outcome == ShutdownError && nodes == old(nodes)
      ensures node.None? || !isShutdown ==> outcome == Found(old(nodes), GraphListenerSpec.AddNode(node))
                                            && nodes == Effect(old(nodes), GraphListenerSpec.AddNode(node))
    {
      if node == None { return InvalidArgument; }
      if isShutdown { return ShutdownError; }
      var present := HasNode_(node.value);
      if present { return NodeAlreadyAdded; }
      nodes := nodes + [node.value];
      return Finished;
    }

    method RemoveNode(node: Option<Node>) returns (outcome: Outcome)
      modifies this`nodes
      ensures outcome == Found(old(nodes), GraphListenerSpec.RemoveNode(node))
      ensures nodes == Effect(old(nodes), GraphListenerSpec.RemoveNode(node))
    {
      if node == None { return InvalidArgument; }
      outcome := RemoveNode_(node.value);
    }

    method StartIfNotStarted() returns (outcome: Outcome)
      modifies this`isStarted
      ensures outcome == if isShutdown then ShutdownError else Finished
      ensures isStarted == (old(isStarted) || !isShutdown)
    {
      if isShutdown { return ShutdownError; }
      if !isStarted { isStarted := true; }
      return Finished;
    }

    // Says whether there is a thread to interrupt and join.
    method Shutdown() returns (joins: bool)
      modifies this`isShutdown
      ensures isShutdown && joins == (!old(isShutdown) && isStarted)
    {
      var was := isShutdown;
      isShutdown := true;
      joins := !was && isStarted;
    }

    // The first loop of a round: the wait set, and where each node's guard condition stands in it.
    method FillWaitSet(watched: set<Node>) returns (waitSet: seq<Guard>, indexes: array<nat>)
      ensures fresh(indexes) && indexes.Length == |nodes|
      ensures |waitSet| >= 2 && waitSet[..2] == [Interrupt, ContextShutdown]
      ensures forall i :: 0 <= i < |nodes| ==> Placed(waitSet, indexes[..], nodes, watched, i)
    {
      waitSet := [Interrupt, ContextShutdown];
      indexes := new nat[|nodes|](_ => 0);
      for i := 0 to |nodes|
        invariant |waitSet| >= 2 && waitSet[..2] == [Interrupt, ContextShutdown]
        invariant forall j :: i <= j < |nodes| ==> indexes[j] == 0
        invariant forall j :: 0 <= j < i ==> Placed(waitSet, indexes[..], nodes, watched, j)
      {
        ghost var before, was := waitSet, indexes[..];
        if nodes[i] in watched {
          indexes[i] := |waitSet|;
          waitSet := waitSet + [Graph(nodes[i])];
        }
        forall j | 0 <= j < i ensures Placed(waitSet, indexes[..], nodes, watched, j) {
          assert Placed(before, was, nodes, watched, j);
        }
      }
    }

    // The second loop, after rcl_wait has emptied the places of what was not triggered.
    method Notify(waitSet: seq<Guard>, indexes: array<nat>, ghost watched: set<Node>, triggered: set<Guard>)
      returns (changed: seq<Node>, down: seq<Node>)
      requires indexes.Length == |nodes| && |waitSet| >= 2 && waitSet[1] == ContextShutdown
      requires forall i :: 0 <= i < |nodes| ==> Placed(waitSet, indexes[..], nodes, watched, i)
      ensures changed == ToTell(nodes, watched, triggered)
      ensures down == if ContextShutdown in triggered then nodes else []
    {
      var left := Emptied(waitSet, triggered);
      changed, down := [], [];
      for i := 0 to |nodes|
        invariant changed == ToTell(nodes[..i], watched, triggered)
        invariant down == if ContextShutdown in triggered then nodes[..i] else []
      {
        ToldOneMore(nodes, i, watched, triggered);
        LeftIfTriggered(waitSet, indexes[..], nodes, watched, triggered, i);
        if left[indexes[i]] == Some(Graph(nodes[i])) { changed := changed + [nodes[i]]; }
        assert nodes[..i + 1] == nodes[..i] + [nodes[i]];
        if left[1] == Some(ContextShutdown) { down := down + [nodes[i]]; }
      }
      assert nodes[..|nodes|] == nodes;
    }

    // One round of the thread: exactly the watched nodes whose guard condition was triggered are
    // told of a change, in order, and all of them of a shutdown.
    method Round(watched: set<Node>, triggered: set<Guard>) returns (changed: seq<Node>, down: seq<Node>)
      ensures changed == ToTell(nodes, watched, triggered)
      ensures down == if ContextShutdown in triggered then nodes else []
    {
      var waitSet, indexes := FillWaitSet(watched);
      assert waitSet[1] == waitSet[..2][1];
      changed, down := Notify(waitSet, indexes, watched, triggered);
    }
  }

  lemma {:induction false} ErasedIsWithout(nodes: seq<Node>, it: nat)
    requires it < |nodes| && nodes[it] !in nodes[..it]
    ensures Without(nodes, nodes[it]) == nodes[..it] + nodes[it + 1..]
  {
    if it > 0 {
      assert nodes[0] == nodes[..it][0];
      assert nodes[1..][..it - 1] == nodes[..it][1..];
      ErasedIsWithout(nodes[1..], it - 1);
    }
  }
}
