/**
 * Executors and their nodes: two parallel lists in each executor, the guard conditions it waits
 * for, and in each node a flag that says whether it belongs to an executor.
 */
module NodeListsSpec {

  type Node = nat
  type ExecutorId = nat

  // A guard condition belongs to the context, to the executor or to a node.
  datatype Guard = OfContext | OfExecutor | OfNode(node: Node)

  datatype Lists = Lists(
    weakNodes: seq<Node>,
    guardConditions: seq<Guard>,
    waitedFor: seq<Guard>)      // what the memory strategy waits for

  function NewLists(): Lists {
    Lists([], [], [OfContext, OfExecutor])
  }

  // The first occurrence erased, as remove_guard_condition does.
  function EraseFirst<T(==)>(xs: seq<T>, x: T): (r: seq<T>)
    ensures x !in xs ==> r == xs
  {
    if xs == [] then []
    else if xs[0] == x then xs[1..]
    else [xs[0]] + EraseFirst(xs[1..], x)
  }

  function AddOnce<T(==)>(xs: seq<T>, x: T): seq<T> {
    if x in xs then xs else xs + [x]
  }

  // The places at which the list of nodes holds one of `gone`, erased from a list.
  function EraseAt<T>(nodes: seq<Node>, xs: seq<T>, gone: set<Node>): seq<T>
    requires |xs| == |nodes|
  {
    if nodes == [] then []
    else
      var last := |nodes| - 1;
      EraseAt(nodes[..last], xs[..last], gone) + if nodes[last] in gone then [] else [xs[last]]
  }

  // The guard conditions at those places, erased from what is waited for.
  function StopWaiting(nodes: seq<Node>, guards: seq<Guard>, waitedFor: seq<Guard>, gone: set<Node>): seq<Guard>
    requires |guards| == |nodes|
  {
    if nodes == [] then waitedFor
    else
      var last := |nodes| - 1;
      var before := StopWaiting(nodes[..last], guards[..last], waitedFor, gone);
      if nodes[last] in gone then EraseFirst(before, guards[last]) else before
  }

  datatype Refusal = HasExecutor | AlreadyAdded

  // The lists after add_node, once the node's flag was found down.
  function Added(l: Lists, n: Node): Lists {
    if n in l.weakNodes then l
    else Lists(l.weakNodes + [n], l.guardConditions + [OfNode(n)], AddOnce(l.waitedFor, OfNode(n)))
  }

  function Removed(l: Lists, n: Node, expired: set<Node>): Lists
    requires |l.guardConditions| == |l.weakNodes|
  {
    var gone := {n} - expired;
    Lists(EraseAt(l.weakNodes, l.weakNodes, gone), EraseAt(l.weakNodes, l.guardConditions, gone),
          EraseFirst(l.waitedFor, OfNode(n)))
  }

  function CleanedUp(l: Lists, expired: set<Node>): Lists
    requires |l.guardConditions| == |l.weakNodes|
  {
    Lists(EraseAt(l.weakNodes, l.weakNodes, expired), EraseAt(l.weakNodes, l.guardConditions, expired),
          StopWaiting(l.weakNodes, l.guardConditions, l.waitedFor, expired))
  }

  // ---- several executors ----

  datatype World = World(
    executors: map<ExecutorId, Lists>,
    flagged: set<Node>,         // has_executor
    expired: set<Node>)

  datatype Event =
    | Create(e: ExecutorId)
    | AddNode(e: ExecutorId, n: Node)
    | RemoveNode(e: ExecutorId, n: Node)
    | Expire(n: Node)           // the node's last owner lets go of it
    | CleanUp(e: ExecutorId)    // collecting the entities meets an expired node

  predicate Sound(w: World) {
    forall e :: e in w.executors ==> |w.executors[e].guardConditions| == |w.executors[e].weakNodes|
  }

  // The caller of add_node and remove_node holds the node.
  function Step(w: World, v: Event): World
    requires Sound(w)
  {
    match v
    case Create(e) => if e in w.executors then w else w.(executors := w.executors[e := NewLists()])
    case AddNode(e, n) =>
      if e !in w.executors || n in w.expired || n in w.flagged then w
      else w.(flagged := w.flagged + {n}, executors := w.executors[e := Added(w.executors[e], n)])
    case RemoveNode(e, n) =>
      if e !in w.executors || n in w.expired then w
      else w.(flagged := w.flagged - {n}, executors := w.executors[e := Removed(w.executors[e], n, w.expired)])
    case Expire(n) => w.(expired := w.expired + {n})
    case CleanUp(e) =>
      if e !in w.executors then w
      else w.(executors := w.executors[e := CleanedUp(w.executors[e], w.expired)])
  }
}
