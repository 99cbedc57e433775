/**
 * A scan of the node list that is going on while nodes are erased from the list.
 *
 * The list is the front of a storage. The scan runs up to the end that the list had when it began;
 * an erasure moves the later nodes one place down and leaves the last one behind, stale.
 */
module GraphListenerScan {

  type Node = nat

  predicate Distinct(nodes: seq<Node>) {
    forall i, j :: 0 <= i < j < |nodes| ==> nodes[i] != nodes[j]
  }

  function Position(nodes: seq<Node>, n: Node): (k: nat)
    ensures k <= |nodes| && (k < |nodes| <==> n in nodes)
    ensures k < |nodes| ==> nodes[k] == n
  {
    if nodes == [] then 0 else if nodes[0] == n then 0 else 1 + Position(nodes[1..], n)
  }

  function Without(nodes: seq<Node>, n: Node): (r: seq<Node>)
    ensures n !in nodes ==> r == nodes
    ensures n in nodes ==> |r| == |nodes| - 1
  {
    if nodes == [] then []
    else if nodes[0] == n then nodes[1..]
    else [nodes[0]] + Without(nodes[1..], n)
  }

  // What lies behind the list after erasing m, and after appending a node.
  function LeftBehind(nodes: seq<Node>, stale: seq<Node>, m: Node): seq<Node> {
    if m in nodes then [nodes[|nodes| - 1]] + stale else stale
  }

  function Overwritten(stale: seq<Node>): seq<Node> {
    if stale == [] then [] else stale[1..]
  }

  // Erasing m overtakes a scan for n that is about to read place i: n stands there, something
  // behind it, and m before it, so that n moves to a place that has been read.
  predicate Overtakes(nodes: seq<Node>, i: nat, n: Node, m: Node) {
    m in nodes && n in nodes && Position(nodes, m) < i == Position(nodes, n) < |nodes| - 1
  }

  // n is in the list, and what is still to be read does not hold it.
  predicate Missed(nodes: seq<Node>, stale: seq<Node>, i: nat, end: nat, n: Node)
    requires i <= end <= |nodes| + |stale|
  {
    n in nodes && n !in (nodes + stale)[i..end]
  }

  // Of the places behind the list, those that the scan will come to hold listed nodes only if it is
  // the last one.
  ghost predicate StaleOnlyLast(nodes: seq<Node>, stale: seq<Node>, end: nat)
    requires end <= |nodes| + |stale|
  {
    forall r :: |nodes| <= r < end && (nodes + stale)[r] in nodes ==> (nodes + stale)[r] == nodes[|nodes| - 1]
  }

  // ---- one erasure ----

  lemma {:induction false} WithoutAt(nodes: seq<Node>, n: Node, r: nat)
    requires n in nodes && r < |nodes| - 1
    ensures Without(nodes, n)[r] == if r < Position(nodes, n) then nodes[r] else nodes[r + 1]
  {
    if nodes[0] != n && r > 0 { WithoutAt(nodes[1..], n, r - 1); }
  }

  lemma ErasedStorage(nodes: seq<Node>, stale: seq<Node>, m: Node, r: nat)
    requires m in nodes && r < |nodes| + |stale|
    ensures var before, after := nodes + stale, Without(nodes, m) + LeftBehind(nodes, stale, m);
      && |after| == |before|
      && after[r] == if r < Position(nodes, m) || r >= |nodes| - 1 then before[r] else before[r + 1]
  {
    if r < |nodes| - 1 { WithoutAt(nodes, m, r); }
  }

  lemma ListedAfter(nodes: seq<Node>, m: Node, n: Node)
    requires Distinct(nodes)
    ensures n in Without(nodes, m) <==> n in nodes && n != m
    ensures Distinct(Without(nodes, m))
  {
    WithoutIsDifference(nodes, m);
  }

  lemma {:induction false} WithoutIsDifference(nodes: seq<Node>, n: Node)
    requires Distinct(nodes)
    ensures Distinct(Without(nodes, n))
    ensures forall m :: m in Without(nodes, n) <==> m in nodes && m != n
  {
    if nodes != [] {
      var rest := nodes[1..];
      forall i, j | 0 <= i < j < |rest| ensures rest[i] != rest[j] { assert nodes[i + 1] != nodes[j + 1]; }
      assert nodes == [nodes[0]] + rest;
      assert nodes[0] !in rest;
      WithoutIsDifference(rest, n);
    }
  }

  lemma LastAfter(nodes: seq<Node>, m: Node)
    requires Distinct(nodes) && m in nodes && m != nodes[|nodes| - 1]
    ensures Without(nodes, m) != [] && Without(nodes, m)[|nodes| - 2] == nodes[|nodes| - 1]
  {
    WithoutAt(nodes, m, |nodes| - 2);
  }

  lemma EraseKeepsStale(nodes: seq<Node>, stale: seq<Node>, end: nat, m: Node)
    requires Distinct(nodes) && m in nodes && |nodes| <= end <= |nodes| + |stale|
    requires StaleOnlyLast(nodes, stale, end)
    ensures StaleOnlyLast(Without(nodes, m), LeftBehind(nodes, stale, m), end)
  {
    var before, after := nodes + stale, Without(nodes, m) + LeftBehind(nodes, stale, m);
    forall r | |nodes| - 1 <= r < end && after[r] in Without(nodes, m)
      ensures after[r] == Without(nodes, m)[|nodes| - 2]
    {
      ErasedStorage(nodes, stale, m, r);
      ListedAfter(nodes, m, after[r]);
      assert after[r] == nodes[|nodes| - 1];
      LastAfter(nodes, m);
    }
  }

  lemma InRange(storage: seq<Node>, i: nat, end: nat, n: Node, r: nat)
    requires i <= r < end <= |storage| && storage[r] == n
    ensures n in storage[i..end]
  {
    assert storage[i..end][r - i] == n;
  }

  lemma FoundInRange(storage: seq<Node>, i: nat, end: nat, n: Node) returns (r: nat)
    requires i <= end <= |storage| && n in storage[i..end]
    ensures i <= r < end && storage[r] == n
  {
    var k :| 0 <= k < end - i && storage[i..end][k] == n;
    r := i + k;
  }

  // A scan that could still find n cannot after the erasure of another node exactly if that
  // overtakes it.
  lemma EraseMisses(nodes: seq<Node>, stale: seq<Node>, i: nat, end: nat, n: Node, m: Node)
    requires Distinct(nodes) && m in nodes && n in nodes && n != m
    requires i <= end && |nodes| <= end <= |nodes| + |stale| && StaleOnlyLast(nodes, stale, end)
    ensures Missed(Without(nodes, m), LeftBehind(nodes, stale, m), i, end, n)
            <==> Missed(nodes, stale, i, end, n) || Overtakes(nodes, i, n, m)
  {
    ListedAfter(nodes, m, n);
    if Missed(nodes, stale, i, end, n) {
      MissedStays(nodes, stale, i, end, n, m);
    } else if Overtakes(nodes, i, n, m) {
      OvertakenMisses(nodes, stale, i, end, n, m);
    } else {
      StillFound(nodes, stale, i, end, n, m);
    }
  }

  lemma MissedStays(nodes: seq<Node>, stale: seq<Node>, i: nat, end: nat, n: Node, m: Node)
    requires Distinct(nodes) && m in nodes && n in nodes && n != m
    requires i <= end && |nodes| <= end <= |nodes| + |stale| && Missed(nodes, stale, i, end, n)
    ensures n !in (Without(nodes, m) + LeftBehind(nodes, stale, m))[i..end]
  {
    var before, after := nodes + stale, Without(nodes, m) + LeftBehind(nodes, stale, m);
    ErasedStorage(nodes, stale, m, 0);
    if n in after[i..end] {
      var r := FoundInRange(after, i, end, n);
      ErasedStorage(nodes, stale, m, r);
      InRange(before, i, end, n, if r < Position(nodes, m) || r >= |nodes| - 1 then r else r + 1);
    }
  }

  lemma OvertakenMisses(nodes: seq<Node>, stale: seq<Node>, i: nat, end: nat, n: Node, m: Node)
    requires Distinct(nodes) && Overtakes(nodes, i, n, m)
    requires i <= end && |nodes| <= end <= |nodes| + |stale| && StaleOnlyLast(nodes, stale, end)
    ensures n !in (Without(nodes, m) + LeftBehind(nodes, stale, m))[i..end]
  {
    var before, after := nodes + stale, Without(nodes, m) + LeftBehind(nodes, stale, m);
    ErasedStorage(nodes, stale, m, 0);
    forall r | i <= r < end ensures after[r] != n { ErasedStorage(nodes, stale, m, r); }
  }

  // Where what stands at place r is after the erasure.
  lemma WhereItGoes(nodes: seq<Node>, stale: seq<Node>, m: Node, r: nat) returns (r': nat)
    requires m in nodes && r < |nodes| + |stale| && (nodes + stale)[r] != m
    ensures r' == if r < Position(nodes, m) || r >= |nodes| - 1 then r else r - 1
    ensures var after := Without(nodes, m) + LeftBehind(nodes, stale, m);
      |after| == |nodes| + |stale| && after[r'] == (nodes + stale)[r]
  {
    r' := if r < Position(nodes, m) || r >= |nodes| - 1 then r else r - 1;
    ErasedStorage(nodes, stale, m, r');
  }

  lemma StillFound(nodes: seq<Node>, stale: seq<Node>, i: nat, end: nat, n: Node, m: Node)
    requires Distinct(nodes) && m in nodes && n in nodes && n != m
    requires i <= end && |nodes| <= end <= |nodes| + |stale|
    requires n in (nodes + stale)[i..end] && !Overtakes(nodes, i, n, m)
    ensures n in (Without(nodes, m) + LeftBehind(nodes, stale, m))[i..end]
  {
    var r := FoundInRange(nodes + stale, i, end, n);
    StaysInRange(nodes, stale, i, end, n, m, r);
  }

  // n stays at or above i: it moves down from i only if it is overtaken.
  lemma NotBelow(nodes: seq<Node>, i: nat, n: Node, m: Node, r: nat)
    requires m in nodes && n in nodes && n != m && !Overtakes(nodes, i, n, m) && i <= r
    requires r < |nodes| ==> Position(nodes, n) == r
    ensures r < Position(nodes, m) || r >= |nodes| - 1 || i <= r - 1
  {
  }

  lemma StaysInRange(nodes: seq<Node>, stale: seq<Node>, i: nat, end: nat, n: Node, m: Node, r: nat)
    requires m in nodes && n in nodes && n != m && !Overtakes(nodes, i, n, m)
    requires i <= r < end && |nodes| <= end <= |nodes| + |stale| && (nodes + stale)[r] == n
    requires r < |nodes| ==> Position(nodes, n) == r
    ensures n in (Without(nodes, m) + LeftBehind(nodes, stale, m))[i..end]
  {
    var r' := WhereItGoes(nodes, stale, m, r);
    NotBelow(nodes, i, n, m, r);
    InRange(Without(nodes, m) + LeftBehind(nodes, stale, m), i, end, n, r');
  }
}
