/**
 * The log of a run against a listener that one thread uses, and the scan that is going on.
 *
 * Each operation is logged where it takes effect. A scan of has_node that finds its node is logged
 * where it began, because the node it has found may be gone by then; one that ends without it is
 * logged at its end. The invariant ties the list and the flag to the log's replay, and says of a
 * scan that is going on which nodes have been listed since it began and whether its own is lost.
 */
module GraphListenerSerial {

  import opened Wrappers
  import opened GraphListenerScan
  import opened GraphListenerSpec
  import opened GraphListenerRun

  // ---- one sequential listener ----

  datatype Serial = Serial(nodes: seq<Node>, down: bool)

  // What an operation on a listener used by one thread may come to. Asking a listener that was
  // shut down either still works or fails at the interrupt.
  predicate Allowed(z: Serial, e: Entry) {
    match e.op
    case HasNode(n) => e.outcome == Found(z.nodes, e.op) || (n.Some? && z.down && e.outcome == InterruptFailed)
    case AddNode(n) => e.outcome == if n.Some? && z.down then ShutdownError else Found(z.nodes, e.op)
    case RemoveNode(_) => e.outcome == Found(z.nodes, e.op)
    case Start => e.outcome == if z.down then ShutdownError else Finished
    case Shutdown => e.outcome == Finished
  }

  function After(z: Serial, e: Entry): Serial {
    if e.op.Shutdown? then z.(down := true)
    else if e.outcome == ShutdownError || e.outcome == InterruptFailed then z
    else z.(nodes := Effect(z.nodes, e.op))
  }

  function Replay(log: seq<Entry>): Serial {
    if log == [] then Serial([], false) else After(Replay(log[..|log| - 1]), log[|log| - 1])
  }

  // Every entry is allowed where it stands; without `asking`, every entry but those of has_node.
  ghost predicate Good(log: seq<Entry>, asking: bool) {
    forall k :: 0 <= k < |log| && (asking || !log[k].op.HasNode?) ==> Allowed(Replay(log[..k]), log[k])
  }

  ghost predicate Legal(log: seq<Entry>) {
    Good(log, true)
  }

  lemma OneMore(log: seq<Entry>, e: Entry, asking: bool)
    ensures var more := log + [e];
      && Replay(more) == After(Replay(log), e)
      && (Good(more, asking) <==> Good(log, asking) && (asking || !e.op.HasNode? ==> Allowed(Replay(log), e)))
  {
    var more := log + [e];
    assert more[..|log|] == log;
    if Good(more, asking) {
      forall k | 0 <= k < |log| && (asking || !log[k].op.HasNode?) ensures Allowed(Replay(log[..k]), log[k]) {
        assert more[..k] == log[..k] && more[k] == log[k];
      }
      assert more[|log|] == e;
    }
    if Good(log, asking) && (asking || !e.op.HasNode? ==> Allowed(Replay(log), e)) {
      forall k | 0 <= k < |more| && (asking || !more[k].op.HasNode?) ensures Allowed(Replay(more[..k]), more[k]) {
        if k < |log| { assert more[..k] == log[..k]; }
      }
    }
  }

  function Inserted(log: seq<Entry>, k: nat, e: Entry): seq<Entry>
    requires k <= |log|
  {
    log[..k] + [e] + log[k..]
  }

  // Asking changes nothing, so that an entry of has_node put in between leaves the others allowed or
  // not, as they were.
  lemma InsertedIsGood(log: seq<Entry>, k: nat, e: Entry, asking: bool)
    requires k <= |log| && e.op.HasNode?
    ensures Replay(Inserted(log, k, e)) == Replay(log)
    ensures Good(Inserted(log, k, e), asking) <==> Good(log, asking) && (asking ==> Allowed(Replay(log[..k]), e))
  {
    assert log == log[..k] + log[k..];
    InsertedBetween(log[..k], log[k..], e, asking, Inserted(log, k, e), log);
  }

  lemma {:induction false} InsertedBetween(front: seq<Entry>, back: seq<Entry>, e: Entry, asking: bool,
                                           more: seq<Entry>, log: seq<Entry>)
    requires e.op.HasNode? && more == front + [e] + back && log == front + back
    ensures Replay(more) == Replay(log)
    ensures Good(more, asking) <==> Good(log, asking) && (asking ==> Allowed(Replay(front), e))
    decreases |back|
  {
    if back == [] {
      NothingBehind(front, e);
      OneMore(front, e, asking);
    } else {
      var rest, last := back[..|back| - 1], back[|back| - 1];
      LastBehind(front, rest, last, e);
      assert back == rest + [last];
      InsertedBetween(front, rest, e, asking, front + [e] + rest, front + rest);
      OneMoreBehind(front + [e] + rest, front + rest, last, asking, asking ==> Allowed(Replay(front), e));
    }
  }

  lemma NothingBehind(front: seq<Entry>, e: Entry)
    ensures front + [e] + [] == front + [e] && front + [] == front
  {
  }

  lemma LastBehind(front: seq<Entry>, rest: seq<Entry>, last: Entry, e: Entry)
    ensures front + [e] + (rest + [last]) == front + [e] + rest + [last]
    ensures front + (rest + [last]) == front + rest + [last]
  {
  }

  lemma OneMoreBehind(more: seq<Entry>, log: seq<Entry>, last: Entry, asking: bool, fits: bool)
    requires Replay(more) == Replay(log) && (Good(more, asking) <==> Good(log, asking) && fits)
    ensures Replay(more + [last]) == Replay(log + [last])
    ensures Good(more + [last], asking) <==> Good(log + [last], asking) && fits
  {
    OneMore(more, last, asking);
    OneMore(log, last, asking);
  }

  // ---- the log and the list ----

  ghost predicate Replays(s: State) {
    && Replay(s.log) == Serial(s.nodes, s.flag)
    && Good(s.log, false)
    && Distinct(s.nodes)
  }

  // The scan going on is the one of the caller that holds the nodes mutex.
  predicate ScanHeld(s: State) {
    if s.nodesMutex.Some? && s.nodesMutex.value.Call? && At(s, s.nodesMutex.value.caller).Scanning?
    then s.scan.Scan? && At(s, s.nodesMutex.value.caller).op == HasNode(Some(s.scan.node))
    else s.scan.NoScan?
  }

  // A scan stays within the storage, has lost its node exactly if that is missed, and reads nothing
  // but what was listed when it began.
  ghost predicate ScanOk(s: State) {
    s.scan.Scan? ==>
      && s.scan.i <= s.scan.end && |s.nodes| <= s.scan.end <= |s.nodes| + |s.stale| && s.scan.mark <= |s.log|
      && StaleOnlyLast(s.nodes, s.stale, s.scan.end)
      && (s.scan.lost <==> Missed(s.nodes, s.stale, s.scan.i, s.scan.end, s.scan.node))
      && forall r :: 0 <= r < s.scan.end ==> (s.nodes + s.stale)[r] in Replay(s.log[..s.scan.mark]).nodes
  }

  // A node that is listed while it is scanned for was so at every moment since the scan began.
  ghost predicate ListedSince(s: State) {
    s.scan.Scan? && s.scan.node in s.nodes ==>
      forall k :: s.scan.mark <= k <= |s.log| ==> s.scan.node in Replay(s.log[..k]).nodes
  }

  lemma ListedSinceStays(s: State, t: State)
    requires ListedSince(s) && Replay(t.log).nodes == t.nodes
    requires t.scan.Scan? ==> s.scan.Scan? && t.scan.node == s.scan.node && t.scan.mark == s.scan.mark
    requires t.scan.Scan? ==> forall x :: x in t.nodes ==> x in s.nodes
    requires t.log == s.log || (|t.log| == |s.log| + 1 && t.log[..|s.log|] == s.log)
    ensures ListedSince(t)
  {
    if t.scan.Scan? && t.scan.node in t.nodes {
      forall k | t.scan.mark <= k <= |t.log| ensures t.scan.node in Replay(t.log[..k]).nodes {
        if k == |t.log| { assert t.log[..k] == t.log; } else { assert t.log[..k] == s.log[..k]; }
      }
    }
  }

  // A step that leaves the list and the scan alone, and may log one entry.
  lemma LogCarries(s: State, t: State)
    requires ScanOk(s) && t.nodes == s.nodes && t.stale == s.stale && t.scan == s.scan
    requires s.log <= t.log
    ensures ScanOk(t)
  {
    if s.scan.Scan? { assert t.log[..s.scan.mark] == s.log[..s.scan.mark]; }
  }

  lemma EffectKeepsDistinct(nodes: seq<Node>, op: Op)
    requires Distinct(nodes)
    ensures Distinct(Effect(nodes, op))
  {
    if op.RemoveNode? && op.node.Some? { WithoutIsDifference(nodes, op.node.value); }
  }

  // One entry logged for now.
  lemma LoggedNow(s: State, t: State, e: Entry)
    requires Replays(s) && t.log == s.log + [e]
    requires e.op.HasNode? || Allowed(Serial(s.nodes, s.flag), e)
    requires Serial(t.nodes, t.flag) == After(Serial(s.nodes, s.flag), e)
    ensures Replays(t)
    ensures Legal(t.log) <==> Legal(s.log) && Allowed(Serial(s.nodes, s.flag), e)
  {
    OneMore(s.log, e, false);
    OneMore(s.log, e, true);
    EffectKeepsDistinct(s.nodes, e.op);
  }

  // One entry of has_node logged for an earlier moment.
  lemma LoggedThen(s: State, t: State, k: nat, e: Entry)
    requires Replays(s) && k <= |s.log| && e.op.HasNode? && t.log == Inserted(s.log, k, e)
    requires t.nodes == s.nodes && t.flag == s.flag
    ensures Replays(t)
    ensures Legal(t.log) <==> Legal(s.log) && Allowed(Replay(s.log[..k]), e)
  {
    InsertedIsGood(s.log, k, e, false);
    InsertedIsGood(s.log, k, e, true);
  }

  // ---- one erasure under a scan ----

  lemma EraseKeepsScan(s: State, t: State, m: Node)
    requires ScanOk(s) && Distinct(s.nodes) && s.scan.Scan?
    requires t.nodes == Without(s.nodes, m) && t.stale == LeftBehind(s.nodes, s.stale, m)
    requires t.scan == ScanAfter(s.scan, s.nodes, m) && s.log <= t.log
    ensures ScanOk(t)
  {
    assert t.log[..s.scan.mark] == s.log[..s.scan.mark];
    var n := s.scan.node;
    if m in s.nodes {
      ErasedStorage(s.nodes, s.stale, m, 0);
      EraseKeepsStale(s.nodes, s.stale, s.scan.end, m);
      EraseTellsLost(s.nodes, s.stale, s.scan, m);
      forall r | 0 <= r < s.scan.end ensures (t.nodes + t.stale)[r] in Replay(s.log[..s.scan.mark]).nodes {
        ErasedStorage(s.nodes, s.stale, m, r);
      }
    }
  }

  lemma EraseTellsLost(nodes: seq<Node>, stale: seq<Node>, scan: Scan, m: Node)
    requires Distinct(nodes) && m in nodes && scan.Scan?
    requires scan.i <= scan.end && |nodes| <= scan.end <= |nodes| + |stale| && StaleOnlyLast(nodes, stale, scan.end)
    requires scan.lost <==> Missed(nodes, stale, scan.i, scan.end, scan.node)
    ensures ScanAfter(scan, nodes, m).lost
            <==> Missed(Without(nodes, m), LeftBehind(nodes, stale, m), scan.i, scan.end, scan.node)
  {
    ListedAfter(nodes, m, scan.node);
    if m != scan.node && scan.node in nodes { EraseMisses(nodes, stale, scan.i, scan.end, scan.node, m); }
  }

  // ---- every move ----

  // A scan that ends without having found a node that an erasure made it miss.
  predicate AnswersMissed(s: State, w: Who) {
    w.Call? && At(s, w.caller).Scanning? && ScanFits(s) && s.scan.i == s.scan.end && s.scan.lost
  }

  // What a step keeps of the log and the scan: it stays legal unless a missed node is answered for.
  ghost predicate Keeps(s: State, t: State, missed: bool) {
    && Replays(t) && ScanOk(t) && ListedSince(t)
    && (Legal(t.log) <==> Legal(s.log) && !missed)
  }

  lemma NothingLogged(s: State, t: State)
    requires Replays(s) && ScanOk(s) && ListedSince(s)
    requires t.nodes == s.nodes && t.stale == s.stale && t.scan == s.scan && t.flag == s.flag && t.log == s.log
    ensures Keeps(s, t, false)
  {
    LogCarries(s, t);
    ListedSinceStays(s, t);
  }

  lemma SomethingLogged(s: State, t: State, e: Entry)
    requires Replays(s) && ScanOk(s) && ListedSince(s)
    requires t.nodes == s.nodes && t.stale == s.stale && t.scan == s.scan && t.log == s.log + [e]
    requires Allowed(Serial(s.nodes, s.flag), e) && Serial(t.nodes, t.flag) == After(Serial(s.nodes, s.flag), e)
    ensures Keeps(s, t, false)
  {
    LoggedNow(s, t, e);
    LogCarries(s, t);
    ListedSinceStays(s, t);
  }

  lemma DecideKeeps(s: State, c: Caller, op: Op)
    requires Replays(s) && ScanOk(s) && ListedSince(s) && At(s, c) == Decide(op) && OpFits(At(s, c))
    ensures Keeps(s, DecideMove(s, c, op), false)
  {
    var t := DecideMove(s, c, op);
    if t.log == s.log {
      NothingLogged(s, t);
    } else {
      SomethingLogged(s, t, Entry(op, if op.Shutdown? || !s.flag then Finished else ShutdownError));
    }
  }

  lemma LockKeeps(s: State, c: Caller)
    requires Replays(s) && ScanOk(s) && ListedSince(s) && PhaseAt(s, c) && Ended(s) && Locking(At(s, c)) && CanMove(s, Call(c))
    ensures Keeps(s, LockMove(s, c), false)
  {
    var t := LockMove(s, c);
    LockLeavesList(s, c);
    if At(s, c).Interrupting? && s.finalised {
      assert At(s, c).op.HasNode?;
      SomethingLogged(s, t, Entry(At(s, c).op, InterruptFailed));
    } else {
      NothingLogged(s, t);
    }
  }

  lemma EndKeeps(s: State, c: Caller)
    requires Replays(s) && ScanOk(s) && ListedSince(s) && Ending(At(s, c))
    ensures Keeps(s, EndMove(s, c), false)
  {
    EndLeavesList(s, c);
    NothingLogged(s, EndMove(s, c));
  }

  lemma BeginScanKeeps(s: State, c: Caller, op: Op)
    requires Replays(s) && s.scan.NoScan? && At(s, c) == InNodes(op) && op.HasNode? && op.node.Some?
    ensures Keeps(s, Begun(s, c, op), false)
  {
    var t := Begun(s, c, op);
    assert s.log[..|s.log|] == s.log;
    assert (s.nodes + s.stale)[0..|s.nodes|] == s.nodes;
    assert t.log[..|t.log|] == t.log;
  }

  lemma PerformKeeps(s: State, c: Caller, op: Op)
    requires Replays(s) && ScanOk(s) && ListedSince(s) && s.scan.NoScan? && PhaseAt(s, c) && At(s, c) == InNodes(op) && !op.HasNode?
    ensures Keeps(s, Performed(s, c, op), false)
  {
    LoggedNow(s, Performed(s, c, op), Entry(op, Found(s.nodes, op)));
  }

  lemma ScanStepKeeps(s: State, t: State)
    requires Replays(s) && ScanOk(s) && ListedSince(s) && s.scan.Scan? && s.scan.i < s.scan.end
    requires (s.nodes + s.stale)[s.scan.i] != s.scan.node
    requires t.nodes == s.nodes && t.stale == s.stale && t.flag == s.flag && t.log == s.log
    requires t.scan == s.scan.(i := s.scan.i + 1)
    ensures Keeps(s, t, false)
  {
    var storage, i, end := s.nodes + s.stale, s.scan.i, s.scan.end;
    assert storage[i..end] == [storage[i]] + storage[i + 1..end];
  }

  lemma FoundKeeps(s: State, c: Caller, op: Op)
    requires Replays(s) && ScanOk(s) && ListedSince(s) && s.scan.Scan? && s.scan.i < s.scan.end && op == HasNode(Some(s.scan.node))
    requires (s.nodes + s.stale)[s.scan.i] == s.scan.node
    ensures Keeps(s, Answered(s, c, op, true), false)
  {
    LoggedThen(s, Answered(s, c, op, true), s.scan.mark, Entry(op, Answer(true)));
  }

  lemma NotFoundKeeps(s: State, c: Caller, op: Op)
    requires Replays(s) && ScanOk(s) && ListedSince(s) && s.scan.Scan? && s.scan.i == s.scan.end && op == HasNode(Some(s.scan.node))
    ensures Keeps(s, Answered(s, c, op, false), s.scan.lost)
  {
    var storage := s.nodes + s.stale;
    assert storage[s.scan.end..s.scan.end] == [];
    LoggedNow(s, Answered(s, c, op, false), Entry(op, Answer(false)));
  }

  lemma ScanKeeps(s: State, c: Caller, op: Op)
    requires Replays(s) && ScanOk(s) && ListedSince(s) && At(s, c) == Scanning(op) && ScanFits(s) && op == HasNode(Some(s.scan.node))
    ensures Keeps(s, ListMove(s, c), AnswersMissed(s, Call(c)))
  {
    if s.scan.i == s.scan.end { NotFoundKeeps(s, c, op); }
    else if (s.nodes + s.stale)[s.scan.i] == s.scan.node { FoundKeeps(s, c, op); }
    else { ScanStepKeeps(s, ListMove(s, c)); }
  }

  lemma EraseKeeps(s: State, c: Caller, op: Op)
    requires Replays(s) && ScanOk(s) && ListedSince(s) && PhaseAt(s, c) && At(s, c) == Unlocked(op)
    ensures Keeps(s, Erased(s, c, op), false)
  {
    var t := Erased(s, c, op);
    LoggedNow(s, t, Entry(op, Found(s.nodes, op)));
    if s.scan.Scan? { EraseKeepsScan(s, t, op.node.value); }
    WithoutIsDifference(s.nodes, op.node.value);
    ListedSinceStays(s, t);
  }

  lemma ListKeeps(s: State, c: Caller)
    requires Replays(s) && ScanOk(s) && ListedSince(s) && ScanHeld(s) && OwnsAt(s, Call(c)) && PhaseAt(s, c)
    requires Listing(At(s, c)) && CanMove(s, Call(c))
    ensures Keeps(s, ListMove(s, c), AnswersMissed(s, Call(c)))
  {
    match At(s, c)
    case InNodes(op) => if op.HasNode? { BeginScanKeeps(s, c, op); } else { PerformKeeps(s, c, op); }
    case Scanning(op) => ScanKeeps(s, c, op);
    case Unlocked(op) => EraseKeeps(s, c, op);
  }

  lemma CallerKeeps(s: State, c: Caller)
    requires Replays(s) && ScanOk(s) && ListedSince(s) && ScanHeld(s) && OwnsAt(s, Call(c)) && PhaseAt(s, c) && Ended(s) && CanMove(s, Call(c))
    ensures Keeps(s, CallerMove(s, c), AnswersMissed(s, Call(c)))
  {
    var p := At(s, c);
    if p.Decide? { DecideKeeps(s, c, p.op); }
    else if Locking(p) { LockKeeps(s, c); }
    else if Listing(p) { ListKeeps(s, c); }
    else { EndKeeps(s, c); }
  }

  // ---- who scans ----

  lemma LockKeepsHeld(s: State, c: Caller)
    requires ScanHeld(s) && OwnsAt(s, Call(c)) && Locking(At(s, c)) && CanMove(s, Call(c))
    ensures ScanHeld(LockMove(s, c))
  {
    LockLeavesList(s, c);
  }

  lemma EndKeepsHeld(s: State, c: Caller)
    requires ScanHeld(s) && OwnsAt(s, Call(c)) && Ending(At(s, c))
    ensures ScanHeld(EndMove(s, c))
  {
  }

  lemma DecideKeepsHeld(s: State, c: Caller, op: Op)
    requires ScanHeld(s) && OwnsAt(s, Call(c)) && At(s, c) == Decide(op)
    ensures ScanHeld(DecideMove(s, c, op))
  {
  }

  lemma ListKeepsHeld(s: State, c: Caller)
    requires ScanHeld(s) && OwnsAt(s, Call(c)) && PhaseAt(s, c) && Listing(At(s, c)) && CanMove(s, Call(c))
    ensures ScanHeld(ListMove(s, c))
  {
    var p := ListLeaves(s, c);
  }
}
