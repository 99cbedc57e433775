/**
 * What every interleaving of the run loop and its callers keeps.
 *
 * Each mutex has one owner, and its owner is where the program counter says. The lemmas go through
 * the steps by kind: the loop's own, and those in which a caller locks, works on the list, decides,
 * or ends. For each kind they say what it leaves to the loop and to the other callers, since an
 * invariant about one of them has to survive the steps of all the others.
 */
module GraphListenerRun {

  import opened Wrappers
  import opened GraphListenerScan
  import opened GraphListenerSpec

  // ---- who holds what, by program counter ----

  predicate HasShutdown(p: Phase) {
    match p
    case Idle => false
    case WantShutdown(_) => false
    case WantBarrier(op) => !op.HasNode?
    case Interrupting(op) => !op.HasNode?
    case WantNodes(op) => !op.HasNode?
    case HandOver(op) => !op.HasNode?
    case InNodes(op) => !op.HasNode?
    case Scanning(_) => false
    case _ => true
  }

  predicate HasBarrier(p: Phase) {
    p.Interrupting? || p.WantNodes? || p.HandOver?
  }

  predicate HasNodes(p: Phase) {
    p.HandOver? || p.InNodes? || p.Scanning?
  }

  predicate LoopHasBarrier(l: LoopPc) {
    l.AtNodes? || l.AtHandOver?
  }

  predicate LoopHasNodes(l: LoopPc) {
    l.AtHandOver? || l.Building? || l.Waiting? || l.Notifying?
  }

  predicate OwnsAt(s: State, w: Who) {
    match w
    case Loop =>
      && (LoopHasBarrier(s.loop) <==> s.barrier == Some(w))
      && (LoopHasNodes(s.loop) <==> s.nodesMutex == Some(w))
      && s.shutdownMutex != Some(w)
    case Call(c) =>
      && (HasBarrier(At(s, c)) <==> s.barrier == Some(w))
      && (HasNodes(At(s, c)) <==> s.nodesMutex == Some(w))
      && (HasShutdown(At(s, c)) <==> s.shutdownMutex == Some(w))
  }

  ghost predicate Owns(s: State) {
    forall w :: OwnsAt(s, w)
  }

  // The loop takes and frees mutexes, and leaves the list, the log and the callers alone.
  lemma LoopLeavesList(s: State)
    requires OwnsAt(s, Loop) && CanMove(s, Loop)
    ensures var t := LoopMove(s);
      && t.nodes == s.nodes && t.stale == s.stale && t.scan == s.scan && t.flag == s.flag && t.log == s.log
      && t.callers == s.callers && t.shutdownMutex == s.shutdownMutex
      && (t.barrier == s.barrier || (s.barrier == None && t.barrier == Some(Loop)) || (s.barrier == Some(Loop) && t.barrier == None))
      && (t.nodesMutex == s.nodesMutex || (s.nodesMutex == None && t.nodesMutex == Some(Loop))
          || (s.nodesMutex == Some(Loop) && t.nodesMutex == None))
  {
    match s.loop
    case Building(_) =>
    case Notifying(_) =>
    case _ =>
  }

  lemma LoopKeepsItsOwn(s: State)
    requires OwnsAt(s, Loop) && CanMove(s, Loop)
    ensures OwnsAt(LoopMove(s), Loop)
  {
  }

  lemma LoopKeepsCallersOwns(s: State, c: Caller)
    requires OwnsAt(s, Loop) && OwnsAt(s, Call(c)) && CanMove(s, Loop)
    ensures OwnsAt(LoopMove(s), Call(c))
  {
    LoopLeavesList(s);
  }

  lemma LoopKeepsOwns(s: State, v: Who)
    requires Owns(s) && CanMove(s, Loop)
    ensures OwnsAt(LoopMove(s), v)
  {
    assert OwnsAt(s, Loop) && OwnsAt(s, v);
    match v
    case Loop => LoopKeepsItsOwn(s);
    case Call(c) => LoopKeepsCallersOwns(s, c);
  }

  lemma DecideKeepsOwns(s: State, c: Caller, op: Op, v: Who)
    requires Owns(s) && At(s, c) == Decide(op) && !op.HasNode?
    requires s.started <==> !s.loop.Unstarted?
    ensures OwnsAt(DecideMove(s, c, op), v)
  {
    assert OwnsAt(s, Loop) && OwnsAt(s, v) && OwnsAt(s, Call(c));
  }

  lemma LockKeepsOwnOwns(s: State, c: Caller)
    requires OwnsAt(s, Call(c)) && Locking(At(s, c)) && CanMove(s, Call(c))
    ensures OwnsAt(LockMove(s, c), Call(c))
  {
  }

  lemma LockKeepsOthersOwns(s: State, c: Caller, v: Who)
    requires OwnsAt(s, Call(c)) && OwnsAt(s, v) && Locking(At(s, c)) && CanMove(s, Call(c)) && v != Call(c)
    ensures OwnsAt(LockMove(s, c), v)
  {
  }

  lemma LockKeepsOwns(s: State, c: Caller, v: Who)
    requires OwnsAt(s, Call(c)) && OwnsAt(s, v) && Locking(At(s, c)) && CanMove(s, Call(c))
    ensures OwnsAt(LockMove(s, c), v)
  {
    if v == Call(c) { LockKeepsOwnOwns(s, c); } else { LockKeepsOthersOwns(s, c, v); }
  }

  // What a move at the list leaves of the locks and flags: c goes on to p.
  predicate Leaves(s: State, c: Caller, t: State, p: Phase, nodesMutex: Option<Who>, shutdownMutex: Option<Who>) {
    && t.loop == s.loop && t.barrier == s.barrier && t.nodesMutex == nodesMutex && t.shutdownMutex == shutdownMutex
    && t.callers == (if p == At(s, c) then s.callers else s.callers[c := p])
    && t.latched == s.latched && t.flag == s.flag && t.started == s.started && t.finalised == s.finalised
    && t.size == s.size && t.seen == s.seen && t.told == s.told
  }

  lemma InNodesLeaves(s: State, c: Caller, op: Op)
    requires At(s, c) == InNodes(op)
    ensures var t := ListMove(s, c);
      if op.HasNode? && op.node.Some?
      then Leaves(s, c, t, Scanning(op), s.nodesMutex, s.shutdownMutex)
           && t.nodes == s.nodes && t.stale == s.stale && t.log == s.log
      else Leaves(s, c, t, Idle, None, Freed(s, op)) && t.scan == s.scan
  {
  }

  lemma AnsweredLeaves(s: State, c: Caller, op: Op, found: bool)
    requires At(s, c) == Scanning(op) && ScanFits(s)
    ensures var t := Answered(s, c, op, found);
      t.nodes == s.nodes && t.stale == s.stale && t.scan == NoScan && Leaves(s, c, t, Idle, None, s.shutdownMutex)
  {
  }

  lemma ScanningLeaves(s: State, c: Caller, op: Op)
    requires At(s, c) == Scanning(op) && ScanFits(s)
    ensures var t := ListMove(s, c);
      && t.nodes == s.nodes && t.stale == s.stale
      && if t.scan == NoScan then Leaves(s, c, t, Idle, None, s.shutdownMutex)
         else Leaves(s, c, t, Scanning(op), s.nodesMutex, s.shutdownMutex)
  {
    if s.scan.i == s.scan.end { AnsweredLeaves(s, c, op, false); }
    else if (s.nodes + s.stale)[s.scan.i] == s.scan.node { AnsweredLeaves(s, c, op, true); }
  }

  lemma UnlockedLeaves(s: State, c: Caller, op: Op)
    requires At(s, c) == Unlocked(op)
    ensures Leaves(s, c, ListMove(s, c), Idle, s.nodesMutex, None)
  {
  }

  // After a move at the list, its caller is idle or scans, and only what it held is free.
  lemma ListLeaves(s: State, c: Caller) returns (p: Phase)
    requires Listing(At(s, c)) && OpFits(At(s, c)) && CanMove(s, Call(c))
    ensures p == Idle || (p.Scanning? && !At(s, c).Unlocked? && p.op == At(s, c).op && p.op.HasNode?)
    ensures Leaves(s, c, ListMove(s, c), p, if p == Idle && !At(s, c).Unlocked? then None else s.nodesMutex,
                   if At(s, c).Unlocked? then None else if p == Idle then Freed(s, At(s, c).op) else s.shutdownMutex)
    ensures ListMove(s, c).nodes != s.nodes || ListMove(s, c).stale != s.stale ==> At(s, c).InNodes? || At(s, c).Unlocked?
    ensures ListMove(s, c).nodes != s.nodes ==> p == Idle
  {
    var t := ListMove(s, c);
    match At(s, c)
    case InNodes(op) => InNodesLeaves(s, c, op); p := if op.HasNode? then Scanning(op) else Idle;
    case Scanning(op) => ScanningLeaves(s, c, op); p := if t.scan == NoScan then Idle else Scanning(op);
    case Unlocked(op) => UnlockedLeaves(s, c, op); p := Idle;
  }

  lemma LeavingKeepsOwns(s: State, c: Caller, t: State, p: Phase, nodesMutex: Option<Who>, shutdownMutex: Option<Who>, v: Who)
    requires OwnsAt(s, Call(c)) && OwnsAt(s, v) && Listing(At(s, c))
    requires Leaves(s, c, t, p, nodesMutex, shutdownMutex)
    requires p == Idle || (p.Scanning? && !At(s, c).Unlocked? && !HasShutdown(At(s, c)))
    requires nodesMutex == if p == Idle && !At(s, c).Unlocked? then None else s.nodesMutex
    requires shutdownMutex == if p == Idle && HasShutdown(At(s, c)) then None else s.shutdownMutex
    ensures OwnsAt(t, v)
  {
  }

  lemma ListKeepsOwns(s: State, c: Caller, v: Who)
    requires OwnsAt(s, Call(c)) && OwnsAt(s, v) && OpFits(At(s, c)) && Listing(At(s, c)) && CanMove(s, Call(c))
    ensures OwnsAt(ListMove(s, c), v)
  {
    var p := ListLeaves(s, c);
    var t := ListMove(s, c);
    LeavingKeepsOwns(s, c, t, p, t.nodesMutex, t.shutdownMutex, v);
  }

  lemma EndKeepsOwns(s: State, c: Caller, v: Who)
    requires OwnsAt(s, Call(c)) && OwnsAt(s, v) && Ending(At(s, c))
    ensures OwnsAt(EndMove(s, c), v)
  {
  }

  // ---- what each phase may rely on ----

  predicate HasNodeArgument(op: Op) {
    !op.Start? && !op.Shutdown? && op.node.Some?
  }

  predicate OpFits(p: Phase) {
    match p
    case Idle => true
    case WantShutdown(op) => op.Start? || op.Shutdown? || ((op.AddNode? || op.RemoveNode?) && op.node.Some?)
    case Decide(op) => op.Start? || op.Shutdown? || ((op.AddNode? || op.RemoveNode?) && op.node.Some?)
    case WantBarrier(op) => HasNodeArgument(op)
    case Interrupting(op) => HasNodeArgument(op)
    case WantNodes(op) => HasNodeArgument(op)
    case HandOver(op) => HasNodeArgument(op)
    case InNodes(op) => HasNodeArgument(op)
    case Scanning(op) => op.HasNode? && op.node.Some?
    case Unlocked(op) => op.RemoveNode? && op.node.Some?
    case _ => true
  }

  predicate Gone(l: LoopPc) {
    l.Unstarted? || l.Returned?
  }

  // Inside the nodes-locked section, up to the wake-up.
  predicate ToBeWoken(l: LoopPc) {
    l.Building? || l.Waiting?
  }

  // Past the look at the flag, not yet past the wait.
  predicate PastCheck(l: LoopPc) {
    l.AtBarrier? || l.AtNodes? || l.AtHandOver? || ToBeWoken(l)
  }

  predicate Stopping(p: Phase) {
    p.Triggering? || p.Joining?
  }

  predicate PhaseAt(s: State, c: Caller) {
    var p := At(s, c);
    && OpFits(p)
    && (HasShutdown(p) && !p.Decide? && !Stopping(p) && !p.Finalising? && !p.Unlocked? ==> !s.flag)
    && (p.WantNodes? && ToBeWoken(s.loop) ==> s.latched)
    && (Stopping(p) ==> s.flag && s.started)
    && (p.Joining? && PastCheck(s.loop) ==> s.latched)
    && (p.Finalising? || p.Unlocked? ==> s.flag && Gone(s.loop))
  }

  ghost predicate Phases(s: State) {
    forall c :: PhaseAt(s, c)
  }

  // A listener that was shut down runs no loop, unless its shutdown is still going on.
  predicate Ended(s: State) {
    && (s.started <==> !s.loop.Unstarted?)
    && (s.finalised ==> s.flag && Gone(s.loop))
    && (s.flag && !Gone(s.loop) ==> s.shutdownMutex.Some? && s.shutdownMutex.value.Call?
                                    && Stopping(At(s, s.shutdownMutex.value.caller)))
  }

  lemma LoopKeepsPhase(s: State, c: Caller)
    requires Owns(s) && PhaseAt(s, c) && Ended(s) && CanMove(s, Loop)
    ensures PhaseAt(LoopMove(s), c)
  {
    assert OwnsAt(s, Loop) && OwnsAt(s, Call(c));
  }

  lemma LockKeepsOthersPhase(s: State, d: Caller, c: Caller)
    requires OwnsAt(s, Call(c)) && OwnsAt(s, Call(d)) && PhaseAt(s, c) && c != d
    requires Locking(At(s, d)) && CanMove(s, Call(d))
    ensures PhaseAt(LockMove(s, d), c)
  {
  }

  lemma ListKeepsOthersPhase(s: State, d: Caller, c: Caller)
    requires PhaseAt(s, c) && PhaseAt(s, d) && c != d && Listing(At(s, d)) && CanMove(s, Call(d))
    ensures PhaseAt(ListMove(s, d), c)
  {
    var p := ListLeaves(s, d);
  }

  lemma EndKeepsOthersPhase(s: State, d: Caller, c: Caller)
    requires PhaseAt(s, c) && c != d && Ending(At(s, d))
    ensures PhaseAt(EndMove(s, d), c)
  {
  }

  lemma DecideKeepsOthersPhase(s: State, d: Caller, op: Op, c: Caller)
    requires OwnsAt(s, Call(c)) && OwnsAt(s, Call(d)) && PhaseAt(s, c) && Ended(s) && c != d
    requires At(s, d) == Decide(op)
    ensures PhaseAt(DecideMove(s, d, op), c)
  {
  }

  lemma LockKeepsOwnPhase(s: State, c: Caller)
    requires OwnsAt(s, Loop) && OwnsAt(s, Call(c)) && PhaseAt(s, c) && Locking(At(s, c)) && CanMove(s, Call(c))
    ensures PhaseAt(LockMove(s, c), c)
  {
  }

  lemma ListKeepsOwnPhase(s: State, c: Caller)
    requires PhaseAt(s, c) && Listing(At(s, c)) && CanMove(s, Call(c))
    ensures PhaseAt(ListMove(s, c), c)
  {
    var p := ListLeaves(s, c);
  }

  lemma EndKeepsOwnPhase(s: State, c: Caller)
    requires PhaseAt(s, c) && Ended(s) && Ending(At(s, c)) && CanMove(s, Call(c))
    ensures PhaseAt(EndMove(s, c), c)
  {
  }

  lemma DecideKeepsOwnPhase(s: State, c: Caller, op: Op)
    requires OwnsAt(s, Loop) && OwnsAt(s, Call(c)) && PhaseAt(s, c) && Ended(s)
    requires At(s, c) == Decide(op)
    ensures PhaseAt(DecideMove(s, c, op), c)
  {
  }

  lemma LockKeepsEnded(s: State, c: Caller)
    requires OwnsAt(s, Call(c)) && PhaseAt(s, c) && Ended(s) && Locking(At(s, c)) && CanMove(s, Call(c))
    ensures Ended(LockMove(s, c))
  {
  }

  lemma ListKeepsEnded(s: State, c: Caller)
    requires OwnsAt(s, Call(c)) && PhaseAt(s, c) && Ended(s) && Listing(At(s, c)) && CanMove(s, Call(c))
    ensures Ended(ListMove(s, c))
  {
    var p := ListLeaves(s, c);
  }

  lemma EndKeepsEnded(s: State, c: Caller)
    requires OwnsAt(s, Call(c)) && PhaseAt(s, c) && Ended(s) && Ending(At(s, c)) && CanMove(s, Call(c))
    ensures Ended(EndMove(s, c))
  {
  }

  lemma DecideKeepsEnded(s: State, c: Caller, op: Op)
    requires OwnsAt(s, Call(c)) && PhaseAt(s, c) && Ended(s) && At(s, c) == Decide(op)
    ensures Ended(DecideMove(s, c, op))
  {
  }

  lemma LoopKeepsEnded(s: State)
    requires Owns(s) && Ended(s) && CanMove(s, Loop)
    ensures Ended(LoopMove(s))
  {
  }

  // ---- the list and the loop's reading of it ----

  // Inside the section the loop's size and what it has read agree with the list.
  predicate Reads(s: State) {
    match s.loop
    case Building(i) => i <= s.size == |s.nodes| && s.seen == s.nodes[..i]
    case Waiting => s.size == |s.nodes| && s.seen == s.nodes
    case Notifying(i) => i <= s.size == |s.nodes| && s.seen == s.nodes && s.told == s.nodes[..i]
    case _ => true
  }

  lemma LoopKeepsReads(s: State)
    requires Reads(s) && CanMove(s, Loop)
    ensures Reads(LoopMove(s))
  {
    if s.loop.Building? || s.loop.Notifying? {
      if s.loop.i < s.size { Grown(s.nodes, s.loop.i); } else { assert s.nodes[..s.loop.i] == s.nodes; }
    }
  }

  lemma Grown(nodes: seq<Node>, i: nat)
    requires i < |nodes|
    ensures nodes[..i] + [nodes[i]] == nodes[..i + 1]
  {
  }

  // Nothing the loop reads changes, except the list while the loop is outside its section.
  lemma ReadsCarry(s: State, t: State)
    requires Reads(s)
    requires t.loop == s.loop || t.loop == AtCheck
    requires t.size == s.size && t.seen == s.seen && t.told == s.told
    requires t.nodes == s.nodes || !LoopHasNodes(s.loop)
    ensures Reads(t)
  {
  }

  lemma CallerKeepsReads(s: State, c: Caller)
    requires OwnsAt(s, Loop) && OwnsAt(s, Call(c)) && PhaseAt(s, c) && Reads(s) && CanMove(s, Call(c))
    ensures Reads(CallerMove(s, c))
  {
    var t := CallerMove(s, c);
    if At(s, c).Decide? {
      DecideLeavesList(s, c, At(s, c).op);
    } else {
      CallerLeavesLoop(s, c);
      if t.nodes != s.nodes { OutsideTheLoop(s, c); }
    }
    ReadsCarry(s, t);
  }

  lemma OutsideTheLoop(s: State, c: Caller)
    requires OwnsAt(s, Loop) && OwnsAt(s, Call(c)) && PhaseAt(s, c) && (At(s, c).InNodes? || At(s, c).Unlocked?)
    ensures !LoopHasNodes(s.loop)
  {
  }

  lemma CallerLeavesLoop(s: State, c: Caller)
    requires OpFits(At(s, c)) && CanMove(s, Call(c)) && !At(s, c).Decide?
    ensures var t := CallerMove(s, c);
      && t.size == s.size && t.seen == s.seen && t.told == s.told && t.loop == s.loop
      && (t.nodes != s.nodes || t.stale != s.stale ==> At(s, c).InNodes? || At(s, c).Unlocked?)
  {
    if Locking(At(s, c)) { LockLeavesList(s, c); }
    else if Listing(At(s, c)) { var p := ListLeaves(s, c); }
    else { EndLeavesList(s, c); }
  }

  // What of a state belongs to the list and to the loop's reading of it.
  predicate SameList(s: State, t: State) {
    && t.nodes == s.nodes && t.stale == s.stale && t.scan == s.scan
    && t.loop == s.loop && t.size == s.size && t.seen == s.seen && t.told == s.told && t.flag == s.flag
  }

  lemma LockLeavesList(s: State, c: Caller)
    requires Locking(At(s, c)) && CanMove(s, Call(c))
    ensures SameList(s, LockMove(s, c))
  {
  }

  lemma EndLeavesList(s: State, c: Caller)
    requires Ending(At(s, c))
    ensures SameList(s, EndMove(s, c)) && EndMove(s, c).log == s.log
  {
  }

  lemma DecideLeavesList(s: State, c: Caller, op: Op)
    requires At(s, c) == Decide(op)
    ensures var t := DecideMove(s, c, op);
      && t.nodes == s.nodes && t.stale == s.stale && t.scan == s.scan
      && t.size == s.size && t.seen == s.seen && t.told == s.told
      && (t.loop == s.loop || t.loop == AtCheck)
  {
  }
}
