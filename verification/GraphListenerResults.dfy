/**
 * What the barrier and the latched interrupt give the graph listener, in every interleaving.
 */
module GraphListenerResults {

  import opened Wrappers
  import opened GraphListenerScan
  import opened GraphListenerSpec
  import opened GraphListenerRun
  import opened GraphListenerSerial

  ghost predicate Inv(s: State) {
    Owns(s) && Phases(s) && Ended(s) && Reads(s) && Replays(s) && ScanOk(s) && ListedSince(s) && ScanHeld(s)
  }

  lemma LoopKeepsInv(s: State)
    requires Inv(s) && CanMove(s, Loop)
    ensures Inv(LoopMove(s)) && LoopMove(s).log == s.log
  {
    var t := LoopMove(s);
    forall v ensures OwnsAt(t, v) { LoopKeepsOwns(s, v); }
    forall c ensures PhaseAt(t, c) { assert PhaseAt(s, c); LoopKeepsPhase(s, c); }
    LoopKeepsEnded(s);
    LoopKeepsReads(s);
    assert OwnsAt(s, Loop);
    LoopLeavesList(s);
    NothingLogged(s, t);
  }

  lemma WakeKeepsInv(s: State)
    requires Inv(s) && s.loop == Waiting
    ensures Inv(Wake(s))
  {
    var t := Wake(s);
    forall v ensures OwnsAt(t, v) { assert OwnsAt(s, v); }
    forall c ensures PhaseAt(t, c) { assert PhaseAt(s, c); }
    NothingLogged(s, t);
  }

  lemma CallerMoveKeepsOwns(s: State, c: Caller, v: Who)
    requires Inv(s) && CanMove(s, Call(c))
    ensures OwnsAt(CallerMove(s, c), v)
  {
    assert OwnsAt(s, v) && OwnsAt(s, Call(c)) && PhaseAt(s, c);
    var p := At(s, c);
    if p.Decide? { DecideKeepsOwns(s, c, p.op, v); }
    else if Locking(p) { LockKeepsOwns(s, c, v); }
    else if Listing(p) { ListKeepsOwns(s, c, v); }
    else { EndKeepsOwns(s, c, v); }
  }

  lemma CallerMoveKeepsPhase(s: State, c: Caller, d: Caller)
    requires Inv(s) && CanMove(s, Call(c))
    ensures PhaseAt(CallerMove(s, c), d)
  {
    assert OwnsAt(s, Loop) && OwnsAt(s, Call(c)) && OwnsAt(s, Call(d)) && PhaseAt(s, c) && PhaseAt(s, d);
    if c == d { OwnMoveKeepsPhase(s, c); } else { OtherMoveKeepsPhase(s, c, d); }
  }

  lemma OwnMoveKeepsPhase(s: State, c: Caller)
    requires OwnsAt(s, Loop) && OwnsAt(s, Call(c)) && PhaseAt(s, c) && Ended(s) && CanMove(s, Call(c))
    ensures PhaseAt(CallerMove(s, c), c)
  {
    var p := At(s, c);
    if p.Decide? { DecideKeepsOwnPhase(s, c, p.op); }
    else if Locking(p) { LockKeepsOwnPhase(s, c); }
    else if Listing(p) { ListKeepsOwnPhase(s, c); }
    else { EndKeepsOwnPhase(s, c); }
  }

  lemma OtherMoveKeepsPhase(s: State, c: Caller, d: Caller)
    requires OwnsAt(s, Call(c)) && OwnsAt(s, Call(d)) && PhaseAt(s, c) && PhaseAt(s, d) && Ended(s) && CanMove(s, Call(c)) && c != d
    ensures PhaseAt(CallerMove(s, c), d)
  {
    var p := At(s, c);
    if p.Decide? { DecideKeepsOthersPhase(s, c, p.op, d); }
    else if Locking(p) { LockKeepsOthersPhase(s, c, d); }
    else if Listing(p) { ListKeepsOthersPhase(s, c, d); }
    else { EndKeepsOthersPhase(s, c, d); }
  }

  lemma CallerMoveKeepsEnded(s: State, c: Caller)
    requires OwnsAt(s, Call(c)) && PhaseAt(s, c) && Ended(s) && ScanHeld(s) && CanMove(s, Call(c))
    ensures Ended(CallerMove(s, c)) && ScanHeld(CallerMove(s, c))
  {
    var p := At(s, c);
    if p.Decide? { DecideKeepsEnded(s, c, p.op); DecideKeepsHeld(s, c, p.op); }
    else if Locking(p) { LockKeepsEnded(s, c); LockKeepsHeld(s, c); }
    else if Listing(p) { ListKeepsEnded(s, c); ListKeepsHeld(s, c); }
    else { EndKeepsEnded(s, c); EndKeepsHeld(s, c); }
  }

  lemma CallerKeepsInv(s: State, c: Caller)
    requires Inv(s) && CanMove(s, Call(c))
    ensures Inv(CallerMove(s, c))
    ensures Legal(CallerMove(s, c).log) <==> Legal(s.log) && !AnswersMissed(s, Call(c))
  {
    var t := CallerMove(s, c);
    forall v ensures OwnsAt(t, v) { CallerMoveKeepsOwns(s, c, v); }
    forall d ensures PhaseAt(t, d) { CallerMoveKeepsPhase(s, c, d); }
    assert OwnsAt(s, Loop) && OwnsAt(s, Call(c)) && PhaseAt(s, c);
    CallerMoveKeepsEnded(s, c);
    CallerKeepsReads(s, c);
    CallerKeeps(s, c);
  }

  lemma BeginKeepsOwns(s: State, c: Caller, op: Op, v: Who)
    requires OwnsAt(s, v) && OwnsAt(s, Call(c)) && At(s, c) == Idle
    ensures OwnsAt(Begin(s, c, op), v)
  {
    BeginLeaves(s, c, op);
    if v.Call? && v != Call(c) { assert At(Begin(s, c, op), v.caller) == At(s, v.caller); }
  }

  // A call that begins takes no mutex, and moves nobody but its caller.
  lemma BeginLeaves(s: State, c: Caller, op: Op)
    requires At(s, c) == Idle
    ensures var t := Begin(s, c, op);
      && t.barrier == s.barrier && t.nodesMutex == s.nodesMutex && t.shutdownMutex == s.shutdownMutex && t.loop == s.loop
      && (At(t, c) == Idle || At(t, c) == WantBarrier(op) || At(t, c) == WantShutdown(op))
      && forall d :: d != c ==> At(t, d) == At(s, d)
  {
  }

  lemma BeginKeepsPhase(s: State, c: Caller, op: Op, d: Caller)
    requires PhaseAt(s, d) && At(s, c) == Idle
    ensures PhaseAt(Begin(s, c, op), d)
  {
  }

  lemma BeginKeepsEnded(s: State, c: Caller, op: Op)
    requires OwnsAt(s, Call(c)) && At(s, c) == Idle && Ended(s)
    ensures Ended(Begin(s, c, op))
  {
  }

  lemma BeginKeepsLog(s: State, c: Caller, op: Op)
    requires Replays(s) && ScanOk(s) && ListedSince(s) && ScanHeld(s) && OwnsAt(s, Call(c)) && At(s, c) == Idle
    ensures Keeps(s, Begin(s, c, op), false) && ScanHeld(Begin(s, c, op))
  {
    var t := Begin(s, c, op);
    if !op.Start? && !op.Shutdown? && op.node.None? {
      SomethingLogged(s, t, Entry(op, Found(s.nodes, op)));
    } else {
      NothingLogged(s, t);
    }
    BeginKeepsHeld(s, c, op);
  }

  lemma BeginKeepsHeld(s: State, c: Caller, op: Op)
    requires ScanHeld(s) && OwnsAt(s, Call(c)) && At(s, c) == Idle
    ensures ScanHeld(Begin(s, c, op))
  {
  }

  lemma BeginKeepsInv(s: State, c: Caller, op: Op)
    requires Inv(s) && At(s, c) == Idle
    ensures Inv(Begin(s, c, op)) && (Legal(Begin(s, c, op).log) <==> Legal(s.log))
  {
    assert OwnsAt(s, Call(c));
    forall v ensures OwnsAt(Begin(s, c, op), v) { assert OwnsAt(s, v); BeginKeepsOwns(s, c, op, v); }
    forall d ensures PhaseAt(Begin(s, c, op), d) { assert PhaseAt(s, d); BeginKeepsPhase(s, c, op, d); }
    BeginKeepsEnded(s, c, op);
    BeginKeepsLog(s, c, op);
    assert Reads(Begin(s, c, op));
  }

  // An event that ends a scan with an answer that an erasure made wrong.
  predicate WrongAnswer(s: State, e: Event) {
    e.Moved? && AnswersMissed(s, e.w)
  }

  lemma StepKeepsInv(s: State, e: Event)
    requires Inv(s)
    ensures Inv(Step(s, e))
    ensures Legal(Step(s, e).log) <==> Legal(s.log) && !WrongAnswer(s, e)
  {
    if Enabled(s, e) {
      match e
      case Called(c, op) => BeginKeepsInv(s, c, op);
      case Moved(Loop) => LoopKeepsInv(s);
      case Moved(Call(c)) => CallerKeepsInv(s, c);
      case Woken => WakeKeepsInv(s);
    }
  }

  lemma {:induction false} RunKeeps(events: seq<Event>)
    ensures Inv(Run(events))
  {
    if events == [] {
      var s := Initial();
      forall v ensures OwnsAt(s, v) { }
      forall c ensures PhaseAt(s, c) { }
    } else {
      RunKeeps(events[..|events| - 1]);
      StepKeepsInv(Run(events[..|events| - 1]), events[|events| - 1]);
    }
  }

  // ---- the hand-off ----

  // Whoever asks for the nodes mutex while the loop is before or inside rcl_wait has left the
  // interrupt latched, so rcl_wait returns; and nobody else can take the mutex meanwhile.
  lemma WaitingCallerFindsLatch(events: seq<Event>, c: Caller)
    requires At(Run(events), c).WantNodes?
    ensures var s := Run(events);
      && (s.loop.Building? || s.loop.Waiting? ==> s.latched)
      && s.barrier == Some(Call(c)) && !s.loop.AtNodes? && !s.loop.AtHandOver?
  {
    RunKeeps(events);
    var s := Run(events);
    assert PhaseAt(s, c) && OwnsAt(s, Call(c)) && OwnsAt(s, Loop);
  }

  // Steps left until the nodes mutex is released.
  function HandRank(s: State): nat {
    match s.loop
    case AtHandOver => 4 + 2 * |s.nodes|
    case Building(i) => if i <= |s.nodes| then 3 + 2 * |s.nodes| - i else 0
    case Waiting => 2 + |s.nodes|
    case Notifying(i) => if i <= |s.nodes| then 1 + |s.nodes| - i else 0
    case _ => if s.nodesMutex.Some? && s.nodesMutex.value.Call? then CallerRank(s, At(s, s.nodesMutex.value.caller)) else 0
  }

  function CallerRank(s: State, p: Phase): nat {
    if p.InNodes? && p.op.HasNode? then 2 + |s.nodes|
    else if p.Scanning? && s.scan.Scan? && s.scan.i <= s.scan.end then 1 + s.scan.end - s.scan.i
    else 1
  }

  // Where c waits for the nodes mutex, its owner can move, each of its moves brings the release
  // closer, and no other event puts it off: c gets the mutex.
  lemma HandOffHappens(s: State, c: Caller, e: Event)
    requires Inv(s) && At(s, c).WantNodes?
    ensures HandRank(s) == 0 ==> CanMove(s, Call(c))
    ensures s.nodesMutex.Some? ==> CanMove(s, s.nodesMutex.value)
                                   && HandRank(Step(s, Moved(s.nodesMutex.value))) < HandRank(s)
    ensures e != Moved(Call(c)) ==> At(Step(s, e), c) == At(s, c) && HandRank(Step(s, e)) <= HandRank(s)
  {
    OwnerIsOnTheWay(s, c);
    if e != Moved(Call(c)) { NobodyDelays(s, c, e); }
  }

  lemma NobodyDelays(s: State, c: Caller, e: Event)
    requires Inv(s) && At(s, c).WantNodes? && e != Moved(Call(c))
    ensures At(Step(s, e), c) == At(s, c) && HandRank(Step(s, e)) <= HandRank(s)
  {
    if Enabled(s, e) {
      match e
      case Called(d, op) =>
        assert OwnsAt(s, Call(d));
        BeginDoesNotDelay(s, c, d, op);
      case Moved(Loop) => LoopDoesNotDelay(s, c);
      case Moved(Call(d)) => OthersDoNotDelay(s, c, d);
      case Woken =>
    }
  }

  lemma BeginDoesNotDelay(s: State, c: Caller, d: Caller, op: Op)
    requires OwnsAt(s, Call(d)) && At(s, c).WantNodes? && At(s, d) == Idle
    ensures At(Begin(s, d, op), c) == At(s, c) && HandRank(Begin(s, d, op)) <= HandRank(s)
  {
    SameRank(s, c, d, Begin(s, d, op));
  }

  lemma OwnerIsOnTheWay(s: State, c: Caller)
    requires Inv(s) && At(s, c).WantNodes?
    ensures HandRank(s) == 0 ==> CanMove(s, Call(c))
    ensures s.nodesMutex.Some? ==> CanMove(s, s.nodesMutex.value)
                                   && HandRank(Step(s, Moved(s.nodesMutex.value))) < HandRank(s)
  {
    assert OwnsAt(s, Loop);
    if s.nodesMutex.Some? {
      match s.nodesMutex.value
      case Loop => LoopReleases(s, c);
      case Call(d) => OwnerReleases(s, c, d);
    }
  }

  lemma LoopReleases(s: State, c: Caller)
    requires Inv(s) && At(s, c).WantNodes? && s.nodesMutex == Some(Loop)
    ensures CanMove(s, Loop) && HandRank(LoopMove(s)) < HandRank(s)
  {
    assert PhaseAt(s, c) && OwnsAt(s, Call(c)) && OwnsAt(s, Loop);
  }

  lemma LoopDoesNotDelay(s: State, c: Caller)
    requires Inv(s) && At(s, c).WantNodes? && CanMove(s, Loop)
    ensures At(LoopMove(s), c) == At(s, c) && HandRank(LoopMove(s)) <= HandRank(s)
  {
    assert OwnsAt(s, Call(c)) && OwnsAt(s, Loop);
  }

  lemma ScanCanMove(s: State, d: Caller)
    requires Inv(s) && At(s, d).Scanning?
    ensures CanMove(s, Call(d)) && s.nodesMutex == Some(Call(d)) && s.scan.Scan?
  {
    assert OwnsAt(s, Call(d));
  }

  lemma OwnerReleases(s: State, c: Caller, d: Caller)
    requires Inv(s) && At(s, c).WantNodes? && s.nodesMutex == Some(Call(d))
    ensures CanMove(s, Call(d)) && HandRank(CallerMove(s, d)) < HandRank(s)
  {
    assert OwnsAt(s, Call(c)) && OwnsAt(s, Call(d)) && OwnsAt(s, Loop) && PhaseAt(s, d);
    if At(s, d).Scanning? { ScanCanMove(s, d); }
    var p := ListLeaves(s, d);
    ScanShrinks(s, d);
  }

  // A move at the list by who holds the mutex either frees it or gets on with the scan.
  lemma ScanShrinks(s: State, d: Caller)
    requires OwnsAt(s, Call(d)) && OpFits(At(s, d)) && ScanOk(s) && CanMove(s, Call(d))
    requires At(s, d).InNodes? || At(s, d).Scanning?
    ensures var t := ListMove(s, d);
      At(t, d) == Idle || (At(t, d).Scanning? && CallerRank(t, At(t, d)) < CallerRank(s, At(s, d)))
  {
    match At(s, d)
    case InNodes(op) => InNodesLeaves(s, d, op);
    case Scanning(op) => ScanningLeaves(s, d, op);
  }

  lemma OthersDoNotDelay(s: State, c: Caller, d: Caller)
    requires Inv(s) && At(s, c).WantNodes? && CanMove(s, Call(d)) && d != c
    ensures At(CallerMove(s, d), c) == At(s, c) && HandRank(CallerMove(s, d)) <= HandRank(s)
  {
    assert OwnsAt(s, Call(c)) && OwnsAt(s, Call(d)) && OwnsAt(s, Loop) && PhaseAt(s, d);
    if s.nodesMutex == Some(Call(d)) {
      OwnerReleases(s, c, d);
      var p := ListLeaves(s, d);
    } else {
      var p := At(s, d);
      if p.Decide? { DecideDoesNotDelay(s, c, d, p.op); }
      else if Locking(p) { LockDoesNotDelay(s, c, d); }
      else if Listing(p) { ErasureDoesNotDelay(s, c, d, p.op); }
      else { EndDoesNotDelay(s, c, d); }
    }
  }

  // Whoever holds the nodes mutex is where it was, and has no more to do.
  lemma SameRank(s: State, c: Caller, d: Caller, t: State)
    requires s.nodesMutex != Some(Call(d)) && d != c && t.nodesMutex == s.nodesMutex
    requires t.loop == s.loop || (t.loop == AtCheck && s.loop == Unstarted)
    requires forall x :: x != d ==> At(t, x) == At(s, x)
    requires t.scan == s.scan || (t.scan.Scan? && s.scan.Scan? && t.scan.i == s.scan.i && t.scan.end == s.scan.end)
    requires t.nodes != s.nodes ==> Gone(s.loop)
    requires |t.nodes| <= |s.nodes|
    ensures At(t, c) == At(s, c) && HandRank(t) <= HandRank(s)
  {
  }

  lemma LockDoesNotDelay(s: State, c: Caller, d: Caller)
    requires OwnsAt(s, Call(c)) && OwnsAt(s, Call(d)) && OwnsAt(s, Loop) && At(s, c).WantNodes? && d != c
    requires s.nodesMutex != Some(Call(d)) && Locking(At(s, d)) && CanMove(s, Call(d))
    ensures At(LockMove(s, d), c) == At(s, c) && HandRank(LockMove(s, d)) <= HandRank(s)
  {
    LockLeavesList(s, d);
    SameRank(s, c, d, LockMove(s, d));
  }

  lemma EndDoesNotDelay(s: State, c: Caller, d: Caller)
    requires At(s, c).WantNodes? && d != c && s.nodesMutex != Some(Call(d)) && Ending(At(s, d))
    ensures At(EndMove(s, d), c) == At(s, c) && HandRank(EndMove(s, d)) <= HandRank(s)
  {
    EndLeavesList(s, d);
    SameRank(s, c, d, EndMove(s, d));
  }

  lemma ErasureDoesNotDelay(s: State, c: Caller, d: Caller, op: Op)
    requires OwnsAt(s, Call(d)) && PhaseAt(s, d) && At(s, c).WantNodes? && d != c
    requires s.nodesMutex != Some(Call(d)) && Listing(At(s, d)) && At(s, d).op == op
    ensures At(ListMove(s, d), c) == At(s, c) && HandRank(ListMove(s, d)) <= HandRank(s)
  {
    UnlockedLeaves(s, d, op);
    SameRank(s, c, d, Erased(s, d, op));
  }

  lemma DecideDoesNotDelay(s: State, c: Caller, d: Caller, op: Op)
    requires OwnsAt(s, Loop) && At(s, c).WantNodes? && At(s, d) == Decide(op) && d != c && Ended(s)
    requires s.nodesMutex != Some(Call(d))
    ensures At(DecideMove(s, d, op), c) == At(s, c) && HandRank(DecideMove(s, d, op)) <= HandRank(s)
  {
    DecideLeavesList(s, d, op);
    SameRank(s, c, d, DecideMove(s, d, op));
  }

  // ---- no deadlock ----

  // Whom w waits for. The loop waits in rcl_wait for nobody in particular.
  function WaitsFor(s: State, w: Who): Option<Who> {
    match w
    case Loop => if s.loop.AtBarrier? then s.barrier else if s.loop.AtNodes? then s.nodesMutex else None
    case Call(c) =>
      match At(s, c)
      case WantShutdown(_) => s.shutdownMutex
      case WantBarrier(_) => s.barrier
      case WantNodes(_) => s.nodesMutex
      case Joining => if s.loop == Returned then None else Some(Loop)
      case _ => None
  }

  // The order in which everybody takes things: shutdown_mutex_, the join, the barrier, the nodes.
  function Level(s: State, w: Who): nat {
    match w
    case Loop => if s.loop.AtBarrier? then 2 else if s.loop.AtNodes? then 1 else 0
    case Call(c) =>
      match At(s, c)
      case WantShutdown(_) => 4
      case Joining => 3
      case WantBarrier(_) => 2
      case WantNodes(_) => 1
      case _ => 0
  }

  lemma WaitingGoesDown(s: State, w: Who)
    requires Inv(s) && WaitsFor(s, w).Some?
    ensures Level(s, WaitsFor(s, w).value) < Level(s, w)
  {
    assert OwnsAt(s, w) && OwnsAt(s, WaitsFor(s, w).value) && OwnsAt(s, Loop);
  }

  // The end of the chain of those that w waits for.
  ghost function Mover(s: State, w: Who): Who
    requires Inv(s)
    decreases Level(s, w)
  {
    if WaitsFor(s, w).None? then w
    else
      WaitingGoesDown(s, w);
      Mover(s, WaitsFor(s, w).value)
  }

  // Only the loop in rcl_wait can be waited for without waiting for somebody itself, and then it
  // finds the interrupt latched.
  lemma {:induction false} MoverCanMove(s: State, w: Who)
    requires Inv(s)
    requires w.Call? ==> At(s, w.caller) != Idle
    requires w == Loop ==> !Gone(s.loop) && (s.loop == Waiting ==> s.latched)
    ensures CanMove(s, Mover(s, w))
    decreases Level(s, w)
  {
    if WaitsFor(s, w).Some? {
      WaitingGoesDown(s, w);
      WaitedForIsBusy(s, w, WaitsFor(s, w).value);
      MoverCanMove(s, WaitsFor(s, w).value);
    } else {
      FreeCanMove(s, w);
    }
  }

  lemma WaitedForIsBusy(s: State, w: Who, v: Who)
    requires Inv(s) && WaitsFor(s, w) == Some(v)
    ensures v.Call? ==> At(s, v.caller) != Idle
    ensures v == Loop ==> !Gone(s.loop) && (s.loop == Waiting ==> s.latched)
  {
    assert OwnsAt(s, v) && OwnsAt(s, Loop);
    if w.Call? { assert PhaseAt(s, w.caller) && OwnsAt(s, w); }
  }

  lemma FreeCanMove(s: State, w: Who)
    requires Inv(s) && WaitsFor(s, w).None?
    requires w.Call? ==> At(s, w.caller) != Idle
    requires w == Loop ==> !Gone(s.loop) && (s.loop == Waiting ==> s.latched)
    ensures CanMove(s, w)
  {
    if w.Call? && At(s, w.caller).Scanning? { ScanCanMove(s, w.caller); }
  }

  // In no reachable state is everybody stuck while a call is going on.
  lemma NoDeadlock(events: seq<Event>, c: Caller)
    requires At(Run(events), c) != Idle
    ensures exists w :: CanMove(Run(events), w)
  {
    RunKeeps(events);
    MoverCanMove(Run(events), Call(c));
    assert CanMove(Run(events), Mover(Run(events), Call(c)));
  }

  // ---- shutdown ----

  // Steps of its own that the loop has left, once the flag is set.
  function LoopRank(s: State): nat {
    match s.loop
    case AtBarrier => 7 + 2 * |s.nodes|
    case AtNodes => 6 + 2 * |s.nodes|
    case AtHandOver => 5 + 2 * |s.nodes|
    case Building(i) => if i <= |s.nodes| then 4 + 2 * |s.nodes| - i else 0
    case Waiting => 3 + |s.nodes|
    case Notifying(i) => if i <= |s.nodes| then 2 + |s.nodes| - i else 0
    case AtCheck => 1
    case _ => 0
  }

  // While __shutdown joins the thread, the thread never sleeps without the interrupt latched, every
  // step of it brings its return closer, nobody else puts that off or changes the list, and once it
  // has returned the join is over.
  lemma JoinEnds(s: State, c: Caller, e: Event)
    requires Inv(s) && At(s, c).Joining?
    ensures LoopRank(s) == 0 <==> CanMove(s, Call(c))
    ensures s.loop == Waiting ==> s.latched
    ensures e == Moved(Loop) && Enabled(s, e) ==> LoopRank(Step(s, e)) < LoopRank(s)
    ensures e != Moved(Call(c)) ==> At(Step(s, e), c) == Joining && LoopRank(Step(s, e)) <= LoopRank(s)
                                    && Step(s, e).nodes == s.nodes
    ensures CanMove(s, Mover(s, Call(c)))
  {
    assert PhaseAt(s, c) && OwnsAt(s, Call(c)) && OwnsAt(s, Loop);
    MoverCanMove(s, Call(c));
    assert LoopRank(s) == 0 ==> s.loop == Returned;
    if e != Moved(Call(c)) { NobodyPutsOffTheJoin(s, c, e); }
  }

  lemma NobodyPutsOffTheJoin(s: State, c: Caller, e: Event)
    requires Inv(s) && At(s, c).Joining? && e != Moved(Call(c))
    ensures At(Step(s, e), c) == Joining && LoopRank(Step(s, e)) <= LoopRank(s) && Step(s, e).nodes == s.nodes
    ensures e == Moved(Loop) && Enabled(s, e) ==> LoopRank(Step(s, e)) < LoopRank(s)
  {
    assert PhaseAt(s, c);
    if Enabled(s, e) {
      match e
      case Called(d, op) =>
      case Moved(Loop) => LoopComesCloser(s);
      case Moved(Call(d)) => OthersLeaveTheJoin(s, c, d);
      case Woken =>
    }
  }

  lemma LoopComesCloser(s: State)
    requires Reads(s) && s.flag && CanMove(s, Loop)
    ensures LoopRank(LoopMove(s)) < LoopRank(s) && LoopMove(s).nodes == s.nodes
  {
  }

  lemma OthersLeaveTheJoin(s: State, c: Caller, d: Caller)
    requires Inv(s) && At(s, c).Joining? && CanMove(s, Call(d)) && d != c
    ensures var t := CallerMove(s, d); At(t, c) == Joining && t.loop == s.loop && t.nodes == s.nodes
  {
    assert PhaseAt(s, d) && OwnsAt(s, Call(c)) && OwnsAt(s, Call(d));
    var p := At(s, d);
    if Locking(p) { LockLeavesList(s, d); }
    else if Listing(p) { var q := ListLeaves(s, d); AskingLeavesList(s, d); }
  }

  lemma AskingLeavesList(s: State, d: Caller)
    requires OpFits(At(s, d)) && Listing(At(s, d)) && !HasShutdown(At(s, d)) && CanMove(s, Call(d))
    ensures ListMove(s, d).nodes == s.nodes
  {
    if At(s, d).InNodes? { InNodesLeaves(s, d, At(s, d).op); } else { ScanningLeaves(s, d, At(s, d).op); }
  }

  // After shutdown has ended there is no loop, and there never is one again.
  lemma ShutdownIsForGood(events: seq<Event>, e: Event)
    requires Run(events).finalised
    ensures Gone(Run(events).loop) && Step(Run(events), e).finalised && Gone(Step(Run(events), e).loop)
  {
    RunKeeps(events);
    StepKeepsInv(Run(events), e);
    var s := Run(events);
    if Enabled(s, e) && e.Moved? && e.w.Call? { FinalisedStays(s, e.w.caller); }
  }

  lemma FinalisedStays(s: State, c: Caller)
    requires CanMove(s, Call(c)) && s.finalised
    ensures CallerMove(s, c).finalised
  {
  }

  // ---- the loop and the list ----

  // The second loop of a round goes over exactly the nodes the first one went over, in order, and
  // neither reads past the end of the list.
  lemma TellsThoseItLookedAt(events: seq<Event>)
    ensures var s := Run(events);
      && (s.loop.Building? && s.loop.i < s.size ==> s.loop.i < |s.nodes|)
      && (s.loop.Notifying? && s.loop.i < s.size ==> s.loop.i < |s.nodes|)
      && (s.loop.Notifying? ==> s.told <= s.seen && (s.loop.i == s.size ==> s.told == s.seen))
  {
    RunKeeps(events);
  }
}
