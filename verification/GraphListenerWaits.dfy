/**
 * How long a caller of the graph listener waits in a run, and for whom.
 */
module GraphListenerWaits {

  import opened Wrappers
  import opened GraphListenerSpec
  import opened GraphListenerResults

  // ---- chains of waiting ----

  // In any run, whoever waits for a mutex or for the join waits for somebody lower in a fixed order, so
  // that nobody waits for himself through others.
  lemma NobodyWaitsInACircle(events: seq<Event>, w: Who)
    ensures var s := Run(events);
      WaitsFor(s, w).Some? ==> WaitsFor(s, w).value != w && Level(s, WaitsFor(s, w).value) < Level(s, w)
  {
    RunKeeps(events);
    if WaitsFor(Run(events), w).Some? { WaitingGoesDown(Run(events), w); }
  }

  // The end of the chain of those that w waits for, looking at most n links ahead.
  function EndOfChain(s: State, w: Who, n: nat): Who
    decreases n
  {
    if n == 0 || WaitsFor(s, w).None? then w else EndOfChain(s, WaitsFor(s, w).value, n - 1)
  }

  lemma {:induction false} MoverIsEndOfChain(s: State, w: Who, n: nat)
    requires Inv(s) && Level(s, w) <= n
    ensures EndOfChain(s, w, n) == Mover(s, w)
    decreases n
  {
    if WaitsFor(s, w).Some? {
      WaitingGoesDown(s, w);
      MoverIsEndOfChain(s, WaitsFor(s, w).value, n - 1);
    }
  }

  // In any run, whoever ends the chain of those that a call waits for can move.
  lemma EndOfChainCanMove(events: seq<Event>, c: Caller)
    requires At(Run(events), c) != Idle
    ensures var s := Run(events); CanMove(s, EndOfChain(s, Call(c), Level(s, Call(c))))
  {
    RunKeeps(events);
    MoverCanMove(Run(events), Call(c));
    MoverIsEndOfChain(Run(events), Call(c), Level(Run(events), Call(c)));
  }

  // ---- the wait for the nodes mutex ----

  // How often in `more`, after `events`, whoever then has the nodes mutex moves.
  function OwnerMoves(events: seq<Event>, more: seq<Event>): nat {
    if more == [] then 0
    else
      var before, e := more[..|more| - 1], more[|more| - 1];
      OwnerMoves(events, before) + if OwnersMove(Run(events + before), e) then 1 else 0
  }

  predicate OwnersMove(s: State, e: Event) {
    s.nodesMutex.Some? && e == Moved(s.nodesMutex.value)
  }

  lemma OneEvent(events: seq<Event>, e: Event)
    ensures Run(events + [e]) == Step(Run(events), e)
  {
    assert (events + [e])[..|events|] == events;
  }

  lemma NextEvent(events: seq<Event>, more: seq<Event>)
    requires more != []
    ensures Run(events + more) == Step(Run(events + more[..|more| - 1]), more[|more| - 1])
  {
    var before, e := more[..|more| - 1], more[|more| - 1];
    OneEvent(events + before, e);
    Regrouped(events, more);
  }

  lemma Regrouped<T>(events: seq<T>, more: seq<T>)
    requires more != []
    ensures events + more == (events + more[..|more| - 1]) + [more[|more| - 1]]
  {
  }

  // From the moment a caller wants the nodes mutex until it takes it, whatever everybody else does in
  // whatever order: its owners move no more often than the rank says, each of them can always move, and
  // when the rank is used up the caller can take the mutex.
  lemma {:induction false} HandOffIsBounded(events: seq<Event>, c: Caller, more: seq<Event>)
    requires At(Run(events), c).WantNodes? && Moved(Call(c)) !in more
    ensures var s, t := Run(events), Run(events + more);
      && At(t, c) == At(s, c)
      && OwnerMoves(events, more) + HandRank(t) <= HandRank(s)
      && (t.nodesMutex.Some? ==> CanMove(t, t.nodesMutex.value))
      && (HandRank(t) == 0 ==> CanMove(t, Call(c)))
  {
    RunKeeps(events + more);
    if more == [] {
      assert events + more == events;
      HandOffHappens(Run(events), c, Woken);
    } else {
      var before, e := more[..|more| - 1], more[|more| - 1];
      HandOffIsBounded(events, c, before);
      NextEvent(events, more);
      RunKeeps(events + before);
      HandOffHappens(Run(events + before), c, e);
      HandOffHappens(Run(events + more), c, Woken);
    }
  }

  // ---- the join ----

  // How often in `more`, after `events`, the loop moves.
  function LoopMoves(events: seq<Event>, more: seq<Event>): nat {
    if more == [] then 0
    else
      var before, e := more[..|more| - 1], more[|more| - 1];
      LoopMoves(events, before) + if e == Moved(Loop) && Enabled(Run(events + before), e) then 1 else 0
  }

  // From the moment shutdown joins the loop's thread until the join is over, whatever everybody else
  // does: the loop moves no more often than the rank says, never sleeps without the interrupt latched,
  // the list stays as it is, and the join is over exactly when the rank is used up.
  lemma {:induction false} JoinIsBounded(events: seq<Event>, c: Caller, more: seq<Event>)
    requires At(Run(events), c).Joining? && Moved(Call(c)) !in more
    ensures var s, t := Run(events), Run(events + more);
      && At(t, c).Joining? && t.nodes == s.nodes
      && LoopMoves(events, more) + LoopRank(t) <= LoopRank(s)
      && (t.loop == Waiting ==> t.latched)
      && (LoopRank(t) == 0 <==> CanMove(t, Call(c)))
  {
    RunKeeps(events + more);
    if more == [] {
      assert events + more == events;
      JoinEnds(Run(events), c, Woken);
    } else {
      var before, e := more[..|more| - 1], more[|more| - 1];
      JoinIsBounded(events, c, before);
      NextEvent(events, more);
      RunKeeps(events + before);
      JoinEnds(Run(events + before), c, e);
      JoinEnds(Run(events + more), c, Woken);
    }
  }
}
