/**
 * A run in which the graph listener gives an answer that no single thread would get.
 *
 * Thread 0 adds the nodes 5, 7 and 9. Thread 1 asks whether 7 is there, and has read 5. Thread 0
 * shuts the listener down and removes 5, which needs no nodes mutex any more: 7 and 9 move one
 * place down, and 9 is left behind in the last place. Thread 1 goes on with the second and the
 * third place, finds 9 in both, and answers that 7 is not there.
 *
 * The run is built one move at a time. Each lemma extends the run of the one before it and says
 * where the threads stand and who has which mutex; nothing else of the state matters to the next.
 */
module GraphListenerWrong {

  import opened Wrappers
  import opened GraphListenerScan
  import opened GraphListenerSpec
  import opened GraphListenerSerial
  import opened GraphListenerResults
  import opened GraphListenerAnswers

  lemma Extend(events: seq<Event>, e: Event) returns (more: seq<Event>)
    ensures more == events + [e] && Run(more) == Step(Run(events), e)
  {
    more := events + [e];
    assert more[..|more| - 1] == events;
  }

  // The list, where threads 0 and 1 stand, and who has which mutex; the loop was never started.
  predicate Stands(s: State, nodes: seq<Node>, p0: Phase, p1: Phase,
                   shutdownMutex: Option<Who>, barrier: Option<Who>, nodesMutex: Option<Who>) {
    && s.nodes == nodes && s.stale == [] && s.scan == NoScan
    && !s.flag && !s.started && !s.finalised && s.loop == Unstarted
    && s.shutdownMutex == shutdownMutex && s.barrier == barrier && s.nodesMutex == nodesMutex
    && At(s, 0) == p0 && At(s, 1) == p1
  }

  predicate AtRest(s: State, nodes: seq<Node>) {
    Stands(s, nodes, Idle, Idle, None, None, None)
  }

  // add_node(n) by thread 0, move by move.

  lemma AddCalled(events: seq<Event>, nodes: seq<Node>, op: Op) returns (more: seq<Event>)
    requires AtRest(Run(events), nodes) && op.AddNode? && op.node.Some?
    ensures Stands(Run(more), nodes, WantShutdown(op), Idle, None, None, None) && Run(more).log == Run(events).log
  {
    more := Extend(events, Called(0, op));
  }

  lemma AddLocks(events: seq<Event>, nodes: seq<Node>, op: Op) returns (more: seq<Event>)
    requires Stands(Run(events), nodes, WantShutdown(op), Idle, None, None, None)
    ensures Stands(Run(more), nodes, Decide(op), Idle, Some(Call(0)), None, None) && Run(more).log == Run(events).log
  {
    more := Extend(events, Moved(Call(0)));
  }

  lemma AddDecides(events: seq<Event>, nodes: seq<Node>, op: Op) returns (more: seq<Event>)
    requires Stands(Run(events), nodes, Decide(op), Idle, Some(Call(0)), None, None) && op.AddNode?
    ensures Stands(Run(more), nodes, WantBarrier(op), Idle, Some(Call(0)), None, None) && Run(more).log == Run(events).log
  {
    more := Extend(events, Moved(Call(0)));
  }

  lemma AddInterrupts(events: seq<Event>, nodes: seq<Node>, op: Op) returns (more: seq<Event>)
    requires Stands(Run(events), nodes, WantBarrier(op), Idle, Some(Call(0)), None, None)
    ensures Stands(Run(more), nodes, WantNodes(op), Idle, Some(Call(0)), Some(Call(0)), None) && Run(more).log == Run(events).log
  {
    more := Extend(events, Moved(Call(0)));
    more := Extend(more, Moved(Call(0)));
  }

  lemma AddEnters(events: seq<Event>, nodes: seq<Node>, op: Op) returns (more: seq<Event>)
    requires Stands(Run(events), nodes, WantNodes(op), Idle, Some(Call(0)), Some(Call(0)), None)
    ensures Stands(Run(more), nodes, InNodes(op), Idle, Some(Call(0)), None, Some(Call(0))) && Run(more).log == Run(events).log
  {
    more := Extend(events, Moved(Call(0)));
    more := Extend(more, Moved(Call(0)));
  }

  lemma AddEnds(events: seq<Event>, nodes: seq<Node>, n: Node) returns (more: seq<Event>)
    requires Stands(Run(events), nodes, InNodes(AddNode(Some(n))), Idle, Some(Call(0)), None, Some(Call(0))) && n !in nodes
    ensures AtRest(Run(more), nodes + [n])
    ensures Run(more).log == Run(events).log + [Entry(AddNode(Some(n)), Finished)]
  {
    more := Extend(events, Moved(Call(0)));
  }

  lemma Adds(events: seq<Event>, nodes: seq<Node>, n: Node) returns (more: seq<Event>)
    requires AtRest(Run(events), nodes) && n !in nodes
    ensures AtRest(Run(more), nodes + [n])
    ensures Run(more).log == Run(events).log + [Entry(AddNode(Some(n)), Finished)]
  {
    var op := AddNode(Some(n));
    more := AddCalled(events, nodes, op);
    more := AddLocks(more, nodes, op);
    more := AddDecides(more, nodes, op);
    more := AddInterrupts(more, nodes, op);
    more := AddEnters(more, nodes, op);
    more := AddEnds(more, nodes, n);
  }

  lemma Added() returns (events: seq<Event>)
    ensures AtRest(Run(events), [5, 7, 9]) && |Run(events).log| == 3
  {
    events := Adds([], [], 5);
    events := Adds(events, [5], 7);
    events := Adds(events, [5, 7], 9);
  }

  // has_node(7) by thread 1.

  lemma AskCalled(events: seq<Event>, nodes: seq<Node>, op: Op) returns (more: seq<Event>)
    requires AtRest(Run(events), nodes) && op.HasNode? && op.node.Some?
    ensures Stands(Run(more), nodes, Idle, WantBarrier(op), None, None, None) && Run(more).log == Run(events).log
  {
    more := Extend(events, Called(1, op));
  }

  lemma AskInterrupts(events: seq<Event>, nodes: seq<Node>, op: Op) returns (more: seq<Event>)
    requires Stands(Run(events), nodes, Idle, WantBarrier(op), None, None, None)
    ensures Stands(Run(more), nodes, Idle, WantNodes(op), None, Some(Call(1)), None) && Run(more).log == Run(events).log
  {
    more := Extend(events, Moved(Call(1)));
    more := Extend(more, Moved(Call(1)));
  }

  lemma AskEnters(events: seq<Event>, nodes: seq<Node>, op: Op) returns (more: seq<Event>)
    requires Stands(Run(events), nodes, Idle, WantNodes(op), None, Some(Call(1)), None)
    ensures Stands(Run(more), nodes, Idle, InNodes(op), None, None, Some(Call(1))) && Run(more).log == Run(events).log
  {
    more := Extend(events, Moved(Call(1)));
    more := Extend(more, Moved(Call(1)));
  }

  lemma Asks(events: seq<Event>, nodes: seq<Node>, op: Op) returns (more: seq<Event>)
    requires AtRest(Run(events), nodes) && op.HasNode? && op.node.Some?
    ensures Stands(Run(more), nodes, Idle, InNodes(op), None, None, Some(Call(1))) && Run(more).log == Run(events).log
  {
    more := AskCalled(events, nodes, op);
    more := AskInterrupts(more, nodes, op);
    more := AskEnters(more, nodes, op);
  }

  // Thread 1 is in has_node(7), about to read place i.
  predicate Looks(s: State, nodes: seq<Node>, stale: seq<Node>, scan: Scan) {
    && s.nodes == nodes && s.stale == stale && s.scan == scan
    && !s.started && s.loop == Unstarted && s.barrier == None && s.nodesMutex == Some(Call(1))
    && At(s, 1) == Scanning(HasNode(Some(7)))
  }

  lemma Looking() returns (events: seq<Event>)
    ensures var s := Run(events);
      && Looks(s, [5, 7, 9], [], Scan(7, 1, 3, 3, false)) && |s.log| == 3
      && !s.flag && !s.finalised && s.shutdownMutex == None && At(s, 0) == Idle
  {
    events := Added();
    events := Asks(events, [5, 7, 9], HasNode(Some(7)));
    events := Extend(events, Moved(Call(1)));
    events := Extend(events, Moved(Call(1)));
  }

  lemma ShuttingDown() returns (events: seq<Event>)
    ensures var s := Run(events);
      && Looks(s, [5, 7, 9], [], Scan(7, 1, 3, 3, false)) && |s.log| == 3
      && !s.flag && !s.finalised && s.shutdownMutex == Some(Call(0)) && At(s, 0) == Decide(Shutdown)
  {
    events := Looking();
    events := Extend(events, Called(0, Shutdown));
    events := Extend(events, Moved(Call(0)));
  }

  lemma ShutDown() returns (events: seq<Event>)
    ensures var s := Run(events);
      && Looks(s, [5, 7, 9], [], Scan(7, 1, 3, 3, false)) && |s.log| == 4
      && s.flag && s.shutdownMutex == None && At(s, 0) == Idle
  {
    events := ShuttingDown();
    events := Extend(events, Moved(Call(0)));
    events := Extend(events, Moved(Call(0)));
  }

  lemma Removing() returns (events: seq<Event>)
    ensures var s := Run(events);
      && Looks(s, [5, 7, 9], [], Scan(7, 1, 3, 3, false)) && |s.log| == 4
      && At(s, 0) == Unlocked(RemoveNode(Some(5)))
  {
    events := ShutDown();
    events := Extend(events, Called(0, RemoveNode(Some(5))));
    events := Extend(events, Moved(Call(0)));
    events := Extend(events, Moved(Call(0)));
  }

  // Once the listener is shut down, remove_node can change the list while has_node, on another
  // thread, holds the nodes mutex and goes over it.
  lemma RemovalCanOverlapHasNode()
    ensures exists events, e :: e == Moved(Call(0)) && Step(Run(events), e).nodes != Run(events).nodes
                                && Run(events).nodesMutex == Some(Call(1)) && At(Run(events), 1).Scanning?
  {
    var events := Removing();
    assert Step(Run(events), Moved(Call(0))).nodes == [7, 9];
  }

  lemma Overtaken() returns (events: seq<Event>)
    ensures var s := Run(events); Looks(s, [7, 9], [9], Scan(7, 1, 3, 3, true)) && |s.log| == 5
  {
    events := Removing();
    assert Position([5, 7, 9], 7) == 1;
    events := Extend(events, Moved(Call(0)));
  }

  lemma AboutToAnswer() returns (events: seq<Event>)
    ensures var s := Run(events); Looks(s, [7, 9], [9], Scan(7, 3, 3, 3, true)) && |s.log| == 5
  {
    events := Overtaken();
    events := Extend(events, Moved(Call(1)));
    events := Extend(events, Moved(Call(1)));
  }

  lemma AnswerIsWrong(events: seq<Event>)
    requires var s := Run(events); Looks(s, [7, 9], [9], Scan(7, 3, 3, 3, true))
    ensures !Legal(Run(events + [Moved(Call(1))]).log)
  {
    var e := Moved(Call(1));
    assert (events + [e])[..|events|] == events;
    RunKeeps(events);
    StepKeepsInv(Run(events), e);
    assert WrongAnswer(Run(events), e);
  }

  lemma Answers() returns (events: seq<Event>)
    ensures var s := Run(events);
      && 7 in s.nodes && |s.log| == 6 && s.log[5] == Entry(HasNode(Some(7)), Answer(false)) && !Legal(s.log)
      && forall k :: 3 <= k <= 5 ==> 7 in Replay(s.log[..k]).nodes
  {
    var before := AboutToAnswer();
    RunKeeps(before);
    var s := Run(before);
    AnswerIsWrong(before);
    events := Extend(before, Moved(Call(1)));
    var log := Run(events).log;
    assert log == s.log + [Entry(HasNode(Some(7)), Answer(false))];
    forall k | 3 <= k <= 5 ensures 7 in Replay(log[..k]).nodes { assert log[..k] == s.log[..k]; }
  }

  // Thread 1 has read 5. Thread 0 removes 5, so that 7 moves to the place already read. Thread 1
  // reads 9 and what 9 left behind, and answers that 7 is not there, though it always was.
  lemma HasNodeCanMissANode()
    ensures exists events ::
      var s := Run(events);
      && 7 in s.nodes && |s.log| == 6 && s.log[5] == Entry(HasNode(Some(7)), Answer(false))
      && (forall k :: 3 <= k <= 5 ==> 7 in Replay(s.log[..k]).nodes)
      && !Legal(s.log)
  {
    var events := Answers();
  }
}
