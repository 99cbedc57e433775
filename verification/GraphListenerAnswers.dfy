/**
 * Who changes the node list when, and when the listener answers as if one thread used it.
 */
module GraphListenerAnswers {

  import opened Wrappers
  import opened GraphListenerScan
  import opened GraphListenerSpec
  import opened GraphListenerRun
  import opened GraphListenerSerial
  import opened GraphListenerResults

  // Whatever changes the list, the loop is then outside its nodes-locked section. Whoever changes it
  // holds the nodes mutex if and only if the listener was not shut down; if it was, the loop is gone.
  lemma {:induction false} ListChangesOutsideTheLoop(events: seq<Event>, e: Event)
    requires Step(Run(events), e).nodes != Run(events).nodes
    ensures var s := Run(events);
      && !LoopHasNodes(s.loop)
      && e.Moved? && e.w.Call? && s.shutdownMutex == Some(e.w)
      && (s.nodesMutex == Some(e.w) <==> !s.flag)
      && (s.flag ==> Gone(s.loop) && At(s, e.w.caller).Unlocked?)
  {
    RunKeeps(events);
    var s := Run(events);
    assert OwnsAt(s, Loop);
    ACallerChangesTheList(s, e);
    assert PhaseAt(s, e.w.caller) && OwnsAt(s, e.w);
    WhoChangesTheList(s, e.w.caller);
    WhereTheOthersAre(s, e.w.caller);
  }

  lemma ACallerChangesTheList(s: State, e: Event)
    requires OwnsAt(s, Loop) && Step(s, e).nodes != s.nodes
    ensures e.Moved? && e.w.Call? && CanMove(s, e.w) && CallerMove(s, e.w.caller).nodes != s.nodes
  {
    if e == Moved(Loop) && CanMove(s, Loop) { LoopLeavesList(s); }
  }

  lemma WhereTheOthersAre(s: State, c: Caller)
    requires OwnsAt(s, Loop) && PhaseAt(s, c) && OwnsAt(s, Call(c))
    requires At(s, c).Unlocked? || (At(s, c).InNodes? && !At(s, c).op.HasNode?)
    ensures !LoopHasNodes(s.loop) && s.shutdownMutex == Some(Call(c)) && (s.nodesMutex == Some(Call(c)) <==> !s.flag)
    ensures s.flag ==> Gone(s.loop) && At(s, c).Unlocked?
  {
  }

  lemma WhoChangesTheList(s: State, c: Caller)
    requires PhaseAt(s, c) && CanMove(s, Call(c)) && CallerMove(s, c).nodes != s.nodes
    ensures At(s, c).Unlocked? || (At(s, c).InNodes? && !At(s, c).op.HasNode?)
  {
    if At(s, c).Decide? { DecideLeavesList(s, c, At(s, c).op); } else { CallerLeavesLoop(s, c); }
    if At(s, c).InNodes? { InNodesLeaves(s, c, At(s, c).op); }
  }

  // ---- answers ----

  ghost predicate NeverWrong(events: seq<Event>) {
    forall k :: 0 <= k < |events| ==> !WrongAnswer(Run(events[..k]), events[k])
  }

  lemma NeverWrongBefore(events: seq<Event>)
    requires events != []
    ensures var before, e := events[..|events| - 1], events[|events| - 1];
      NeverWrong(events) <==> NeverWrong(before) && !WrongAnswer(Run(before), e)
  {
    if NeverWrong(events) { NotWrongEarlier(events); } else { WrongEarlierOrNow(events); }
  }

  lemma NotWrongEarlier(events: seq<Event>)
    requires events != [] && NeverWrong(events)
    ensures NeverWrong(events[..|events| - 1])
  {
    var before := events[..|events| - 1];
    forall k | 0 <= k < |before| ensures !WrongAnswer(Run(before[..k]), before[k]) {
      assert events[..k] == before[..k];
      assert !WrongAnswer(Run(events[..k]), events[k]);
    }
  }

  lemma WrongEarlierOrNow(events: seq<Event>)
    requires events != [] && !NeverWrong(events)
    ensures !NeverWrong(events[..|events| - 1]) || WrongAnswer(Run(events[..|events| - 1]), events[|events| - 1])
  {
    var before := events[..|events| - 1];
    var k :| 0 <= k < |events| && WrongAnswer(Run(events[..k]), events[k]);
    if k < |before| {
      assert events[..k] == before[..k];
      assert WrongAnswer(Run(before[..k]), before[k]);
    }
  }

  // Every run's log, replayed on a listener of one thread, ends with this list and flag, and allows
  // every change. It allows every answer too if and only if no scan ends without its node after a
  // removal, of a node before the place about to be read, moved that node from this place to the one
  // before, and the node was not removed itself since.
  lemma {:induction false} AnswersAsOneThread(events: seq<Event>)
    ensures Replay(Run(events).log) == Serial(Run(events).nodes, Run(events).flag)
    ensures Good(Run(events).log, false)
    ensures Legal(Run(events).log) <==> NeverWrong(events)
  {
    RunKeeps(events);
    if events != [] {
      var before, e := events[..|events| - 1], events[|events| - 1];
      AnswersAsOneThread(before);
      RunKeeps(before);
      StepKeepsInv(Run(before), e);
      NeverWrongBefore(events);
    }
  }

  // Such an answer has no place at all: the node was listed at every moment since the scan began.
  lemma WrongAnswerHasNoPlace(events: seq<Event>, e: Event, k: nat)
    requires WrongAnswer(Run(events), e) && Run(events).scan.mark <= k <= |Run(events).log|
    ensures var s := Run(events);
      && Step(s, e).log == s.log + [Entry(At(s, e.w.caller).op, Answer(false))]
      && !Allowed(Replay(s.log[..k]), Entry(At(s, e.w.caller).op, Answer(false)))
  {
    RunKeeps(events);
    var s, c := Run(events), e.w.caller;
    assert OwnsAt(s, Call(c)) && PhaseAt(s, c);
    assert CanMove(s, e.w) && Step(s, e) == CallerMove(s, c);
  }

  // In particular, without a removal while has_node goes over the list.
  ghost predicate Undisturbed(events: seq<Event>) {
    forall k :: 0 <= k < |events| ==> !Disturbs(Run(events[..k]), events[k])
  }

  predicate Disturbs(s: State, e: Event) {
    e.Moved? && e.w.Call? && At(s, e.w.caller).Unlocked? && s.scan.Scan?
  }

  lemma UndisturbedBefore(events: seq<Event>)
    requires events != [] && Undisturbed(events)
    ensures Undisturbed(events[..|events| - 1]) && !Disturbs(Run(events[..|events| - 1]), events[|events| - 1])
  {
    var before := events[..|events| - 1];
    forall k | 0 <= k < |before| ensures !Disturbs(Run(before[..k]), before[k]) {
      assert events[..k] == before[..k];
      assert !Disturbs(Run(events[..k]), events[k]);
    }
  }

  lemma StepLosesNothing(s: State, e: Event)
    requires Inv(s) && !Disturbs(s, e) && (s.scan.Scan? ==> !s.scan.lost)
    ensures Step(s, e).scan.Scan? ==> !Step(s, e).scan.lost
  {
    if Enabled(s, e) && e.Moved? {
      assert OwnsAt(s, Loop);
      match e.w
      case Loop => LoopLeavesList(s);
      case Call(c) => MoveLosesNothing(s, c);
    }
  }

  lemma MoveLosesNothing(s: State, c: Caller)
    requires CanMove(s, Call(c)) && (At(s, c).Unlocked? ==> s.scan.NoScan?) && (s.scan.Scan? ==> !s.scan.lost)
    ensures CallerMove(s, c).scan.Scan? ==> !CallerMove(s, c).scan.lost
  {
    var p := At(s, c);
    if p.Decide? { DecideLeavesList(s, c, p.op); }
    else if Locking(p) { LockLeavesList(s, c); }
    else if Ending(p) { EndLeavesList(s, c); }
  }

  lemma {:induction false} UndisturbedLosesNothing(events: seq<Event>)
    requires Undisturbed(events)
    ensures Run(events).scan.Scan? ==> !Run(events).scan.lost
    ensures NeverWrong(events)
  {
    if events != [] {
      var before := events[..|events| - 1];
      UndisturbedBefore(events);
      UndisturbedLosesNothing(before);
      RunKeeps(before);
      StepLosesNothing(Run(before), events[|events| - 1]);
      NeverWrongBefore(events);
    }
  }

  lemma UndisturbedAnswersAsOneThread(events: seq<Event>)
    requires Undisturbed(events)
    ensures Legal(Run(events).log)
  {
    UndisturbedLosesNothing(events);
    AnswersAsOneThread(events);
  }

  // ---- the list as a set ----

  // The last successful add or remove of n in the log, if there is one.
  function LastIsAdd(log: seq<Entry>, n: Node): bool {
    if log == [] then false
    else
      var e := log[|log| - 1];
      if e.outcome == Finished && e.op == AddNode(Some(n)) then true
      else if e.outcome == Finished && e.op == RemoveNode(Some(n)) then false
      else LastIsAdd(log[..|log| - 1], n)
  }

  lemma {:induction false} ReplayIsASet(log: seq<Entry>)
    requires Good(log, false)
    ensures Distinct(Replay(log).nodes)
    ensures forall n :: n in Replay(log).nodes <==> LastIsAdd(log, n)
  {
    if log != [] {
      var before, e := log[..|log| - 1], log[|log| - 1];
      assert log == before + [e];
      OneMore(before, e, false);
      ReplayIsASet(before);
      var z := Replay(before);
      EntryKeepsSet(z, e);
      forall n ensures n in Replay(log).nodes <==> LastIsAdd(log, n) {
        assert n in z.nodes <==> LastIsAdd(before, n);
      }
    }
  }

  lemma EntryKeepsSet(z: Serial, e: Entry)
    requires Distinct(z.nodes) && (e.op.HasNode? || Allowed(z, e))
    ensures Distinct(After(z, e).nodes)
    ensures forall n :: n in After(z, e).nodes <==>
              (e.outcome == Finished && e.op == AddNode(Some(n))) ||
              (n in z.nodes && !(e.outcome == Finished && e.op == RemoveNode(Some(n))))
  {
    if e.op.RemoveNode? && e.op.node.Some? { WithoutIsDifference(z.nodes, e.op.node.value); }
  }

  // A node is listed, once, exactly when the last add or remove of it that succeeded was an add.
  lemma {:induction false} ListedMeansLastAdded(events: seq<Event>)
    ensures Distinct(Run(events).nodes)
    ensures forall n :: n in Run(events).nodes <==> LastIsAdd(Run(events).log, n)
  {
    AnswersAsOneThread(events);
    ReplayIsASet(Run(events).log);
  }
}
