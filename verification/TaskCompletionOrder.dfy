/**
 * When callbacks run in the order in which they were registered.
 */
module TaskCompletionOrder {

  import opened Wrappers
  import opened TaskCompletionSpec
  import opened TaskCompletion

  // Every call so far was of the first callback registered that had not run.
  predicate InOrder<R>(s: State<R>) {
    Ids(s.called) <= s.order
  }

  // on_completed is about to call its callback while one registered before it has yet to run: one of
  // the list, or one whose on_completed is about to call it too.
  ghost predicate Overtakes<R>(s: State<R>, e: Event<R>) {
    && e.CallNow? && e.id in s.registering && s.registering[e.id].Calling?
    && (ListGoesOn(s) || exists j, k :: AboutToCall(s, j) && 0 <= j < k < |s.order| && s.order[k] == e.id)
  }

  predicate ListGoesOn<R>(s: State<R>) {
    s.completer.Walking? && s.completer.i < |s.callbacks|
  }

  predicate AboutToCall<R>(s: State<R>, j: int) {
    0 <= j < |s.order| && s.order[j] in s.registering && s.registering[s.order[j]].Calling?
  }

  // ---- what the order knows ----

  ghost predicate Distinct(order: seq<Id>) {
    forall i, j :: 0 <= i < j < |order| ==> order[i] != order[j]
  }

  // Everything registered stands in the order once; the list's callbacks stand first.
  ghost predicate OrderOk<R>(s: State<R>) {
    && Distinct(s.order)
    && (forall c :: c in s.order <==> c in s.registering)
    && (s.completer.Running? ==> s.callbacks == s.order && forall c :: c in s.registering ==> s.registering[c].Registered?)
    && (s.completer.Walking? ==>
          && s.callbacks <= s.order
          && (forall c :: c in s.callbacks ==> c in s.registering && s.registering[c].Registered?))
  }

  lemma StepKeepsOrderOk<R>(s: State<R>, e: Event<R>)
    requires Inv(s) && OrderOk(s)
    ensures OrderOk(Step(s, e))
  {
    if e.OnCompleted? && e.id !in s.registering { assert e.id !in s.order; }
  }

  // ---- who has run ----

  // A registered callback has run unless the list has yet to call it or its on_completed does.
  lemma RunOrNot<R>(s: State<R>, c: Id)
    requires Inv(s)
    ensures c in Ids(s.called) <==> c in s.registering && s.registering[c].Registered? && c !in ToCall(s)
    ensures c in ToCall(s) ==> c in s.registering && s.registering[c].Registered?
  {
    assert Once(s, c);
  }

  // ---- one step ----

  lemma OneMoreCalled<R>(s: State<R>, x: (Id, R), k: nat)
    requires OrderOk(s) && InOrder(s) && k < |s.order| && s.order[k] == x.0
    ensures Ids(s.called + [x]) <= s.order <==> k == |s.called|
  {
    assert Ids(s.called + [x]) == Ids(s.called) + [x.0];
    assert Ids(s.called) == s.order[..|s.called|];
    if Ids(s.called) + [x.0] <= s.order {
      assert s.order[|s.called|] == (Ids(s.called) + [x.0])[|s.called|];
    }
  }

  // The list calls the first that has not run.
  lemma ListIsNext<R>(s: State<R>)
    requires Inv(s) && OrderOk(s) && InOrder(s) && ListGoesOn(s)
    ensures |s.called| == s.completer.i
  {
    var i := s.completer.i;
    assert s.callbacks[i..][0] == s.callbacks[i];
    RunOrNot(s, s.callbacks[i]);
    if i > 0 {
      RunOrNot(s, s.callbacks[i - 1]);
    }
  }

  lemma WalkKeepsInOrder<R>(s: State<R>)
    requires Inv(s) && OrderOk(s) && ListGoesOn(s)
    ensures InOrder(Step(s, Walk)) <==> InOrder(s)
  {
    var i := s.completer.i;
    var x := (s.callbacks[i], s.result.value);
    if InOrder(s) {
      ListIsNext(s);
      OneMoreCalled(s, x, i);
    } else if Ids(s.called + [x]) <= s.order {
    }
  }

  lemma CallNowKeepsInOrder<R>(s: State<R>, id: Id, k: nat)
    requires Inv(s) && OrderOk(s) && id in s.registering && s.registering[id].Calling?
    requires k < |s.order| && s.order[k] == id
    ensures InOrder(Step(s, CallNow(id))) <==> InOrder(s) && !Overtakes(s, CallNow(id))
  {
    var x := (id, s.registering[id].value);
    if InOrder(s) {
      OneMoreCalled(s, x, k);
      RunOrNot(s, id);
      if Overtakes(s, CallNow(id)) { OvertakenIsEarlier(s, id, k); }
      else { NobodyEarlier(s, id, k); }
    } else if Ids(s.called + [x]) <= s.order {
    }
  }

  lemma OvertakenIsEarlier<R>(s: State<R>, id: Id, k: nat)
    requires Inv(s) && OrderOk(s) && InOrder(s) && k < |s.order| && s.order[k] == id
    requires Overtakes(s, CallNow(id))
    ensures |s.called| < k
  {
    if ListGoesOn(s) {
      ListIsNext(s);
      assert id !in s.callbacks;
      assert s.callbacks == s.order[..|s.callbacks|];
    } else {
      var j, l :| AboutToCall(s, j) && 0 <= j < l < |s.order| && s.order[l] == id;
      RunOrNot(s, s.order[j]);
    }
  }

  // The first that has not run is the list's or about to be called.
  lemma FirstWaits<R>(s: State<R>)
    requires Inv(s) && OrderOk(s) && InOrder(s) && |s.called| < |s.order| && !s.completer.Running?
    ensures ListGoesOn(s) || AboutToCall(s, |s.called|)
  {
    RunOrNot(s, s.order[|s.called|]);
  }

  lemma NobodyEarlier<R>(s: State<R>, id: Id, k: nat)
    requires Inv(s) && OrderOk(s) && InOrder(s) && k < |s.order| && s.order[k] == id
    requires id in s.registering && s.registering[id].Calling? && !Overtakes(s, CallNow(id))
    requires |s.called| <= k
    ensures |s.called| == k
  {
    if |s.called| < k { FirstWaits(s); }
  }

  lemma PrefixWithout(xs: seq<Id>, order: seq<Id>, id: Id)
    requires id !in xs
    ensures xs <= order + [id] <==> xs <= order
  {
    assert |xs| == |order| + 1 ==> xs[|order|] in xs;
  }

  lemma RegisterKeepsInOrder<R>(s: State<R>, id: Id)
    requires Inv(s) && OrderOk(s) && id !in s.registering
    ensures InOrder(Step(s, OnCompleted(id))) <==> InOrder(s)
  {
    RunOrNot(s, id);
    PrefixWithout(Ids(s.called), s.order, id);
  }

  lemma StepInOrder<R>(s: State<R>, e: Event<R>)
    requires Inv(s) && OrderOk(s)
    ensures InOrder(Step(s, e)) <==> InOrder(s) && !Overtakes(s, e)
  {
    if e.Walk? && ListGoesOn(s) {
      WalkKeepsInOrder(s);
    } else if e.CallNow? && e.id in s.registering && s.registering[e.id].Calling? {
      var k :| 0 <= k < |s.order| && s.order[k] == e.id;
      CallNowKeepsInOrder(s, e.id, k);
    } else if e.OnCompleted? && e.id !in s.registering {
      RegisterKeepsInOrder(s, e.id);
    }
  }

  // ---- every run ----

  ghost predicate NobodyOvertakes<R(!new)>(locked: bool, events: seq<Event<R>>) {
    forall k :: 0 <= k < |events| ==> !Overtakes(Run(locked, events[..k]), events[k])
  }

  lemma NobodyBefore<R(!new)>(locked: bool, events: seq<Event<R>>)
    requires events != []
    ensures var before, e := events[..|events| - 1], events[|events| - 1];
      NobodyOvertakes(locked, events) <==> NobodyOvertakes(locked, before) && !Overtakes(Run(locked, before), e)
  {
    var before := events[..|events| - 1];
    if NobodyOvertakes(locked, events) {
      forall k | 0 <= k < |before| ensures !Overtakes(Run(locked, before[..k]), before[k]) {
        assert events[..k] == before[..k];
        assert !Overtakes(Run(locked, events[..k]), events[k]);
      }
    } else {
      var k :| 0 <= k < |events| && Overtakes(Run(locked, events[..k]), events[k]);
      if k < |before| { assert events[..k] == before[..k]; }
    }
  }

  // Callbacks run in the order of registration, with the lock held during the notification or not,
  // if and only if no on_completed calls its callback itself while the list has calls left, or
  // before another one that got the lock earlier.
  lemma {:induction false} InOrderUnlessOvertaken<R(!new)>(locked: bool, events: seq<Event<R>>)
    ensures InOrder(Run(locked, events)) <==> NobodyOvertakes(locked, events)
    ensures OrderOk(Run(locked, events))
  {
    if events != [] {
      var before, e := events[..|events| - 1], events[|events| - 1];
      InOrderUnlessOvertaken(locked, before);
      RunKeeps(locked, before);
      NobodyBefore(locked, events);
      StepKeepsOrderOk(Run(locked, before), e);
      StepInOrder(Run(locked, before), e);
    }
  }

  // With the lock held, as in the void task, the list is never overtaken: only callbacks registered
  // after the completion can swap.
  lemma {:induction false} LockedListIsNotOvertaken<R(!new)>(events: seq<Event<R>>, id: Id)
    requires Run(true, events).completer.Walking?
    ensures !Overtakes(Run(true, events), CallNow(id))
  {
    LockedKeepsOrder(events);
  }

  // ---- where the order is lost ----

  lemma Extend<R>(locked: bool, events: seq<Event<R>>, e: Event<R>) returns (more: seq<Event<R>>)
    ensures more == events + [e] && Run(locked, more) == Step(Run(locked, events), e)
  {
    more := events + [e];
    assert more[..|more| - 1] == events;
  }

  // Without the lock, as in the other tasks: 1 is registered after 0 and runs before it.
  lemma UnlockedCanOvertake()
    ensures exists events: seq<Event<int>> :: var s := Run(false, events);
      s.completer == Walking(0) && s.callbacks == [0] && s.order == [0, 1] && s.called == [(1, 7)]
  {
    var s: seq<Event<int>> := [];
    s := Extend(false, s, OnCompleted(0));
    s := Extend(false, s, Complete(7));
    s := Extend(false, s, OnCompleted(1));
    s := Extend(false, s, CallNow(1));
  }

  // With it: 1 and 2 are registered after the completion and swap.
  lemma LockedCanSwap()
    ensures exists events: seq<Event<int>> :: var s := Run(true, events);
      s.completer == Returned && s.order == [1, 2] && s.called == [(2, 7), (1, 7)]
  {
    var s: seq<Event<int>> := [];
    s := Extend(true, s, Complete(7));
    s := Extend(true, s, Walk);
    s := Extend(true, s, OnCompleted(1));
    s := Extend(true, s, OnCompleted(2));
    s := Extend(true, s, CallNow(2));
    s := Extend(true, s, CallNow(1));
  }
}
