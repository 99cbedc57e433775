/**
 * Every callback of a task runs exactly once, with its result, in every interleaving.
 */
module TaskCompletion {

  import opened Wrappers
  import opened TaskCompletionSpec

  // What notify_callbacks has yet to call.
  function ToCall<R>(s: State<R>): seq<Id> {
    match s.completer
    case Running => s.callbacks
    case Walking(i) => if i <= |s.callbacks| then s.callbacks[i..] else []
    case Returned => []
  }

  function Ids<R>(called: seq<(Id, R)>): (r: seq<Id>)
    ensures |r| == |called| && forall k :: 0 <= k < |called| ==> r[k] == called[k].0
  {
    seq(|called|, k requires 0 <= k < |called| => called[k].0)
  }

  // How often a callback has run or is going to be run from the list.
  function Times<R>(s: State<R>, c: Id): nat {
    multiset(Ids(s.called))[c] + multiset(ToCall(s))[c]
  }

  predicate Once<R>(s: State<R>, c: Id) {
    Times(s, c) == if c in s.registering && s.registering[c].Registered? then 1 else 0
  }

  ghost predicate Inv<R>(s: State<R>) {
    && (forall c :: Once(s, c))
    && (s.result.None? <==> s.completer.Running?)
    && (s.completer.Walking? ==> s.completer.i <= |s.callbacks|)
    && (s.completer.Returned? ==> s.callbacks == [])
    && (forall c :: c in s.registering && s.registering[c].Calling? ==> Some(s.registering[c].value) == s.result)
    && (forall k :: 0 <= k < |s.called| ==> Some(s.called[k].1) == s.result)
    && (s.result.Some? ==> s.waiting == {})
    && (s.woken != {} ==> s.result.Some?)
    && (forall c :: c in s.got ==> Some(s.got[c]) == s.result)
  }

  lemma OneCallMore<R>(called: seq<(Id, R)>, x: (Id, R), c: Id)
    ensures multiset(Ids(called + [x]))[c] == multiset(Ids(called))[c] + if c == x.0 then 1 else 0
  {
    assert Ids(called + [x]) == Ids(called) + [x.0];
  }

  lemma OneFewer(xs: seq<Id>, i: nat, c: Id)
    requires i < |xs|
    ensures multiset(xs[i..])[c] == multiset(xs[i + 1..])[c] + if c == xs[i] then 1 else 0
  {
    assert xs[i..] == [xs[i]] + xs[i + 1..];
  }

  lemma WalkKeepsOnce<R>(s: State<R>, c: Id)
    requires Once(s, c) && s.completer.Walking? && s.completer.i <= |s.callbacks| && s.result.Some?
    ensures Once(Step(s, Walk), c)
  {
    var t, i := Step(s, Walk), s.completer.i;
    if i < |s.callbacks| {
      OneCallMore(s.called, (s.callbacks[i], s.result.value), c);
      OneFewer(s.callbacks, i, c);
      assert ToCall(s) == s.callbacks[i..] && ToCall(t) == s.callbacks[i + 1..];
    } else {
      assert ToCall(s) == [] && ToCall(t) == [];
    }
  }

  lemma CallNowKeepsOnce<R>(s: State<R>, id: Id, c: Id)
    requires Once(s, c) && id in s.registering && s.registering[id].Calling?
    ensures Once(Step(s, CallNow(id)), c)
  {
    var t := Step(s, CallNow(id));
    OneCallMore(s.called, (id, s.registering[id].value), c);
    assert ToCall(t) == ToCall(s);
  }

  lemma StepKeepsOnce<R>(s: State<R>, e: Event<R>, c: Id)
    requires Inv(s)
    ensures Once(Step(s, e), c)
  {
    assert Once(s, c);
    if Step(s, e) == s {
    } else if e.Walk? {
      WalkKeepsOnce(s, c);
    } else if e.CallNow? {
      CallNowKeepsOnce(s, e.id, c);
    } else if e.OnCompleted? && s.result.None? {
    } else {
    }
  }

  lemma StepKeepsRest<R>(s: State<R>, e: Event<R>)
    requires Inv(s) && forall c :: Once(Step(s, e), c)
    ensures Inv(Step(s, e))
  {
  }

  lemma {:induction false} RunKeeps<R>(locked: bool, events: seq<Event<R>>)
    ensures Inv(Run(locked, events))
  {
    if events == [] {
      forall c ensures Once(Initial<R>(locked), c) { }
    } else {
      var s, e := Run(locked, events[..|events| - 1]), events[|events| - 1];
      RunKeeps(locked, events[..|events| - 1]);
      forall c ensures Once(Step(s, e), c) { StepKeepsOnce(s, e, c); }
      StepKeepsRest(s, e);
    }
  }

  // Once the completing thread has returned, every callback whose on_completed is over has run
  // exactly once, and every call of any callback was with the one result.
  lemma EachCallbackRunsOnce<R>(locked: bool, events: seq<Event<R>>)
    ensures var s := Run(locked, events);
      && (forall k :: 0 <= k < |s.called| ==> Some(s.called[k].1) == s.result)
      && (forall c :: multiset(Ids(s.called))[c] <= 1)
      && (s.completer.Returned? ==> forall c ::
            multiset(Ids(s.called))[c] == if c in s.registering && s.registering[c].Registered? then 1 else 0)
  {
    RunKeeps(locked, events);
    var s := Run(locked, events);
    forall c ensures multiset(Ids(s.called))[c] <= 1 { assert Once(s, c); }
    forall c ensures s.completer.Returned? ==>
      multiset(Ids(s.called))[c] == if c in s.registering && s.registering[c].Registered? then 1 else 0
    {
      assert Once(s, c);
    }
  }

  // The list is walked without the lock, and yet nobody changes it meanwhile.
  lemma {:induction false} WalkIsUndisturbed<R>(locked: bool, events: seq<Event<R>>, e: Event<R>)
    requires Run(locked, events).completer.Walking? && e != Walk
    ensures var s := Run(locked, events);
      Step(s, e).callbacks == s.callbacks && Step(s, e).completer == s.completer && Step(s, e).result == s.result
  {
    RunKeeps(locked, events);
  }

  // Nobody sleeps in get_result once there is a result, and all are given that one.
  lemma GettersGetTheResult<R>(locked: bool, events: seq<Event<R>>)
    ensures var s := Run(locked, events);
      && (s.result.Some? ==> s.waiting == {})
      && (s.woken != {} ==> s.result.Some?)
      && forall c :: c in s.got ==> Some(s.got[c]) == s.result
  {
    RunKeeps(locked, events);
  }

  // ---- the order of the calls ----

  // As long as the list is not done, only its callbacks have been called, in the order in which
  // they were registered.
  predicate ListInOrder<R>(s: State<R>) {
    match s.completer
    case Running => s.called == []
    case Walking(i) => i <= |s.callbacks| && Ids(s.called) == s.callbacks[..i]
    case Returned => true
  }

  ghost predicate NobodyCallsYet<R>(s: State<R>) {
    !s.completer.Returned? ==> forall c :: c in s.registering ==> s.registering[c].Registered?
  }

  // Under the lock, as in the void task, no callback that comes late overtakes one of the list.
  lemma {:induction false} LockedKeepsOrder<R>(events: seq<Event<R>>)
    ensures ListInOrder(Run(true, events)) && NobodyCallsYet(Run(true, events)) && Run(true, events).locked
  {
    if events != [] {
      var s, e := Run(true, events[..|events| - 1]), events[|events| - 1];
      LockedKeepsOrder(events[..|events| - 1]);
      RunKeeps(true, events[..|events| - 1]);
      if e.Walk? && s.completer.Walking? && s.completer.i < |s.callbacks| {
      }
      assert Ids<R>([]) == [];
    }
  }
}
