/**
 * What every run of the scheduler does, and exactly when it calls a task it did not take.
 */
module SchedulerResults {

  import opened HeapSpec
  import opened SchedulerSpec
  import opened SchedulerRun

  // ---- never early, always a minimum ----

  ghost predicate NotEarly(ran: seq<Ran>) {
    forall k :: 0 <= k < |ran| ==> ran[k].at >= ran[k].called.scheduledTime
  }

  // No task is ever called before its time, whatever the interleaving.
  lemma {:induction false} NeverEarly(start: int, events: seq<Event>)
    ensures NotEarly(Run(start, events).ran)
  {
    if events != [] {
      var before := events[..|events| - 1];
      NeverEarly(start, before);
      RunKeeps(start, before);
      StepIsNotEarly(Run(start, before), events[|events| - 1]);
    }
  }

  lemma StepIsNotEarly(s: State, e: Event)
    requires WaitsWell(s) && NotEarly(s.ran)
    ensures NotEarly(Step(s, e).ran)
  {
  }

  // The worker took the entry that it called, and none of those queued was earlier.
  predicate Exact(r: Ran) {
    && r.popped == [r.called]
    && forall k :: 0 <= k < |r.queue| ==> r.called.scheduledTime <= r.queue[k].scheduledTime
  }

  // The worker wakes at its deadline although it was overtaken: the notification comes too late.
  predicate TooLate(s: State, e: Event) {
    e.Work? && CanWork(s) && s.worker.Timed? && !s.worker.notified && s.worker.overtaken
  }

  lemma TurnIsExact(s: State, between: nat)
    requires IsHeap(s.queue) && WaitsWell(s) && CanWork(s)
    ensures var t := Turn(s, between);
      t.ran == s.ran || (t.ran == s.ran + [t.ran[|s.ran|]] && (Exact(t.ran[|s.ran|]) <==> !TooLate(s, Work(between))))
  {
    if s.queue != [] {
      forall k | 0 <= k < |s.queue| ensures s.queue[0].scheduledTime <= s.queue[k].scheduledTime {
        TopIsEarliest(s.queue, k);
      }
    }
  }

  ghost predicate AllExact(ran: seq<Ran>) {
    forall k :: 0 <= k < |ran| ==> Exact(ran[k])
  }

  ghost predicate NeverTooLate(start: int, events: seq<Event>) {
    forall k :: 0 <= k < |events| ==> !TooLate(Run(start, events[..k]), events[k])
  }

  // A run calls exactly what it takes, each time a minimum of the queue, if and only if the worker
  // never wakes at its deadline between an overtaking push, or a clear, and its notification.
  lemma {:induction false} ExactUnlessTooLate(start: int, events: seq<Event>)
    ensures AllExact(Run(start, events).ran) <==> NeverTooLate(start, events)
  {
    if events != [] {
      var before, e := events[..|events| - 1], events[|events| - 1];
      var s := Run(start, before);
      ExactUnlessTooLate(start, before);
      RunKeeps(start, before);
      StepIsExact(s, e);
      assert NeverTooLate(start, events) <==> NeverTooLate(start, before) && !TooLate(s, e) by {
        forall k | 0 <= k < |before| ensures events[..k] == before[..k] { }
        assert events[..|before|] == before;
        LateOrNot(start, events);
      }
    }
  }

  lemma LateOrNot(start: int, events: seq<Event>)
    requires events != []
    ensures var before, e := events[..|events| - 1], events[|events| - 1];
      NeverTooLate(start, events) <==> NeverTooLate(start, before) && !TooLate(Run(start, before), e)
  {
    var before := events[..|events| - 1];
    if NeverTooLate(start, events) {
      forall k | 0 <= k < |before| ensures !TooLate(Run(start, before[..k]), before[k]) {
        assert events[..k] == before[..k];
        assert !TooLate(Run(start, events[..k]), events[k]);
      }
    } else {
      var k :| 0 <= k < |events| && TooLate(Run(start, events[..k]), events[k]);
      if k < |before| { assert events[..k] == before[..k]; }
    }
  }

  lemma StepIsExact(s: State, e: Event)
    requires IsHeap(s.queue) && WaitsWell(s)
    ensures AllExact(Step(s, e).ran) <==> AllExact(s.ran) && !TooLate(s, e)
  {
    if e.Work? && CanWork(s) {
      TurnIsExact(s, e.between);
      OneMoreExact(s.ran, Turn(s, e.between).ran);
      assert Turn(s, e.between).ran == s.ran ==> !TooLate(s, e);
    }
  }

  lemma OneMoreExact(ran: seq<Ran>, more: seq<Ran>)
    requires more == ran || (|more| == |ran| + 1 && more[..|ran|] == ran)
    ensures more != ran ==> (AllExact(more) <==> AllExact(ran) && Exact(more[|ran|]))
  {
    if more != ran && AllExact(more) {
      forall k | 0 <= k < |ran| ensures Exact(ran[k]) { assert ran[k] == more[k]; }
    }
    if more != ran && AllExact(ran) && Exact(more[|ran|]) {
      forall k | 0 <= k < |more| ensures Exact(more[k]) { assert k < |ran| ==> more[k] == ran[k]; }
    }
  }

  // ---- when notifications are prompt ----

  // Wherever the worker wakes at a deadline, no notification is due.
  ghost predicate Prompt(start: int, events: seq<Event>) {
    forall k :: 0 <= k < |events| ==>
      var s := Run(start, events[..k]); Deadline(s, events[k]) ==> s.pending == 0
  }

  predicate Deadline(s: State, e: Event) {
    e.Work? && CanWork(s) && s.worker.Timed? && !s.worker.notified
  }

  // The rule for notifying is enough: with prompt notifications every call is of the entry taken, a
  // minimum of the queue, at its time or later, and each accepted task is called, or cleared, or
  // still queued, exactly once.
  lemma {:induction false} PromptRunsAreExact(start: int, events: seq<Event>)
    requires Prompt(start, events)
    ensures var s := Run(start, events);
      && AllExact(s.ran) && NotEarly(s.ran)
      && multiset(s.accepted) == multiset(Called(s.ran)) + multiset(s.queue) + multiset(s.cleared)
      && forall x :: multiset(Called(s.ran))[x] <= 1
  {
    forall k | 0 <= k < |events| ensures !TooLate(Run(start, events[..k]), events[k]) {
      RunKeeps(start, events[..k]);
      var s := Run(start, events[..k]);
      assert Deadline(s, events[k]) ==> s.pending == 0;
    }
    ExactUnlessTooLate(start, events);
    NeverEarly(start, events);
    RunKeeps(start, events);
    var s := Run(start, events);
    CalledIsPopped(s.ran);
    forall x ensures multiset(Called(s.ran))[x] <= 1 { AcceptedOnce(s.accepted, x); }
  }

  lemma {:induction false} CalledIsPopped(ran: seq<Ran>)
    requires AllExact(ran)
    ensures Called(ran) == Popped(ran)
  {
    if ran != [] {
      var before := ran[..|ran| - 1];
      forall k | 0 <= k < |before| ensures Exact(before[k]) { assert Exact(ran[k]); }
      CalledIsPopped(before);
      assert Exact(ran[|ran| - 1]);
    }
  }

  lemma {:induction false} AcceptedOnce(accepted: seq<DelayedExecutable>, x: DelayedExecutable)
    requires forall k :: 0 <= k < |accepted| ==> accepted[k].id == k
    ensures multiset(accepted)[x] <= 1
    ensures x in accepted ==> x.id < |accepted|
  {
    if accepted != [] {
      var before, last := accepted[..|accepted| - 1], accepted[|accepted| - 1];
      assert accepted == before + [last];
      AcceptedOnce(before, x);
      assert multiset(accepted) == multiset(before) + multiset{last};
      if x == last { assert x !in before; assert multiset(before)[x] == 0; }
    }
  }

  // Without the assumption, still nothing is lost from the queue's point of view: what was taken off
  // it, what is on it and what was cleared is what was accepted.
  lemma {:induction false} NothingIsLostFromTheQueue(start: int, events: seq<Event>)
    ensures var s := Run(start, events);
      multiset(s.accepted) == multiset(Popped(s.ran)) + multiset(s.queue) + multiset(s.cleared)
  {
    RunKeeps(start, events);
  }

  // No wake-up is lost: a worker asleep beside a non-empty queue is about to be notified, and so is
  // one that waits for a task that is no longer the first.
  lemma NoLostWakeUp(start: int, events: seq<Event>)
    ensures var s := Run(start, events);
      && (s.worker.Sleeping? && !s.worker.notified && s.queue != [] ==> s.pending > 0)
      && (s.worker.Timed? && !s.worker.notified && s.pending == 0 ==> s.queue != [] && s.queue[0] == s.worker.copy)
  {
    RunKeeps(start, events);
  }

  // ---- where it goes wrong ----

  lemma Extend(start: int, events: seq<Event>, e: Event) returns (more: seq<Event>)
    ensures more == events + [e] && Run(start, more) == Step(Run(start, events), e)
  {
    more := events + [e];
    assert more[..|more| - 1] == events;
  }

  lemma WaitsForTheFirst() returns (events: seq<Event>)
    ensures var a := DelayedExecutable(0, 100);
      Run(0, events) == State([a], true, Timed(a, 100, false, false), 0, 1, 0, [a], [], [])
  {
    events := Extend(0, [], Execute(100, 0));
    assert Push([], DelayedExecutable(0, 100)) == [DelayedExecutable(0, 100)];
    events := Extend(0, events, Work(0));
    events := Extend(0, events, Work(0));
  }

  lemma Overtaken() returns (events: seq<Event>)
    ensures var a, b := DelayedExecutable(0, 100), DelayedExecutable(1, 10);
      Run(0, events) == State([b, a], true, Timed(a, 100, false, true), 100, 2, 0, [a, b], [], [])
  {
    events := WaitsForTheFirst();
    var a, b := DelayedExecutable(0, 100), DelayedExecutable(1, 10);
    events := Extend(0, events, Execute(10, 0));
    assert SiftUp([b, a], 0) == [b, a];
    assert Swap([a, b], 1, 0) == [b, a];
    assert Push([a], b) == [b, a];
    events := Extend(0, events, Tick(100));
  }

  // A task is called twice and another one never: the earlier one is pushed, and before its
  // notification the worker wakes at the deadline of the later one.
  lemma LateNotificationCallsTwice()
    ensures exists events :: var s := Run(0, events);
      && s.accepted == [DelayedExecutable(0, 100), DelayedExecutable(1, 10)] && s.queue == [] && s.cleared == []
      && Called(s.ran) == [DelayedExecutable(0, 100), DelayedExecutable(0, 100)]
  {
    var events := Overtaken();
    var a, b := DelayedExecutable(0, 100), DelayedExecutable(1, 10);
    assert Pop([b, a]) == [a];
    events := Extend(0, events, Work(0));
    events := Extend(0, events, Work(0));
    assert Pop([a]) == [];
    events := Extend(0, events, Work(0));
    var ran := Run(0, events).ran;
    assert ran[..1] == [ran[0]] && ran[..0] == [];
    assert Called(ran[..1]) == [a];
  }

  // ---- when a shutdown is missed ----

  // The worker sleeps for good after shutdown, with nothing due to wake it, if and only if it was
  // late: the wait that is going on began when the scheduler was already inactive and no
  // notification was due, and shutdown has not been called since.
  lemma {:induction false} ShutdownIsMissedByTheLate(start: int, events: seq<Event>)
    ensures var s := Run(start, events);
      s.worker.Sleeping? && !s.worker.notified ==> (!s.active && Due(s) == 0 <==> s.worker.late)
  {
    RunKeeps(start, events);
  }

  // Then only a further shutdown can wake it: no other event does, or makes a notification due.
  lemma {:induction false} TheLateSleepOn(start: int, events: seq<Event>, e: Event)
    requires Run(start, events).worker == Sleeping(false, true) && !e.Deactivate?
    ensures var t := Step(Run(start, events), e); t.worker == Sleeping(false, true) && !t.active && Due(t) == 0
  {
    RunKeeps(start, events);
  }

  // It happens: the shutdown, with its notification, comes between the worker's look at the loop
  // condition and its wait.
  lemma ShutdownCanBeMissed()
    ensures exists events :: var s := Run(0, events);
      s.worker == Sleeping(false, true) && !s.active && s.queue == [] && Due(s) == 0
  {
    var events := Extend(0, [], Work(0));
    events := Extend(0, events, Deactivate(true));
    events := Extend(0, events, Notify);
    events := Extend(0, events, Work(0));
  }
}
