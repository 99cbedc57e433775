/**
 * What the scheduler keeps over all interleavings, and when its rule for notifying is enough.
 *
 * A worker in wait_for holds a copy of the top of the queue. Unless it has been notified, the copy is
 * still the top, or it was overtaken by a strictly earlier entry or a clearing, and then a
 * notification is due. A worker in wait has an empty queue, or a notification is due. What was
 * accepted is, at every moment, what was taken off the queue, what is queued and what was cleared.
 */
module SchedulerRun {

  import opened HeapSpec
  import opened SchedulerSpec

  // ---- the rule ----

  // If execute does not notify, the top of the queue is the same entry as before; an entry that is
  // strictly earlier than the top is always notified.
  lemma SilentPushKeepsTop(s: State, delay: int, between: nat)
    requires IsHeap(s.queue)
    ensures var t := Accept(s, delay, between);
      && (t.pending == s.pending ==> s.queue != [] && t.queue[0] == s.queue[0])
      && (Earlier(Made(s, delay, between), s.queue) ==> t.pending == s.pending + 1 && t.queue[0] == Made(s, delay, between))
      && (s.queue != [] && !Earlier(Made(s, delay, between), s.queue) ==> t.queue[0] == s.queue[0])
  {
    PushTop(s.queue, Made(s, delay, between));
    PushKeepsHeap(s.queue, Made(s, delay, between));
  }

  // ---- the waiting worker ----

  // A worker in wait_for that was not notified still has the top of the queue in its hand, unless it
  // was overtaken, and then a notification is due. A worker in wait has no work, or one is due; and
  // it was late for shutdown exactly if the scheduler is inactive and nothing is due.
  predicate WaitsWell(s: State) {
    match s.worker
    case Timed(copy, until, notified, overtaken) =>
      && until >= copy.scheduledTime
      && copy.id < |s.accepted|
      && (!notified && overtaken ==> s.pending > 0 && LostTop(s.queue, copy))
      && (!notified && !overtaken ==> s.queue != [] && s.queue[0] == copy)
    case Sleeping(notified, late) =>
      && (!notified && s.queue != [] ==> s.pending > 0)
      && (!notified ==> (late <==> !s.active && Due(s) == 0))
    case _ => true
  }

  // The copy is not the top, and what is pushed later does not make it the top.
  predicate LostTop(queue: Heap, copy: DelayedExecutable) {
    copy !in queue || queue[0].scheduledTime < copy.scheduledTime
  }

  ghost predicate Numbered(s: State) {
    && (forall k :: 0 <= k < |s.accepted| ==> s.accepted[k].id == k)
    && (forall x :: x in s.queue ==> x.id < |s.accepted|)
  }

  lemma AcceptKeepsWaiting(s: State, delay: int, between: nat)
    requires IsHeap(s.queue) && WaitsWell(s) && s.active
    ensures WaitsWell(Accept(s, delay, between))
  {
    var x := Made(s, delay, between);
    SilentPushKeepsTop(s, delay, between);
    PushTop(s.queue, x);
    InPush(s.queue, x);
  }

  lemma InPush(h: Heap, x: DelayedExecutable)
    requires IsHeap(h)
    ensures forall y :: y in Push(h, x) <==> y in h || y == x
  {
    PushKeepsHeap(h, x);
    forall y ensures y in Push(h, x) <==> y in h || y == x {
      assert y in Push(h, x) <==> y in multiset(Push(h, x));
      assert y in h <==> y in multiset(h);
    }
  }

  lemma InPop(h: Heap)
    requires IsHeap(h) && h != []
    ensures forall y :: y in Pop(h) ==> y in h
  {
    PopKeepsHeap(h);
    forall y | y in Pop(h) ensures y in h {
      assert y in multiset(Pop(h));
      assert y in multiset(h);
    }
  }

  lemma StepKeepsWaiting(s: State, e: Event)
    requires IsHeap(s.queue) && Numbered(s) && WaitsWell(s)
    ensures WaitsWell(Step(s, e))
  {
    if e.Execute? && s.active { AcceptKeepsWaiting(s, e.delay, e.between); }
    if e.Work? && CanWork(s) && s.queue != [] { assert s.queue[0] in s.queue; }
  }

  lemma AcceptKeepsQueue(s: State, delay: int, between: nat)
    requires IsHeap(s.queue) && Numbered(s)
    ensures IsHeap(Accept(s, delay, between).queue) && Numbered(Accept(s, delay, between))
  {
    PushKeepsHeap(s.queue, Made(s, delay, between));
    InPush(s.queue, Made(s, delay, between));
  }

  lemma TurnKeepsQueue(s: State, between: nat)
    requires IsHeap(s.queue) && Numbered(s) && CanWork(s)
    ensures IsHeap(Turn(s, between).queue) && Numbered(Turn(s, between))
  {
    var t := Turn(s, between);
    if s.queue != [] {
      PopKeepsHeap(s.queue);
      InPop(s.queue);
    }
    assert t.queue == s.queue || (s.queue != [] && t.queue == Pop(s.queue));
    assert t.accepted == s.accepted;
  }

  lemma StepKeepsQueue(s: State, e: Event)
    requires IsHeap(s.queue) && Numbered(s)
    ensures IsHeap(Step(s, e).queue) && Numbered(Step(s, e))
  {
    if e.Execute? && s.active { AcceptKeepsQueue(s, e.delay, e.between); }
    if e.Work? && CanWork(s) { TurnKeepsQueue(s, e.between); }
  }

  // ---- conservation ----

  function Popped(ran: seq<Ran>): Heap {
    if ran == [] then [] else Popped(ran[..|ran| - 1]) + ran[|ran| - 1].popped
  }

  function Called(ran: seq<Ran>): seq<DelayedExecutable> {
    if ran == [] then [] else Called(ran[..|ran| - 1]) + [ran[|ran| - 1].called]
  }

  ghost predicate Conserved(s: State) {
    multiset(s.accepted) == multiset(Popped(s.ran)) + multiset(s.queue) + multiset(s.cleared)
  }

  lemma RanOneMore(ran: seq<Ran>, r: Ran)
    ensures Popped(ran + [r]) == Popped(ran) + r.popped && Called(ran + [r]) == Called(ran) + [r.called]
  {
    var more := ran + [r];
    assert more[..|more| - 1] == ran;
  }

  lemma TopTakenOff(h: Heap)
    requires IsHeap(h) && h != []
    ensures multiset(h) == multiset(Pop(h)) + multiset([h[0]])
  {
    PopKeepsHeap(h);
    assert h[0] in multiset(h);
  }

  lemma CallKeepsConserved(s: State, x: DelayedExecutable)
    requires IsHeap(s.queue) && Conserved(s)
    ensures Conserved(Call(s, x))
  {
    var t := Call(s, x);
    RanOneMore(s.ran, t.ran[|s.ran|]);
    if s.queue != [] { TopTakenOff(s.queue); }
  }

  lemma AcceptKeepsConserved(s: State, delay: int, between: nat)
    requires IsHeap(s.queue) && Conserved(s)
    ensures Conserved(Accept(s, delay, between))
  {
    PushKeepsHeap(s.queue, Made(s, delay, between));
  }

  // A turn of the worker that changes anything but its place and the clock is a call.
  lemma TurnIsACall(s: State, between: nat)
    requires CanWork(s)
    ensures var t := Turn(s, between);
      && (t.ran == s.ran ==> t.queue == s.queue)
      && (t.ran != s.ran ==> t == Call(s, if s.worker.Timed? || s.queue == [] then t.ran[|s.ran|].called else s.queue[0]))
      && t.accepted == s.accepted && t.cleared == s.cleared
  {
  }

  lemma StepKeepsConserved(s: State, e: Event)
    requires IsHeap(s.queue) && Conserved(s)
    ensures Conserved(Step(s, e))
  {
    match e
    case Execute(delay, between) => if s.active { AcceptKeepsConserved(s, delay, between); }
    case Work(between) =>
      if CanWork(s) {
        TurnIsACall(s, between);
        var t := Turn(s, between);
        if t.ran != s.ran {
          CallKeepsConserved(s, if s.worker.Timed? || s.queue == [] then t.ran[|s.ran|].called else s.queue[0]);
        }
      }
    case _ =>
  }

  ghost predicate Inv(s: State) {
    IsHeap(s.queue) && Numbered(s) && WaitsWell(s) && Conserved(s)
  }

  lemma {:induction false} RunKeeps(start: int, events: seq<Event>)
    ensures Inv(Run(start, events))
  {
    if events != [] {
      var s, e := Run(start, events[..|events| - 1]), events[|events| - 1];
      RunKeeps(start, events[..|events| - 1]);
      StepKeepsWaiting(s, e);
      StepKeepsQueue(s, e);
      StepKeepsConserved(s, e);
    }
  }
}
