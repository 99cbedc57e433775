/**
 * The delayed-task scheduler: a worker thread, a queue under a lock, and a condition variable that
 * execute notifies only sometimes.
 *
 * A step is one locked section, one wait beginning or ending, or one notification.
 */
module SchedulerSpec {

  import opened HeapSpec

  datatype Worker =
    | Looking                    // at the head of run_loop, without the lock
    | Entering                   // past the loop condition, wants the lock
    // in wait; `late` is a history variable: when the wait began the scheduler was inactive and no
    // notification was due, and shutdown has not been called since
    | Sleeping(notified: bool, late: bool)
    // in wait_for, with its copy of the top; `overtaken` is a history variable: since the wait
    // began the queue was cleared or got an entry that is strictly earlier than its top
    | Timed(copy: DelayedExecutable, until: int, notified: bool, overtaken: bool)
    | Ended

  // What the worker called, when, and what it had taken off the queue for it.
  datatype Ran = Ran(called: DelayedExecutable, at: int, popped: Heap, queue: Heap)

  datatype State = State(
    queue: Heap,
    active: bool,
    worker: Worker,
    clock: int,
    pending: nat,                       // notifications due from threads that have left the lock
    clearing: nat,                      // calls of shutdown(false) that are still to clear, and to notify
    accepted: seq<DelayedExecutable>,
    cleared: seq<DelayedExecutable>,
    ran: seq<Ran>)

  function Initial(clock: int): State {
    State([], true, Looking, clock, 0, 0, [], [], [])
  }

  datatype Event =
    // execute's locked section; the clock is read twice in it and moves on by `between`
    | Execute(delay: int, between: nat)
    | Notify                     // a due notify_one or notify_all happens
    | Deactivate(wait: bool)     // shutdown's store; then comes the notification, or first the clearing
    | Clear                      // shutdown(false)'s locked section
    | Tick(passed: nat)
    // the worker goes on; the clock moves on by `between` from reading the delay to the wait's start
    | Work(between: nat)

  function NeedNotify(queue: Heap, clock: int, delay: int): bool {
    queue == [] || queue[0].scheduledTime - clock > delay
  }

  function NotNegative(delay: int): int {
    if delay < 0 then 0 else delay
  }

  // What execute pushes: its id is its number among the accepted ones.
  function Made(s: State, delay: int, between: nat): DelayedExecutable {
    DelayedExecutable(|s.accepted|, s.clock + between + NotNegative(delay))
  }

  predicate Earlier(x: DelayedExecutable, queue: Heap) {
    queue != [] && x.scheduledTime < queue[0].scheduledTime
  }

  function Overtake(w: Worker, yes: bool): Worker {
    if w.Timed? && !w.notified && yes then w.(overtaken := true) else w
  }

  function Accept(s: State, delay: int, between: nat): State {
    var x := Made(s, delay, between);
    var need := NeedNotify(s.queue, s.clock, NotNegative(delay));
    s.(queue := Push(s.queue, x), clock := s.clock + between,
       pending := s.pending + if need then 1 else 0, accepted := s.accepted + [x],
       worker := Overtake(s.worker, Earlier(x, s.queue)))
  }

  function Woken(w: Worker): Worker {
    if w.Sleeping? || w.Timed? then w.(notified := true) else w
  }

  // pop on an empty queue is undefined; here it then takes nothing.
  function Call(s: State, x: DelayedExecutable): State {
    s.(queue := if s.queue == [] then [] else Pop(s.queue), worker := Looking,
       ran := s.ran + [Ran(x, s.clock, if s.queue == [] then [] else [s.queue[0]], s.queue)])
  }

  // With the lock held and the queue not empty.
  function Take(s: State, between: nat): State
    requires s.queue != []
  {
    var top := s.queue[0];
    var delay := top.scheduledTime - s.clock;
    if delay > 0 then s.(worker := Timed(top, s.clock + between + delay, false, false), clock := s.clock + between)
    else Call(s, top)
  }

  // Notifications that will happen without any further call.
  function Due(s: State): nat {
    s.pending + s.clearing
  }

  predicate CanWork(s: State) {
    match s.worker
    case Sleeping(notified, _) => notified
    case Timed(_, until, notified, _) => notified || s.clock >= until
    case Ended => false
    case _ => true
  }

  function Turn(s: State, between: nat): State
    requires CanWork(s)
  {
    match s.worker
    case Looking => s.(worker := if s.active || s.queue != [] then Entering else Ended)
    case Entering => if s.queue == [] then s.(worker := Sleeping(false, !s.active && Due(s) == 0)) else Take(s, between)
    case Sleeping(_, _) => if s.queue == [] then s.(worker := Looking) else Take(s, between)
    case Timed(copy, _, notified, _) => if notified then s.(worker := Looking) else Call(s, copy)
  }

  function Step(s: State, e: Event): State {
    match e
    case Execute(delay, between) => if s.active then Accept(s, delay, between) else s
    case Notify => if s.pending == 0 then s else s.(pending := s.pending - 1, worker := Woken(s.worker))
    case Deactivate(wait) =>
      s.(active := false, worker := if s.worker.Sleeping? then s.worker.(late := false) else s.worker,
         pending := s.pending + if wait then 1 else 0, clearing := s.clearing + if wait then 0 else 1)
    case Clear =>
      if s.clearing == 0 then s
      else s.(queue := [], cleared := s.cleared + s.queue, worker := Overtake(s.worker, true),
              pending := s.pending + 1, clearing := s.clearing - 1)
    case Tick(passed) => s.(clock := s.clock + passed)
    case Work(between) => if CanWork(s) then Turn(s, between) else s
  }

  function Run(start: int, events: seq<Event>): State {
    if events == [] then Initial(start) else Step(Run(start, events[..|events| - 1]), events[|events| - 1])
  }
}
