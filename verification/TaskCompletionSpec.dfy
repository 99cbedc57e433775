/**
 * Completion of a task: the result is set once, and callbacks are registered before or after that
 * from any thread.
 *
 * A step is one section under completion_lock, or one callback called.
 */
module TaskCompletionSpec {

  import opened Wrappers

  type Id = nat   // a callback, or a thread that asks for the result

  // The thread that completes a task.
  datatype Completer = Running | Walking(i: nat) | Returned

  // A call of on_completed.
  datatype Registering<R> = Registered | Calling(value: R)

  datatype State<R> = State(
    locked: bool,                        // notify_callbacks runs under the lock
    result: Option<R>,
    callbacks: seq<Id>,
    completer: Completer,
    registering: map<Id, Registering<R>>,
    order: seq<Id>,                      // history: in this order on_completed got the lock
    called: seq<(Id, R)>,                // every call of a callback, in order
    waiting: set<Id>,                    // asleep in get_result
    woken: set<Id>,                      // notified there
    got: map<Id, R>)                     // what get_result returned

  function Initial<R>(locked: bool): State<R> {
    State(locked, None, [], Running, map[], [], [], {}, {}, map[])
  }

  datatype Event<R> =
    | Complete(value: R)     // the result is set and everybody is notified
    | Walk                   // notify_callbacks calls the next callback, or clears the list
    | OnCompleted(id: Id)
    | CallNow(id: Id)        // on_completed calls its callback, outside the lock
    | GetResult(id: Id)
    | WakeUp(id: Id)

  predicate LockFree<R>(s: State<R>) {
    !(s.locked && s.completer.Walking?)
  }

  function Step<R(==)>(s: State<R>, e: Event<R>): State<R> {
    match e
    case Complete(value) =>
      if !s.completer.Running? then s
      else s.(result := Some(value), completer := Walking(0), waiting := {}, woken := s.woken + s.waiting)
    case Walk =>
      if !s.completer.Walking? || s.result == None then s
      else if s.completer.i < |s.callbacks| then
        s.(called := s.called + [(s.callbacks[s.completer.i], s.result.value)], completer := Walking(s.completer.i + 1))
      else s.(callbacks := [], completer := Returned)
    case OnCompleted(id) =>
      if !LockFree(s) || id in s.registering then s
      else if s.result.Some? then s.(registering := s.registering[id := Calling(s.result.value)], order := s.order + [id])
      else s.(registering := s.registering[id := Registered], callbacks := s.callbacks + [id], order := s.order + [id])
    case CallNow(id) =>
      if id in s.registering && s.registering[id].Calling? then
        s.(called := s.called + [(id, s.registering[id].value)], registering := s.registering[id := Registered])
      else s
    case GetResult(id) =>
      if !LockFree(s) || id in s.waiting || id in s.woken then s
      else if s.result.Some? then s.(got := s.got[id := s.result.value])
      else s.(waiting := s.waiting + {id})
    case WakeUp(id) =>
      if !LockFree(s) || id !in s.woken || s.result == None then s
      else s.(woken := s.woken - {id}, got := s.got[id := s.result.value])
  }

  function Run<R(==)>(locked: bool, events: seq<Event<R>>): State<R> {
    if events == [] then Initial(locked) else Step(Run(locked, events[..|events| - 1]), events[|events| - 1])
  }
}
