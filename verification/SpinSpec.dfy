/**
 * What one round of the executor's spin loop does, on values.
 */
module SpinSpec {

  import opened Wrappers
  import opened CoroutineTables

  type Resumption = nat   // a std::function handed to re_execute

  datatype Handle = Handle(sub: Sub, intraProcess: bool, useCoroutine: bool)

  // What is ready besides resumptions: the nodes' first ready timer, and what the memory strategy
  // holds that is valid and whose group is free.
  datatype Offer = Offer(
    timer: Option<nat>,
    subscriptions: seq<Handle>,
    service: Option<nat>,
    client: Option<nat>,
    waitable: Option<nat>)

  datatype AnyExecutable =
    | Nothing
    | Coroutine(resumption: Resumption)
    | Timer(timer: nat)
    | Subscription(handle: Handle)
    | Service(service: nat)
    | Client(client: nat)
    | Waitable(waitable: nat)

  // The first subscription that is not listed as suspended.
  function NextSubscription(handles: seq<Handle>, suspended: seq<Sub>): (h: Option<Handle>)
    ensures h.Some? ==> h.value in handles && h.value.sub !in suspended
    ensures h.None? ==> forall x :: x in handles ==> x.sub in suspended
  {
    if handles == [] then None
    else if handles[0].sub in suspended then NextSubscription(handles[1..], suspended)
    else Some(handles[0])
  }

  function Choose(queue: seq<Resumption>, suspended: seq<Sub>, offer: Offer): (x: AnyExecutable)
    ensures queue != [] ==> x == Coroutine(queue[0])
    ensures queue == [] ==> !x.Coroutine?
    ensures x.Subscription? ==> x.handle.sub !in suspended && offer.timer.None?
  {
    if queue != [] then Coroutine(queue[0])
    else if offer.timer.Some? then Timer(offer.timer.value)
    else match NextSubscription(offer.subscriptions, suspended)
      case Some(h) => Subscription(h)
      case None =>
        if offer.service.Some? then Service(offer.service.value)
        else if offer.client.Some? then Client(offer.client.value)
        else if offer.waitable.Some? then Waitable(offer.waitable.value)
        else Nothing
  }

  // A chosen coroutine subscription is listed as suspended from now on.
  function ListChosen(suspended: seq<Sub>, x: AnyExecutable): seq<Sub> {
    if x.Subscription? && x.handle.useCoroutine then suspended + [x.handle.sub] else suspended
  }

  // The outcome of get_next_executable.
  datatype Round = Round(
    x: AnyExecutable,
    idle: Option<Idle>,        // what the thread did when it found nothing
    tables: Tables,
    queue: seq<Resumption>,
    spinning: bool)

  function Found(t: Tables, queue: seq<Resumption>, offer: Offer, idle: Option<Idle>, spinning: bool): Round {
    var x := Choose(queue, t.suspended, offer);
    Round(x, idle, t.(suspended := ListChosen(t.suspended, x)), if x.Coroutine? then queue[1..] else queue, spinning)
  }

  // `first` is what is ready at once and `second` after the wait; `arrived` are the resumptions that
  // other threads push between the two looks, and `cancelled` says whether cancel comes then.
  function NextExecutable(t: Tables, queue: seq<Resumption>, spinning: bool, tid: Thread,
                          first: Offer, second: Offer, arrived: seq<Resumption>, cancelled: bool): Round
    requires OwnsFront(t, tid) ==> t.queue[0].1 < |t.ready|
  {
    if Choose(queue, t.suspended, first) != Nothing then Found(t, queue, first, None, spinning)
    else
      var idle := IdleAction(t, tid);
      if idle == Retire then Round(Nothing, Some(idle), AfterIdle(t, tid), queue, spinning)
      else if !spinning || cancelled then Round(Nothing, Some(idle), t, queue + arrived, false)
      else Found(t, queue + arrived, second, Some(idle), true)
  }
}
