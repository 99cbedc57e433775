/**
 * Runs of the intra-process manager together with its clients, and their refinement of Delivery.
 *
 * Clients create messages, hand them over by unique or shared pointer, take messages, and may write
 * to whatever they hold by unique pointer. `owner` is a ledger kept beside the state: it records
 * for every object how it can be reached.
 */
module IntraProcessRun {

  import opened Wrappers
  import opened RingSpec
  import opened RingWindow
  import opened IntraProcessSpec
  import D = Delivery

  datatype Owner = Client | Shared | InSlot(p: Id, i: nat)

  datatype World<T> = World(
    impl: Impl,
    nextId: Id,
    heap: seq<T>,
    owner: seq<Owner>,
    unique: set<Obj>,    // held by clients through unique_ptr
    shared: set<Obj>)    // held by clients through shared_ptr<const>
  {
    // Every pointer leads into the heap.
    ghost predicate Bounded() {
      && |owner| == |heap|
      && Valid(impl, |heap|)
      && (forall o :: o in unique ==> o < |heap|)
      && (forall o :: o in shared ==> o < |heap|)
    }
  }

  datatype Event<T> =
    | AddSubscription(topic: Topic)
    | RemoveSubscription(id: Id)
    | AddPublisher(topic: Topic, size: nat)
    | RemovePublisher(id: Id)
    | ExpirePublisher(id: Id)
    | Create(message: T)
    | Share(o: Obj)
    | Write(o: Obj, message: T)
    | StoreUnique(p: Id, o: Obj)
    | StoreShared(p: Id, o: Obj)
    | TakeUnique(p: Id, q: nat, s: Id)
    | TakeShared(p: Id, q: nat, s: Id)

  // A client can only use a pointer it has; otherwise the event does not happen.
  predicate Possible<T>(w: World<T>, e: Event<T>) {
    match e
    case Share(o) => o in w.unique
    case Write(o, _) => o in w.unique
    case StoreUnique(_, o) => o in w.unique
    case StoreShared(_, o) => o in w.shared
    case _ => true
  }

  // The ledger grown to n objects, with o given to `who`.
  function Record(owner: seq<Owner>, n: nat, o: Obj, who: Owner): (r: seq<Owner>)
    requires |owner| <= n && o < n
    ensures |r| == n
  {
    (owner + seq(n - |owner|, _ => Client))[o := who]
  }

  function Replied<T>(w: World<T>, r: Reply<T>, shared: bool): World<T>
    requires |w.owner| <= |r.heap|
    requires r.value.Ok? && r.value.value.Some? ==> r.value.value.value < |r.heap|
    requires r.value == Ok(None) || r.value.Err? ==> |r.heap| == |w.owner|
  {
    match r.value
    case Ok(Some(o)) =>
      World(r.impl, w.nextId, r.heap, Record(w.owner, |r.heap|, o, if shared then Shared else Client),
            if shared then w.unique else w.unique + {o},
            if shared then w.shared + {o} else w.shared)
    case _ => w.(impl := r.impl, heap := r.heap)
  }

  function StoredUnique<T>(w: World<T>, p: Id, o: Obj): World<T>
    requires w.Bounded() && o in w.unique
  {
    w.(impl := Store(w.impl, p, Some(o), None).impl,
       owner := if p in w.impl.publishers
                then w.owner[o := InSlot(p, w.impl.publishers[p].buffer.head)] else w.owner,
       unique := w.unique - {o})
  }

  function Step<T>(w: World<T>, e: Event<T>): World<T>
    requires w.Bounded()
  {
    if !Possible(w, e) then w else
    match e
    case AddSubscription(topic) =>
      w.(impl := IntraProcessSpec.AddSubscription(w.impl, w.nextId, topic), nextId := w.nextId + 1)
    case RemoveSubscription(id) => w.(impl := IntraProcessSpec.RemoveSubscription(w.impl, id))
    case AddPublisher(topic, size) =>
      w.(impl := if size == 0 then w.impl else IntraProcessSpec.AddPublisher(w.impl, w.nextId, topic, Empty(size)),
         nextId := w.nextId + 1)
    case RemovePublisher(id) => w.(impl := IntraProcessSpec.RemovePublisher(w.impl, id))
    case ExpirePublisher(id) => w.(impl := IntraProcessSpec.ExpirePublisher(w.impl, id))
    case Create(message) =>
      w.(heap := w.heap + [message], owner := w.owner + [Client], unique := w.unique + {|w.heap|})
    case Share(o) =>
      w.(owner := w.owner[o := Shared], unique := w.unique - {o}, shared := w.shared + {o})
    case Write(o, message) => w.(heap := w.heap[o := message])
    case StoreUnique(p, o) => StoredUnique(w, p, o)
    case StoreShared(p, o) => w.(impl := Store(w.impl, p, None, Some(o)).impl)
    case TakeUnique(p, q, s) => Replied(w, IntraProcessSpec.TakeUnique(w.impl, w.heap, p, q, s), false)
    case TakeShared(p, q, s) => Replied(w, IntraProcessSpec.TakeShared(w.impl, w.heap, p, q, s), true)
  }
}
