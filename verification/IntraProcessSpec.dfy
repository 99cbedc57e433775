/**
 * What IntraProcessManager and IntraProcessManagerImpl compute, on values.
 *
 * The books hold each subscription's topic, each topic's subscriptions, and for each publisher its
 * topic while it is in scope, the number of its next message, its ring, and for each message the
 * subscriptions that have yet to take it. They are generic in the ring, so that the class, whose
 * rings are objects, and the runs, whose rings are values, use the same books.
 */
module IntraProcessSpec {

  import opened Wrappers
  import opened RingSpec

  type Topic = string
  type Id = nat

  datatype Error = InvalidPublisherId | PublisherOutOfScope | EmptyElement | ZeroBufferSize

  // `publisher` is the topic the weak pointer leads to, or None once the publisher is gone. The
  // books are the same whether a buffer is a ring value or a ring object.
  datatype Info<B> = Info(
    publisher: Option<Topic>,
    sequenceNumber: nat,
    buffer: B,
    targets: map<nat, set<Id>>)

  datatype Books<B> = Books(
    subscriptions: map<Id, Topic>,
    idsByTopic: map<Topic, set<Id>>,
    publishers: map<Id, Info<B>>)

  type PublisherInfo = Info<Ring>
  type Impl = Books<Ring>

  // Every ring has a positive size and points into a heap of `n` cells.
  ghost predicate Valid(m: Impl, n: nat) {
    forall p :: p in m.publishers ==> m.publishers[p].buffer.Shaped() && m.publishers[p].buffer.Within(n)
  }

  function Ids(m: map<Topic, set<Id>>, topic: Topic): set<Id> {
    if topic in m then m[topic] else {}
  }

  function AddSubscription<B>(m: Books<B>, id: Id, topic: Topic): Books<B> {
    m.(subscriptions := m.subscriptions[id := topic],
       idsByTopic := m.idsByTopic[topic := Ids(m.idsByTopic, topic) + {id}])
  }

  function WithoutTarget(targets: map<nat, set<Id>>, id: Id): map<nat, set<Id>> {
    map q | q in targets :: targets[q] - {id}
  }

  function RemoveSubscription<B>(m: Books<B>, id: Id): Books<B> {
    Books(m.subscriptions - {id},
         map t | t in m.idsByTopic :: m.idsByTopic[t] - {id},
         map p | p in m.publishers :: m.publishers[p].(targets := WithoutTarget(m.publishers[p].targets, id)))
  }

  // Assigning through publishers_[id] keeps the targets of an entry that already exists.
  function AddPublisher<B>(m: Books<B>, id: Id, topic: Topic, buffer: B): Books<B> {
    var targets := if id in m.publishers then m.publishers[id].targets else map[];
    m.(publishers := m.publishers[id := Info(Some(topic), 0, buffer, targets)])
  }

  function RemovePublisher<B>(m: Books<B>, id: Id): Books<B> {
    m.(publishers := m.publishers - {id})
  }

  // The publisher object goes out of scope; only its weak pointer notices.
  function ExpirePublisher<B>(m: Books<B>, id: Id): Books<B> {
    if id !in m.publishers then m else
    m.(publishers := m.publishers[id := m.publishers[id].(publisher := None)])
  }

  // The first locked part of a store: the next sequence number.
  function FetchSequence<B>(m: Books<B>, p: Id): Books<B>
    requires p in m.publishers
  {
    var info := m.publishers[p];
    m.(publishers := m.publishers[p := info.(sequenceNumber := info.sequenceNumber + 1)])
  }

  function PushMessage(m: Impl, p: Id, q: nat, unique: Option<Obj>, shared: Option<Obj>): Impl
    requires p in m.publishers && m.publishers[p].buffer.Shaped()
  {
    var info := m.publishers[p];
    m.(publishers := m.publishers[p := info.(buffer := Push(info.buffer, q, unique, shared))])
  }

  // The last locked part of a store: freeze the set of subscriptions the message is for.
  function FreezeTargets<B>(m: Books<B>, p: Id, q: nat): Books<B>
    requires p in m.publishers && m.publishers[p].publisher.Some?
  {
    var info := m.publishers[p];
    var topic := info.publisher.value;
    var destined := Ids(m.idsByTopic, topic);
    m.(idsByTopic := m.idsByTopic[topic := destined],
       publishers := m.publishers[p := info.(targets := info.targets[q := destined])])
  }

  datatype Stored = Stored(impl: Impl, value: Result<nat, Error>)

  // A publisher that is gone is only noticed after its message has been pushed.
  function Store(m: Impl, p: Id, unique: Option<Obj>, shared: Option<Obj>): Stored
    requires p in m.publishers ==> m.publishers[p].buffer.Shaped()
  {
    if p !in m.publishers then Stored(m, Err(InvalidPublisherId)) else
    var q := m.publishers[p].sequenceNumber;
    var pushed := PushMessage(FetchSequence(m, p), p, q, unique, shared);
    if pushed.publishers[p].publisher.None? then Stored(pushed, Err(PublisherOutOfScope)) else
    Stored(FreezeTargets(pushed, p, q), Ok(q))
  }

  // Is the message (p, q) still waiting for subscription s?
  predicate Awaited<B>(m: Books<B>, p: Id, q: nat, s: Id) {
    && p in m.publishers
    && q in m.publishers[p].targets
    && s in m.publishers[p].targets[q]
  }

  function CrossOff<B>(m: Books<B>, p: Id, q: nat, s: Id): Books<B>
    requires Awaited(m, p, q, s)
  {
    var info := m.publishers[p];
    m.(publishers := m.publishers[p := info.(targets := info.targets[q := info.targets[q] - {s}])])
  }

  datatype Reply<T> = Reply(impl: Impl, heap: seq<T>, value: Result<Option<Obj>, Error>)

  function Answer<T>(m: Impl, p: Id, o: Outcome<T>): Reply<T>
    requires p in m.publishers
  {
    Reply(m.(publishers := m.publishers[p := m.publishers[p].(buffer := o.ring)]), o.heap,
          match o.value case Ok(v) => Ok(v) case Err(_) => Err(EmptyElement))
  }

  function TakeUnique<T>(m: Impl, heap: seq<T>, p: Id, q: nat, s: Id): Reply<T>
    requires Valid(m, |heap|)
  {
    if !Awaited(m, p, q, s) then Reply(m, heap, Ok(None)) else
    var rest := CrossOff(m, p, q, s);
    var ring := m.publishers[p].buffer;
    Answer(rest, p, if rest.publishers[p].targets[q] != {}
                    then GetUnique(ring, heap, q)
                    else PopUnique(ring, heap, q))
  }

  function TakeShared<T>(m: Impl, heap: seq<T>, p: Id, q: nat, s: Id): Reply<T>
    requires Valid(m, |heap|)
  {
    if !Awaited(m, p, q, s) then Reply(m, heap, Ok(None)) else
    var rest := CrossOff(m, p, q, s);
    var ring := m.publishers[p].buffer;
    Answer(rest, p, if rest.publishers[p].targets[q] != {}
                    then GetShared(ring, heap, q)
                    else PopShared(ring, heap, q, None))
  }
}
