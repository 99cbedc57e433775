/**
 * IntraProcessManagerImpl and IntraProcessManager as they are written: maps updated in place, and
 * one ring buffer object per publisher.
 */
module IntraProcessManager {

  import opened Wrappers
  import opened RingSpec
  import opened MappedRingBuffer
  import Spec = IntraProcessSpec
  import opened IntraProcessSpec

  class IntraProcessManagerImpl<T> {
    var subscriptions: map<Id, Topic>
    var idsByTopic: map<Topic, set<Id>>
    var publishers: map<Id, Info<MappedRingBuffer<T>>>

    ghost function State(): Books<MappedRingBuffer<T>>
      reads this
    {
      Books(subscriptions, idsByTopic, publishers)
    }

    constructor ()
      ensures State() == Books(map[], map[], map[])
    {
      subscriptions, idsByTopic, publishers := map[], map[], map[];
    }

    method AddSubscription(id: Id, topic: Topic)
      modifies `subscriptions, `idsByTopic
      ensures State() == Spec.AddSubscription(old(State()), id, topic)
    {
      subscriptions := subscriptions[id := topic];
      if topic !in idsByTopic {
        idsByTopic := idsByTopic[topic := {}];
      }
      idsByTopic := idsByTopic[topic := idsByTopic[topic] + {id}];
    }

    method RemoveSubscription(id: Id)
      modifies this
      ensures State() == Spec.RemoveSubscription(old(State()), id)
    {
      subscriptions := subscriptions - {id};
      var topics := idsByTopic.Keys;
      while topics != {}
        invariant topics <= idsByTopic.Keys == old(idsByTopic).Keys
        invariant forall t :: t in idsByTopic ==>
          idsByTopic[t] == if t in topics then old(idsByTopic)[t] else old(idsByTopic)[t] - {id}
        invariant subscriptions == old(subscriptions) - {id} && publishers == old(publishers)
      {
        var t :| t in topics;
        idsByTopic := idsByTopic[t := idsByTopic[t] - {id}];
        topics := topics - {t};
      }
      EraseFromTargets(id);
    }

    // Over all publishers and all stored messages, drop the references to the subscription.
    method EraseFromTargets(id: Id)
      modifies `publishers
      ensures publishers == map p | p in old(publishers) ::
                old(publishers)[p].(targets := WithoutTarget(old(publishers)[p].targets, id))
    {
      var todo := publishers.Keys;
      while todo != {}
        invariant todo <= publishers.Keys == old(publishers).Keys
        invariant forall p :: p in publishers ==>
          publishers[p] == if p in todo then old(publishers)[p]
                           else old(publishers)[p].(targets := WithoutTarget(old(publishers)[p].targets, id))
      {
        var p :| p in todo;
        var targets := EraseTarget(publishers[p].targets, id);
        publishers := publishers[p := publishers[p].(targets := targets)];
        todo := todo - {p};
      }
    }

    static method EraseTarget(before: map<nat, set<Id>>, id: Id) returns (targets: map<nat, set<Id>>)
      ensures targets == WithoutTarget(before, id)
    {
      targets := before;
      var todo := targets.Keys;
      while todo != {}
        invariant todo <= targets.Keys == before.Keys
        invariant forall q :: q in targets ==> targets[q] == if q in todo then before[q] else before[q] - {id}
      {
        var q :| q in todo;
        targets := targets[q := targets[q] - {id}];
        todo := todo - {q};
      }
    }

    method AddPublisher(id: Id, topic: Topic, buffer: MappedRingBuffer<T>)
      modifies `publishers
      ensures State() == Spec.AddPublisher(old(State()), id, topic, buffer)
    {
      var targets := if id in publishers then publishers[id].targets else map[];
      publishers := publishers[id := Info(Some(topic), 0, buffer, targets)];
    }

    method RemovePublisher(id: Id)
      modifies `publishers
      ensures State() == Spec.RemovePublisher(old(State()), id)
    {
      publishers := publishers - {id};
    }

    method GetPublisherInfoForId(id: Id) returns (info: Result<(nat, MappedRingBuffer<T>), Error>)
      modifies `publishers
      ensures id !in old(publishers) ==> info == Err(InvalidPublisherId) && State() == old(State())
      ensures id in old(publishers) ==>
                && info == Ok((old(publishers)[id].sequenceNumber, old(publishers)[id].buffer))
                && State() == FetchSequence(old(State()), id)
    {
      if id !in publishers {
        return Err(InvalidPublisherId);
      }
      var found := publishers[id];
      publishers := publishers[id := found.(sequenceNumber := found.sequenceNumber + 1)];
      info := Ok((found.sequenceNumber, found.buffer));
    }

    method StoreIntraProcessMessage(id: Id, q: nat) returns (failure: Option<Error>)
      modifies `idsByTopic, `publishers
      ensures id !in old(publishers) ==> failure == Some(InvalidPublisherId) && State() == old(State())
      ensures id in old(publishers) && old(publishers)[id].publisher.None? ==>
                failure == Some(PublisherOutOfScope) && State() == old(State())
      ensures id in old(publishers) && old(publishers)[id].publisher.Some? ==>
                failure == None && State() == FreezeTargets(old(State()), id, q)
    {
      if id !in publishers {
        return Some(InvalidPublisherId);
      }
      var info := publishers[id];
      if info.publisher.None? {
        return Some(PublisherOutOfScope);
      }
      var topic := info.publisher.value;
      if topic !in idsByTopic {
        idsByTopic := idsByTopic[topic := {}];
      }
      publishers := publishers[id := info.(targets := info.targets[q := idsByTopic[topic]])];
      failure := None;
    }

    method TakeIntraProcessMessage(id: Id, q: nat, s: Id)
        returns (buffer: Option<MappedRingBuffer<T>>, size: nat)
      modifies `publishers
      ensures !Awaited(old(State()), id, q, s) ==> buffer == None && State() == old(State())
      ensures Awaited(old(State()), id, q, s) ==>
                && buffer == Some(old(publishers)[id].buffer)
                && State() == CrossOff(old(State()), id, q, s)
                && size == |old(publishers)[id].targets[q] - {s}|
    {
      buffer, size := None, 0;
      if id !in publishers {
        return;
      }
      var info := publishers[id];
      if q !in info.targets {
        return;
      }
      if s !in info.targets[q] {
        return;
      }
      publishers := publishers[id := info.(targets := info.targets[q := info.targets[q] - {s}])];
      size := |info.targets[q] - {s}|;
      buffer := Some(info.buffer);
    }
  }

  // --- the manager: books whose buffers are objects ---

  // The objects the buffers of m are made of.
  ghost function Parts<T>(m: Books<MappedRingBuffer<T>>): set<object> {
    (set p | p in m.publishers :: m.publishers[p].buffer as object) +
    (set p | p in m.publishers :: m.publishers[p].buffer.elements as object)
  }

  // No two publishers share a buffer.
  ghost predicate Separate<T>(m: Books<MappedRingBuffer<T>>) {
    forall p, p' :: p in m.publishers && p' in m.publishers && p != p' ==>
      m.publishers[p].buffer != m.publishers[p'].buffer &&
      m.publishers[p].buffer.elements != m.publishers[p'].buffer.elements
  }

  lemma OthersApart<T>(m: Books<MappedRingBuffer<T>>, p: Id)
    requires Separate(m) && p in m.publishers
    ensures forall x :: x in m.publishers && x != p ==>
      m.publishers[x].buffer != m.publishers[p].buffer &&
      m.publishers[x].buffer.elements != m.publishers[p].buffer.elements
  {
  }

  ghost predicate Healthy<T>(m: Books<MappedRingBuffer<T>>, memory: Memory<T>)
    reads Parts(m), memory
  {
    && Separate(m)
    && forall p :: p in m.publishers ==>
         m.publishers[p].buffer.allocator == memory && m.publishers[p].buffer.Valid()
  }

  // The books with every buffer object replaced by the ring it is.
  ghost function Join<B>(m: Books<B>, rings: map<Id, Ring>): Impl
    requires rings.Keys == m.publishers.Keys
  {
    Books(m.subscriptions, m.idsByTopic,
          map p | p in m.publishers ::
            Info(m.publishers[p].publisher, m.publishers[p].sequenceNumber, rings[p], m.publishers[p].targets))
  }

  // The books after a store: the number is fetched, and the targets are frozen if the publisher is there.
  ghost function Booked<B>(m: Books<B>, p: Id): Books<B>
    requires p in m.publishers
  {
    var fetched := FetchSequence(m, p);
    if m.publishers[p].publisher.None? then fetched
    else FreezeTargets(fetched, p, m.publishers[p].sequenceNumber)
  }

  // Books and ring changed as the methods below change them make up the whole of Store.
  lemma JoinStore<B>(m: Books<B>, rings: map<Id, Ring>, p: Id, unique: Option<Obj>, shared: Option<Obj>)
    requires rings.Keys == m.publishers.Keys && p in m.publishers && rings[p].Shaped()
    ensures var q := m.publishers[p].sequenceNumber;
      Store(Join(m, rings), p, unique, shared) ==
      Stored(Join(Booked(m, p), rings[p := Push(rings[p], q, unique, shared)]),
             if m.publishers[p].publisher.None? then Err(PublisherOutOfScope) else Ok(q))
  {
  }

  // Is s the last subscription that message (p, q) waits for?
  predicate LastTaker<B>(m: Books<B>, p: Id, q: nat, s: Id)
    requires Awaited(m, p, q, s)
  {
    m.publishers[p].targets[q] - {s} == {}
  }

  function AsError(value: Result<Option<Obj>, RingError>): Result<Option<Obj>, Error> {
    match value case Ok(v) => Ok(v) case Err(_) => Err(EmptyElement)
  }

  // Likewise for the two takes.
  lemma JoinTakeUnique<T, B>(m: Books<B>, rings: map<Id, Ring>, heap: seq<T>, p: Id, q: nat, s: Id)
    requires rings.Keys == m.publishers.Keys && Spec.Valid(Join(m, rings), |heap|) && Awaited(m, p, q, s)
    ensures Join(m, rings).publishers[p].buffer == rings[p] && rings[p].Within(|heap|)
    ensures var o := if LastTaker(m, p, q, s) then PopUnique(rings[p], heap, q) else GetUnique(rings[p], heap, q);
      Spec.TakeUnique(Join(m, rings), heap, p, q, s)
      == Reply(Join(CrossOff(m, p, q, s), rings[p := o.ring]), o.heap, AsError(o.value))
  {
    assert Join(m, rings).publishers[p].buffer == rings[p];
    JoinAnswer(m, rings, p, q, s, if LastTaker(m, p, q, s) then PopUnique(rings[p], heap, q) else GetUnique(rings[p], heap, q));
  }

  lemma JoinTakeShared<T, B>(m: Books<B>, rings: map<Id, Ring>, heap: seq<T>, p: Id, q: nat, s: Id)
    requires rings.Keys == m.publishers.Keys && Spec.Valid(Join(m, rings), |heap|) && Awaited(m, p, q, s)
    ensures Join(m, rings).publishers[p].buffer == rings[p] && rings[p].Within(|heap|)
    ensures var o := if LastTaker(m, p, q, s) then PopShared(rings[p], heap, q, None) else GetShared(rings[p], heap, q);
      Spec.TakeShared(Join(m, rings), heap, p, q, s)
      == Reply(Join(CrossOff(m, p, q, s), rings[p := o.ring]), o.heap, AsError(o.value))
  {
    assert Join(m, rings).publishers[p].buffer == rings[p];
    JoinAnswer(m, rings, p, q, s, if LastTaker(m, p, q, s) then PopShared(rings[p], heap, q, None) else GetShared(rings[p], heap, q));
  }

  lemma JoinAnswer<T, B>(m: Books<B>, rings: map<Id, Ring>, p: Id, q: nat, s: Id, o: Outcome<T>)
    requires rings.Keys == m.publishers.Keys && Awaited(m, p, q, s)
    ensures Join(m, rings).publishers[p].buffer == rings[p]
    ensures Awaited(Join(m, rings), p, q, s)
    ensures CrossOff(Join(m, rings), p, q, s) == Join(CrossOff(m, p, q, s), rings)
    ensures Answer(CrossOff(Join(m, rings), p, q, s), p, o)
         == Reply(Join(CrossOff(m, p, q, s), rings[p := o.ring]), o.heap, AsError(o.value))
  {
  }

  class IntraProcessManager<T> {
    const impl: IntraProcessManagerImpl<T>
    const memory: Memory<T>
    var nextUniqueId: Id

    ghost predicate Valid()
      reads this, impl, memory, Parts(impl.State())
    {
      Healthy(impl.State(), memory)
    }

    constructor (memory: Memory<T>)
      ensures Valid() && impl.State() == Books(map[], map[], map[])
      ensures nextUniqueId == 1 && this.memory == memory && fresh(impl)
    {
      impl := new IntraProcessManagerImpl();
      this.memory := memory;
      nextUniqueId := 1;
    }

    method GetNextUniqueId() returns (id: Id)
      modifies `nextUniqueId
      ensures id == old(nextUniqueId) && nextUniqueId == id + 1
    {
      id := nextUniqueId;
      nextUniqueId := nextUniqueId + 1;
    }

    method AddSubscription(topic: Topic) returns (id: Id)
      requires Valid()
      modifies `nextUniqueId, impl
      ensures Valid() && impl.State() == Spec.AddSubscription(old(impl.State()), id, topic)
      ensures id == old(nextUniqueId) && nextUniqueId == id + 1
    {
      id := GetNextUniqueId();
      impl.AddSubscription(id, topic);
    }

    method RemoveSubscription(id: Id)
      requires Valid()
      modifies impl
      ensures Valid() && impl.State() == Spec.RemoveSubscription(old(impl.State()), id)
    {
      impl.RemoveSubscription(id);
    }

    // A buffer size of 0 means the publisher's queue size; if that is 0 too, no buffer can be made,
    // and only the identifier has been used up.
    method AddPublisher(topic: Topic, bufferSize: nat, queueSize: nat) returns (added: Result<Id, Error>)
      requires Valid()
      modifies `nextUniqueId, impl
      ensures Valid() && nextUniqueId == old(nextUniqueId) + 1
      ensures var size := if bufferSize > 0 then bufferSize else queueSize;
              if size == 0 then added == Err(ZeroBufferSize) && impl.State() == old(impl.State())
              else
                && added == Ok(old(nextUniqueId))
                && old(nextUniqueId) in impl.publishers
                && var b := impl.publishers[old(nextUniqueId)].buffer;
                && fresh(b) && fresh(b.elements) && b.Model() == Empty(size)
                && impl.State() == Spec.AddPublisher(old(impl.State()), old(nextUniqueId), topic, b)
    {
      var id := GetNextUniqueId();
      var size := if bufferSize > 0 then bufferSize else queueSize;
      var made := MappedRingBuffer<T>.Make(size, memory);
      if made.Err? {
        return Err(ZeroBufferSize);
      }
      impl.AddPublisher(id, topic, made.value);
      added := Ok(id);
    }

    method RemovePublisher(id: Id)
      requires Valid()
      modifies impl
      ensures Valid() && impl.State() == Spec.RemovePublisher(old(impl.State()), id)
    {
      impl.RemovePublisher(id);
    }

    // Publisher p's buffer, when there is one: all that a store or a take writes besides the books.
    ghost function BufferOf(p: Id): set<object>
      reads impl
    {
      if p in impl.publishers
      then {impl.publishers[p].buffer as object, impl.publishers[p].buffer.elements as object}
      else {}
    }

    // The rest of a store, once the number is fetched.
    method PlaceUnique(p: Id, q: nat, message: Option<Obj>) returns (stored: Result<nat, Error>)
      requires Valid() && p in impl.publishers && (message.Some? ==> message.value < |memory.cells|)
      modifies impl, BufferOf(p)
      ensures Valid()
      ensures var info := old(impl.publishers)[p];
        && impl.State() == (if info.publisher.None? then old(impl.State()) else FreezeTargets(old(impl.State()), p, q))
        && info.buffer.Model() == Push(old(info.buffer.Model()), q, message, None)
        && stored == if info.publisher.None? then Err(PublisherOutOfScope) else Ok(q)
    {
      OthersApart(impl.State(), p);
      var didReplace := impl.publishers[p].buffer.PushAndReplaceUnique(q, message);
      var failure := impl.StoreIntraProcessMessage(p, q);
      stored := if failure.Some? then Err(failure.value) else Ok(q);
    }

    method StoreUnique(p: Id, message: Option<Obj>) returns (stored: Result<nat, Error>)
      requires Valid() && (message.Some? ==> message.value < |memory.cells|)
      modifies impl, BufferOf(p)
      ensures Valid()
      ensures p !in old(impl.publishers) ==> stored == Err(InvalidPublisherId) && impl.State() == old(impl.State())
      ensures p in old(impl.publishers) ==>
        var b, q := old(impl.publishers)[p].buffer, old(impl.publishers)[p].sequenceNumber;
        && impl.State() == Booked(old(impl.State()), p)
        && b.Model() == Push(old(b.Model()), q, message, None)
        && stored == if old(impl.publishers)[p].publisher.None? then Err(PublisherOutOfScope) else Ok(q)
    {
      var info := impl.GetPublisherInfoForId(p);
      if info.Err? {
        return Err(info.error);
      }
      stored := PlaceUnique(p, info.value.0, message);
    }

    method PlaceShared(p: Id, q: nat, message: Option<Obj>) returns (stored: Result<nat, Error>)
      requires Valid() && p in impl.publishers && (message.Some? ==> message.value < |memory.cells|)
      modifies impl, BufferOf(p)
      ensures Valid()
      ensures var info := old(impl.publishers)[p];
        && impl.State() == (if info.publisher.None? then old(impl.State()) else FreezeTargets(old(impl.State()), p, q))
        && info.buffer.Model() == Push(old(info.buffer.Model()), q, None, message)
        && stored == if info.publisher.None? then Err(PublisherOutOfScope) else Ok(q)
    {
      OthersApart(impl.State(), p);
      var didReplace := impl.publishers[p].buffer.PushAndReplaceShared(q, message);
      var failure := impl.StoreIntraProcessMessage(p, q);
      stored := if failure.Some? then Err(failure.value) else Ok(q);
    }

    method StoreShared(p: Id, message: Option<Obj>) returns (stored: Result<nat, Error>)
      requires Valid() && (message.Some? ==> message.value < |memory.cells|)
      modifies impl, BufferOf(p)
      ensures Valid()
      ensures p !in old(impl.publishers) ==> stored == Err(InvalidPublisherId) && impl.State() == old(impl.State())
      ensures p in old(impl.publishers) ==>
        var b, q := old(impl.publishers)[p].buffer, old(impl.publishers)[p].sequenceNumber;
        && impl.State() == Booked(old(impl.State()), p)
        && b.Model() == Push(old(b.Model()), q, None, message)
        && stored == if old(impl.publishers)[p].publisher.None? then Err(PublisherOutOfScope) else Ok(q)
    {
      var info := impl.GetPublisherInfoForId(p);
      if info.Err? {
        return Err(info.error);
      }
      stored := PlaceShared(p, info.value.0, message);
    }

    // The last taker pops, any other gets.
    static method FetchUnique(buffer: MappedRingBuffer<T>, q: nat, last: bool) returns (message: Result<Option<Obj>, Error>)
      requires buffer.Valid()
      modifies buffer.elements, buffer.allocator
      ensures var o := if last then PopUnique(old(buffer.Model()), old(buffer.allocator.cells), q)
                       else GetUnique(old(buffer.Model()), old(buffer.allocator.cells), q);
              buffer.Does(o) && message == AsError(o.value)
    {
      var value: Result<Option<Obj>, RingError>;
      if last {
        value := buffer.PopUnique(q);
      } else {
        value := buffer.GetUnique(q);
      }
      message := AsError(value);
    }

    method TakeUnique(p: Id, q: nat, s: Id) returns (message: Result<Option<Obj>, Error>)
      requires Valid()
      modifies impl, memory, BufferOf(p)
      ensures Valid()
      ensures !Awaited(old(impl.State()), p, q, s) ==>
        message == Ok(None) && impl.State() == old(impl.State()) && memory.cells == old(memory.cells)
        && (p in old(impl.publishers) ==> old(impl.publishers)[p].buffer.Model() == old(impl.publishers[p].buffer.Model()))
      ensures Awaited(old(impl.State()), p, q, s) ==>
        var b, last := old(impl.publishers)[p].buffer, LastTaker(old(impl.State()), p, q, s);
        var o := if last then PopUnique(old(b.Model()), old(memory.cells), q)
                 else GetUnique(old(b.Model()), old(memory.cells), q);
        && impl.State() == CrossOff(old(impl.State()), p, q, s)
        && b.Does(o) && message == AsError(o.value)
    {
      ghost var m := impl.State();
      var buffer, size := impl.TakeIntraProcessMessage(p, q, s);
      if buffer.None? {
        return Ok(None);
      }
      OthersApart(m, p);
      message := FetchUnique(buffer.value, q, size == 0);
    }

    static method FetchShared(buffer: MappedRingBuffer<T>, q: nat, last: bool) returns (message: Result<Option<Obj>, Error>)
      requires buffer.Valid()
      modifies buffer.elements
      ensures var o := if last then PopShared(old(buffer.Model()), buffer.allocator.cells, q, None)
                       else GetShared(old(buffer.Model()), buffer.allocator.cells, q);
              buffer.Does(o) && message == AsError(o.value)
    {
      var value: Result<Option<Obj>, RingError>;
      if last {
        value := buffer.PopShared(q, None);
      } else {
        value := buffer.GetShared(q);
      }
      message := AsError(value);
    }

    method TakeShared(p: Id, q: nat, s: Id) returns (message: Result<Option<Obj>, Error>)
      requires Valid()
      modifies impl, BufferOf(p)
      ensures Valid()
      ensures !Awaited(old(impl.State()), p, q, s) ==>
        message == Ok(None) && impl.State() == old(impl.State())
        && (p in old(impl.publishers) ==> old(impl.publishers)[p].buffer.Model() == old(impl.publishers[p].buffer.Model()))
      ensures Awaited(old(impl.State()), p, q, s) ==>
        var b, last := old(impl.publishers)[p].buffer, LastTaker(old(impl.State()), p, q, s);
        var o := if last then PopShared(old(b.Model()), memory.cells, q, None)
                 else GetShared(old(b.Model()), memory.cells, q);
        && impl.State() == CrossOff(old(impl.State()), p, q, s)
        && b.Does(o) && message == AsError(o.value)
    {
      ghost var m := impl.State();
      var buffer, size := impl.TakeIntraProcessMessage(p, q, s);
      if buffer.None? {
        return Ok(None);
      }
      OthersApart(m, p);
      message := FetchShared(buffer.value, q, size == 0);
    }
  }
}
