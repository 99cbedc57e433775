/**
 * Every run of the manager and its clients delivers what Delivery says, and unique means unique.
 */
module IntraProcessRefinement {

  import opened Wrappers
  import opened RingSpec
  import opened RingWindow
  import opened IntraProcessSpec
  import opened IntraProcessRun
  import D = Delivery

  // --- the relation ---

  function Upto(n: nat): (keys: seq<nat>)
    ensures |keys| == n && forall i :: 0 <= i < n ==> keys[i] == i
  {
    seq(n, i => i)
  }

  function Values<T>(p: D.Publisher<T>): (values: seq<T>)
    ensures |values| == |p.messages|
    ensures forall i :: 0 <= i < |values| ==> values[i] == p.messages[i].value
  {
    seq(|p.messages|, i requires 0 <= i < |p.messages| => p.messages[i].value)
  }

  // Slot i of publisher p's ring: a free slot holds nothing; a slot in use holds one object, which
  // carries the value published under its key, and which the ledger knows to be reachable only
  // from this slot (unique) or only through shared pointers (shared).
  ghost predicate GoodSlot<T>(p: Id, i: nat, e: Element, owner: seq<Owner>, heap: seq<T>, values: seq<T>)
  {
    && |owner| == |heap|
    && e.Within(|heap|)
    && (if e.inUse then e.HoldsOne() && e.key < |values| && heap[e.Object()] == values[e.key]
        else e.unique.None? && e.shared.None?)
    && (e.unique.Some? ==> owner[e.unique.value] == InSlot(p, i))
    && (e.shared.Some? ==> owner[e.shared.value] == Shared)
  }

  ghost predicate GoodRing<T>(p: Id, r: Ring, owner: seq<Owner>, heap: seq<T>, values: seq<T>) {
    forall i :: 0 <= i < |r.elements| ==> GoodSlot(p, i, r.elements[i], owner, heap, values)
  }

  // What the manager still remembers about the takers of each message.
  ghost predicate SameTakers<T>(targets: map<nat, set<Id>>, messages: seq<D.Message<T>>) {
    && (forall q :: q in targets ==> q < |messages| && targets[q] == messages[q].takers)
    && (forall q :: 0 <= q < |messages| && q !in targets ==> messages[q].takers == {})
  }

  ghost predicate SameBooks<T>(info: PublisherInfo, p: D.Publisher<T>) {
    && info.publisher == p.topic
    && |info.buffer.elements| == p.size
    && info.sequenceNumber == |p.messages|
    && Window(info.buffer, Upto(|p.messages|), p.served)
    && (forall q :: q in p.served ==> q < |p.messages| && p.messages[q].takers == {})
    && SameTakers(info.targets, p.messages)
  }

  ghost predicate SameTopics(idsByTopic: map<Topic, set<Id>>, subscriptions: map<Id, Topic>) {
    forall t, s :: s in Ids(idsByTopic, t) <==> s in subscriptions && subscriptions[s] == t
  }

  ghost predicate ClientsOwn<T>(w: World<T>) {
    && |w.owner| == |w.heap|
    && (forall o :: o in w.unique ==> o < |w.heap| && w.owner[o] == Client)
    && (forall o :: o in w.shared ==> o < |w.heap| && w.owner[o] == Shared)
  }

  ghost predicate GoodRings<T>(w: World<T>, a: D.State<T>) {
    forall p :: p in w.impl.publishers ==>
      p in a.publishers &&
      GoodRing(p, w.impl.publishers[p].buffer, w.owner, w.heap, Values(a.publishers[p]))
  }

  ghost predicate BooksAgree<T>(m: Impl, nextId: Id, a: D.State<T>) {
    && nextId == a.nextId
    && D.Numbered(a)
    && m.subscriptions == a.subscriptions
    && SameTopics(m.idsByTopic, m.subscriptions)
    && m.publishers.Keys == a.publishers.Keys
    && (forall p :: p in m.publishers ==> SameBooks(m.publishers[p], a.publishers[p]))
  }

  ghost predicate Refines<T>(w: World<T>, a: D.State<T>) {
    && BooksAgree(w.impl, w.nextId, a)
    && ClientsOwn(w)
    && GoodRings(w, a)
  }

  lemma RefinesIsBounded<T>(w: World<T>, a: D.State<T>)
    requires Refines(w, a)
    ensures w.Bounded()
  {
    forall p | p in w.impl.publishers
      ensures w.impl.publishers[p].buffer.Shaped() && w.impl.publishers[p].buffer.Within(|w.heap|)
    {
      var r := w.impl.publishers[p].buffer;
      assert SameBooks(w.impl.publishers[p], a.publishers[p]);
      assert GoodRing(p, r, w.owner, w.heap, Values(a.publishers[p]));
      forall i | 0 <= i < |r.elements| ensures r.elements[i].Within(|w.heap|) {
        assert GoodSlot(p, i, r.elements[i], w.owner, w.heap, Values(a.publishers[p]));
      }
    }
  }

  // --- what an event means for the reference ---

  function Meaning<T>(w: World<T>, e: Event<T>): D.Event<T>
    requires w.Bounded()
  {
    if !Possible(w, e) then D.Silent else
    match e
    case AddSubscription(topic) => D.Subscribe(topic)
    case RemoveSubscription(id) => D.Unsubscribe(id)
    case AddPublisher(topic, size) => D.Advertise(topic, size)
    case RemovePublisher(id) => D.Withdraw(id)
    case ExpirePublisher(id) => D.Expire(id)
    case Create(_) => D.Silent
    case Share(_) => D.Silent
    case Write(_, _) => D.Silent
    case StoreUnique(p, o) => D.Publish(p, w.heap[o])
    case StoreShared(p, o) => D.Publish(p, w.heap[o])
    case TakeUnique(p, q, s) => D.Take(p, q, s)
    case TakeShared(p, q, s) => D.Take(p, q, s)
  }

  // --- frames: what a change of the heap and the ledger leaves alone ---

  // Every object in a slot other than `touched`, or reachable through shared pointers, is as it was.
  ghost predicate Kept<T>(owner: seq<Owner>, heap: seq<T>, owner': seq<Owner>, heap': seq<T>, touched: Owner) {
    && |owner| == |heap| <= |owner'| == |heap'|
    && forall o :: 0 <= o < |owner| && owner[o] != Client && (owner[o].InSlot? ==> owner[o] != touched) ==>
         owner'[o] == owner[o] && heap'[o] == heap[o]
  }

  lemma SlotKept<T>(p: Id, i: nat, e: Element, owner: seq<Owner>, heap: seq<T>, values: seq<T>,
                    owner': seq<Owner>, heap': seq<T>, values': seq<T>, touched: Owner)
    requires GoodSlot(p, i, e, owner, heap, values)
    requires Kept(owner, heap, owner', heap', touched) && touched != InSlot(p, i)
    requires values <= values'
    ensures GoodSlot(p, i, e, owner', heap', values')
  {
  }

  lemma RingKept<T>(p: Id, r: Ring, owner: seq<Owner>, heap: seq<T>, values: seq<T>,
                    owner': seq<Owner>, heap': seq<T>, touched: Owner)
    requires GoodRing(p, r, owner, heap, values)
    requires Kept(owner, heap, owner', heap', touched) && (touched.InSlot? ==> touched.p != p)
    ensures GoodRing(p, r, owner', heap', values)
  {
    forall i | 0 <= i < |r.elements| ensures GoodSlot(p, i, r.elements[i], owner', heap', values) {
      SlotKept(p, i, r.elements[i], owner, heap, values, owner', heap', values, touched);
    }
  }

  // One slot k of p's ring is rewritten; the others are kept.
  lemma OneSlotChanged<T>(p: Id, r: Ring, r': Ring, k: nat, owner: seq<Owner>, heap: seq<T>, values: seq<T>,
                          owner': seq<Owner>, heap': seq<T>, values': seq<T>)
    requires GoodRing(p, r, owner, heap, values)
    requires Kept(owner, heap, owner', heap', InSlot(p, k)) && values <= values'
    requires k < |r.elements| == |r'.elements|
    requires forall i :: 0 <= i < |r.elements| && i != k ==> r'.elements[i] == r.elements[i]
    requires GoodSlot(p, k, r'.elements[k], owner', heap', values')
    ensures GoodRing(p, r', owner', heap', values')
  {
    forall i | 0 <= i < |r'.elements| ensures GoodSlot(p, i, r'.elements[i], owner', heap', values') {
      if i != k {
        SlotKept(p, i, r.elements[i], owner, heap, values, owner', heap', values', InSlot(p, k));
      }
    }
  }

  // Publisher p's ring was changed, slot `touched`, and every other ring is kept.
  lemma OnePublisherChanged<T>(w: World<T>, a: D.State<T>, w': World<T>, a': D.State<T>, p: Id, touched: Owner)
    requires GoodRings(w, a)
    requires Kept(w.owner, w.heap, w'.owner, w'.heap, touched) && (touched.InSlot? ==> touched.p == p)
    requires w'.impl.publishers.Keys == w.impl.publishers.Keys
    requires a.publishers.Keys <= a'.publishers.Keys
    requires forall x :: x in w.impl.publishers && x != p ==>
               x in a.publishers && w'.impl.publishers[x].buffer == w.impl.publishers[x].buffer &&
               a'.publishers[x] == a.publishers[x]
    requires p in w.impl.publishers ==>
               p in a'.publishers && GoodRing(p, w'.impl.publishers[p].buffer, w'.owner, w'.heap, Values(a'.publishers[p]))
    ensures GoodRings(w', a')
  {
    forall x | x in w'.impl.publishers && x != p
      ensures GoodRing(x, w'.impl.publishers[x].buffer, w'.owner, w'.heap, Values(a'.publishers[x]))
    {
      RingKept(x, w.impl.publishers[x].buffer, w.owner, w.heap, Values(a.publishers[x]), w'.owner, w'.heap, touched);
    }
  }

  // --- what a get or a pop on p's ring does to the ledger ---

  // The outcome hands out an object with the value published under q, now owned by `who`, and
  // leaves a good ring behind.
  ghost predicate Hands<T>(p: Id, r: Ring, owner: seq<Owner>, heap: seq<T>, values: seq<T>,
                           q: nat, o: Outcome<T>, who: Owner)
    requires |owner| == |heap| && q < |values|
  {
    && o.value.Ok? && o.value.value.Some?
    && var x := o.value.value.value;
    && x < |o.heap| && |heap| <= |o.heap|
    && o.heap[x] == values[q]
    && (x < |heap| ==> owner[x].InSlot? || (who == Shared && owner[x] == Shared))
    && var owner' := Record(owner, |o.heap|, x, who);
    && Kept(owner, heap, owner', o.heap, InSlot(p, IndexOf(r.elements, q)))
    && GoodRing(p, o.ring, owner', o.heap, values)
  }

  lemma GetUniqueHands<T>(p: Id, r: Ring, owner: seq<Owner>, heap: seq<T>, values: seq<T>, q: nat)
    requires GoodRing(p, r, owner, heap, values) && |owner| == |heap| && r.Within(|heap|)
    requires Found(r, q) && q < |values|
    ensures Hands(p, r, owner, heap, values, q, RingSpec.GetUnique(r, heap, q), Client)
  {
    var k := IndexOf(r.elements, q);
    var o := RingSpec.GetUnique(r, heap, q);
    assert GoodSlot(p, k, r.elements[k], owner, heap, values);
    var owner' := Record(owner, |o.heap|, |heap|, Client);
    RingKept(p, r, owner, heap, values, owner', o.heap, Client);
  }

  lemma GetSharedHands<T>(p: Id, r: Ring, owner: seq<Owner>, heap: seq<T>, values: seq<T>, q: nat)
    requires GoodRing(p, r, owner, heap, values) && |owner| == |heap| && r.Within(|heap|)
    requires Found(r, q) && q < |values|
    ensures Hands(p, r, owner, heap, values, q, RingSpec.GetShared(r, heap, q), Shared)
  {
    var k := IndexOf(r.elements, q);
    assert GoodSlot(p, k, r.elements[k], owner, heap, values);
    var o := RingSpec.GetShared(r, heap, q);
    var x := o.value.value.value;
    OneSlotChanged(p, r, o.ring, k, owner, heap, values, Record(owner, |heap|, x, Shared), heap, values);
  }

  lemma PopUniqueHands<T>(p: Id, r: Ring, owner: seq<Owner>, heap: seq<T>, values: seq<T>, q: nat)
    requires GoodRing(p, r, owner, heap, values) && |owner| == |heap| && r.Within(|heap|)
    requires Found(r, q) && q < |values|
    ensures Hands(p, r, owner, heap, values, q, RingSpec.PopUnique(r, heap, q), Client)
  {
    var k := IndexOf(r.elements, q);
    assert GoodSlot(p, k, r.elements[k], owner, heap, values);
    var o := RingSpec.PopUnique(r, heap, q);
    var x := o.value.value.value;
    OneSlotChanged(p, r, o.ring, k, owner, heap, values, Record(owner, |o.heap|, x, Client), o.heap, values);
  }

  lemma PopSharedHands<T>(p: Id, r: Ring, owner: seq<Owner>, heap: seq<T>, values: seq<T>, q: nat)
    requires GoodRing(p, r, owner, heap, values) && |owner| == |heap| && r.Within(|heap|)
    requires Found(r, q) && q < |values|
    ensures Hands(p, r, owner, heap, values, q, RingSpec.PopShared(r, heap, q, None), Shared)
  {
    var k := IndexOf(r.elements, q);
    assert GoodSlot(p, k, r.elements[k], owner, heap, values);
    var o := RingSpec.PopShared(r, heap, q, None);
    var x := o.value.value.value;
    OneSlotChanged(p, r, o.ring, k, owner, heap, values, Record(owner, |heap|, x, Shared), heap, values);
  }

  // The scan finds message q exactly when it is in the window and its last taker has not come.
  lemma FoundInWindow<T>(r: Ring, p: D.Publisher<T>, q: nat)
    requires |r.elements| == p.size && Window(r, Upto(|p.messages|), p.served) && q < |p.messages|
    ensures Found(r, q) <==> D.InWindow(p, q) && q !in p.served
  {
    var n := |p.messages|;
    Lookup(r, Upto(n), p.served, q);
    var last := Last(Upto(n), p.size);
    if n <= q + p.size {
      assert last[q - (n - |last|)] == q;
    }
  }

  // --- one event at a time ---

  ghost predicate Simulates<T>(w: World<T>, a: D.State<T>, e: Event<T>)
    requires w.Bounded()
  {
    Refines(Step(w, e), D.Next(a, Meaning(w, e)))
  }

  lemma SubscribeSimulates<T>(w: World<T>, a: D.State<T>, topic: Topic)
    requires Refines(w, a) && w.Bounded()
    ensures Simulates(w, a, AddSubscription(topic))
  {
    var m', a' := Step(w, AddSubscription(topic)).impl, D.Next(a, D.Subscribe(topic));
    forall t, s
      ensures s in Ids(m'.idsByTopic, t) <==> s in m'.subscriptions && m'.subscriptions[s] == t
    {
      assert s in Ids(w.impl.idsByTopic, t) <==> s in w.impl.subscriptions && w.impl.subscriptions[s] == t;
    }
  }

  lemma UnsubscribeKeepsTopics(m: Impl, id: Id)
    requires SameTopics(m.idsByTopic, m.subscriptions)
    ensures var m' := IntraProcessSpec.RemoveSubscription(m, id); SameTopics(m'.idsByTopic, m'.subscriptions)
  {
    var m' := IntraProcessSpec.RemoveSubscription(m, id);
    forall t, s ensures s in Ids(m'.idsByTopic, t) <==> s in m'.subscriptions && m'.subscriptions[s] == t {
      assert s in Ids(m.idsByTopic, t) <==> s in m.subscriptions && m.subscriptions[s] == t;
    }
  }

  lemma ForgetKeepsBooks<T>(info: PublisherInfo, pub: D.Publisher<T>, id: Id)
    requires SameBooks(info, pub)
    ensures SameBooks(info.(targets := WithoutTarget(info.targets, id)), D.Forget(pub, id))
    ensures Values(D.Forget(pub, id)) == Values(pub)
  {
  }

  lemma UnsubscribeKeepsBooks<T>(m: Impl, nextId: Id, a: D.State<T>, id: Id)
    requires BooksAgree(m, nextId, a)
    ensures BooksAgree(IntraProcessSpec.RemoveSubscription(m, id), nextId, D.Next(a, D.Unsubscribe(id)))
  {
    var m', a' := IntraProcessSpec.RemoveSubscription(m, id), D.Next(a, D.Unsubscribe(id));
    UnsubscribeKeepsTopics(m, id);
    forall p | p in m'.publishers ensures SameBooks(m'.publishers[p], a'.publishers[p]) {
      assert SameBooks(m.publishers[p], a.publishers[p]);
      ForgetKeepsBooks(m.publishers[p], a.publishers[p], id);
    }
  }

  // No ring and no value changes; publishers may go.
  lemma SameRings<T>(w: World<T>, a: D.State<T>, w': World<T>, a': D.State<T>)
    requires GoodRings(w, a) && w'.owner == w.owner && w'.heap == w.heap
    requires forall p :: p in w'.impl.publishers ==>
      && p in w.impl.publishers && p in a'.publishers
      && w'.impl.publishers[p].buffer == w.impl.publishers[p].buffer
      && (p in a.publishers ==> Values(a'.publishers[p]) == Values(a.publishers[p]))
    ensures GoodRings(w', a')
  {
  }

  lemma UnsubscribeSimulates<T>(w: World<T>, a: D.State<T>, id: Id)
    requires Refines(w, a) && w.Bounded()
    ensures Simulates(w, a, RemoveSubscription(id))
  {
    var w', a' := Step(w, RemoveSubscription(id)), D.Next(a, D.Unsubscribe(id));
    UnsubscribeKeepsBooks(w.impl, w.nextId, a, id);
    forall p | p in a.publishers ensures Values(a'.publishers[p]) == Values(a.publishers[p]) {
      assert SameBooks(w.impl.publishers[p], a.publishers[p]);
      ForgetKeepsBooks(w.impl.publishers[p], a.publishers[p], id);
    }
    SameRings(w, a, w', a');
  }

  lemma EmptyIsGood<T>(p: Id, size: nat, owner: seq<Owner>, heap: seq<T>)
    requires |owner| == |heap|
    ensures GoodRing(p, Empty(size), owner, heap, [])
  {
  }

  lemma AdvertiseKeepsBooks<T>(m: Impl, nextId: Id, a: D.State<T>, topic: Topic, size: nat)
    requires BooksAgree(m, nextId, a) && size > 0
    ensures BooksAgree(IntraProcessSpec.AddPublisher(m, nextId, topic, Empty(size)), nextId + 1, D.Next(a, D.Advertise(topic, size)))
  {
    var m', a' := IntraProcessSpec.AddPublisher(m, nextId, topic, Empty(size)), D.Next(a, D.Advertise(topic, size));
    assert SameBooks(m'.publishers[nextId], a'.publishers[nextId]);
    assert m'.publishers.Keys == m.publishers.Keys + {nextId};
  }

  lemma RingAdded<T>(w: World<T>, a: D.State<T>, w': World<T>, a': D.State<T>, p: Id, info: PublisherInfo, pub: D.Publisher<T>)
    requires GoodRings(w, a) && ClientsOwn(w) && p !in w.impl.publishers
    requires w'.owner == w.owner && w'.heap == w.heap
    requires w'.impl.publishers == w.impl.publishers[p := info] && a'.publishers == a.publishers[p := pub]
    requires info.buffer == Empty(pub.size) && pub.messages == []
    ensures GoodRings(w', a')
  {
    EmptyIsGood(p, pub.size, w.owner, w.heap);
    assert Values(pub) == [];
    forall x | x in w'.impl.publishers
      ensures x in a'.publishers && GoodRing(x, w'.impl.publishers[x].buffer, w'.owner, w'.heap, Values(a'.publishers[x]))
    {
      if x != p { assert x in w.impl.publishers; }
    }
  }

  lemma AdvertiseSimulates<T>(w: World<T>, a: D.State<T>, topic: Topic, size: nat)
    requires Refines(w, a) && w.Bounded()
    ensures Simulates(w, a, AddPublisher(topic, size))
  {
    var w', a' := Step(w, AddPublisher(topic, size)), D.Next(a, D.Advertise(topic, size));
    if size > 0 {
      var p := w.nextId;
      AdvertiseKeepsBooks(w.impl, p, a, topic, size);
      assert p !in w.impl.publishers;
      RingAdded(w, a, w', a', p, w'.impl.publishers[p], a'.publishers[p]);
    }
  }

  lemma WithdrawSimulates<T>(w: World<T>, a: D.State<T>, id: Id)
    requires Refines(w, a) && w.Bounded()
    ensures Simulates(w, a, RemovePublisher(id))
  {
    var w', a' := Step(w, RemovePublisher(id)), D.Next(a, D.Withdraw(id));
    assert BooksAgree(w'.impl, w'.nextId, a');
    SameRings(w, a, w', a');
  }

  lemma ExpireKeepsBooks<T>(m: Impl, nextId: Id, a: D.State<T>, id: Id)
    requires BooksAgree(m, nextId, a) && id in m.publishers
    ensures BooksAgree(IntraProcessSpec.ExpirePublisher(m, id), nextId, D.Next(a, D.Expire(id)))
  {
    var m', a' := IntraProcessSpec.ExpirePublisher(m, id), D.Next(a, D.Expire(id));
    assert SameBooks(m.publishers[id], a.publishers[id]);
    assert SameBooks(m'.publishers[id], a'.publishers[id]);
  }

  // Only the entry's weak pointer and its mark in the reference change.
  lemma ExpireRelabels<T>(w: World<T>, a: D.State<T>, id: Id, m': Impl, a': D.State<T>)
    requires GoodRings(w, a) && id in w.impl.publishers && id in a.publishers
    requires m' == IntraProcessSpec.ExpirePublisher(w.impl, id) && a' == D.Next(a, D.Expire(id))
    ensures GoodRings(w.(impl := m'), a')
  {
    RingRelabelled(w, a, w.(impl := m'), a', id, m'.publishers[id], a'.publishers[id]);
  }

  lemma ExpireRefines<T>(w: World<T>, a: D.State<T>, id: Id, m': Impl, a': D.State<T>)
    requires Refines(w, a) && id in w.impl.publishers
    requires m' == IntraProcessSpec.ExpirePublisher(w.impl, id) && a' == D.Next(a, D.Expire(id))
    ensures Refines(w.(impl := m'), a')
  {
    assert id in a.publishers;
    ExpireKeepsBooks(w.impl, w.nextId, a, id);
    ExpireRelabels(w, a, id, m', a');
  }

  lemma ExpireSimulates<T>(w: World<T>, a: D.State<T>, id: Id)
    requires Refines(w, a) && w.Bounded()
    ensures Simulates(w, a, ExpirePublisher(id))
  {
    var m', a' := IntraProcessSpec.ExpirePublisher(w.impl, id), D.Next(a, D.Expire(id));
    if id in w.impl.publishers {
      ExpireRefines(w, a, id, m', a');
    } else {
      assert w.(impl := m') == w && a' == a;
    }
    ExpireMeans(w, id);
  }

  lemma ExpireMeans<T>(w: World<T>, id: Id)
    requires w.Bounded()
    ensures Step(w, ExpirePublisher(id)) == w.(impl := IntraProcessSpec.ExpirePublisher(w.impl, id))
    ensures Meaning(w, ExpirePublisher(id)) == D.Expire(id)
  {
  }

  lemma RingRelabelled<T>(w: World<T>, a: D.State<T>, w': World<T>, a': D.State<T>, p: Id, info': PublisherInfo, pub': D.Publisher<T>)
    requires GoodRings(w, a) && p in w.impl.publishers && p in a.publishers
    requires w'.owner == w.owner && w'.heap == w.heap
    requires w'.impl.publishers == w.impl.publishers[p := info'] && a'.publishers == a.publishers[p := pub']
    requires info'.buffer == w.impl.publishers[p].buffer && pub'.messages == a.publishers[p].messages
    ensures GoodRings(w', a')
  {
    SameValues(a.publishers[p], pub');
    SameRings(w, a, w', a');
  }

  lemma SameValues<T>(pub: D.Publisher<T>, pub': D.Publisher<T>)
    requires pub'.messages == pub.messages
    ensures Values(pub') == Values(pub)
  {
  }

  // What clients do among themselves is silent: even writing through a unique pointer changes no
  // value that the manager still has to deliver.
  lemma ClientsAreSilent<T>(w: World<T>, a: D.State<T>, e: Event<T>)
    requires Refines(w, a) && w.Bounded()
    requires e.Create? || e.Share? || e.Write?
    ensures Simulates(w, a, e)
  {
    var w' := Step(w, e);
    assert ClientsOwn(w') && w'.impl == w.impl && w'.nextId == w.nextId;
    ClientsTouchTheirOwn(w, e);
    OnePublisherChanged(w, a, w', a, w.nextId, Client);
  }

  lemma ClientsTouchTheirOwn<T>(w: World<T>, e: Event<T>)
    requires ClientsOwn(w) && w.Bounded()
    requires e.Create? || e.Share? || e.Write?
    ensures Kept(w.owner, w.heap, Step(w, e).owner, Step(w, e).heap, Client)
  {
  }

  // One publisher's books after a publication to `destined`.
  lemma PublishKeepsBooks<T>(info: PublisherInfo, pub: D.Publisher<T>, unique: Option<Obj>, shared: Option<Obj>,
                             value: T, destined: set<Id>, info': PublisherInfo, pub': D.Publisher<T>)
    requires SameBooks(info, pub)
    requires info'.sequenceNumber == info.sequenceNumber + 1 && info'.publisher == info.publisher
    requires info'.buffer == Push(info.buffer, info.sequenceNumber, unique, shared)
    requires info'.targets == if info.publisher.Some? then info.targets[info.sequenceNumber := destined] else info.targets
    requires info.publisher.None? ==> destined == {}
    requires pub' == pub.(messages := pub.messages + [D.Message(value, destined)])
    ensures SameBooks(info', pub')
  {
    var q := info.sequenceNumber;
    PushKeepsWindow(info.buffer, Upto(q), pub.served, q, unique, shared);
    assert Upto(q) + [q] == Upto(q + 1);
  }

  lemma TopicsCarry(idsByTopic: map<Topic, set<Id>>, idsByTopic': map<Topic, set<Id>>, subscriptions: map<Id, Topic>)
    requires SameTopics(idsByTopic, subscriptions)
    requires forall t :: Ids(idsByTopic', t) == Ids(idsByTopic, t)
    ensures SameTopics(idsByTopic', subscriptions)
  {
    forall t, s ensures s in Ids(idsByTopic', t) <==> s in subscriptions && subscriptions[s] == t {
      assert s in Ids(idsByTopic, t) <==> s in subscriptions && subscriptions[s] == t;
    }
  }

  lemma OneBookChanged<T>(m: Impl, nextId: Id, a: D.State<T>, p: Id, m': Impl, a': D.State<T>)
    requires BooksAgree(m, nextId, a) && p in m.publishers
    requires m'.subscriptions == m.subscriptions
    requires forall t :: Ids(m'.idsByTopic, t) == Ids(m.idsByTopic, t)
    requires p in m'.publishers && m'.publishers == m.publishers[p := m'.publishers[p]]
    requires p in a'.publishers && a' == a.(publishers := a.publishers[p := a'.publishers[p]])
    requires SameBooks(m'.publishers[p], a'.publishers[p])
    ensures BooksAgree(m', nextId, a')
  {
    TopicsCarry(m.idsByTopic, m'.idsByTopic, m.subscriptions);
    forall x | x in m'.publishers ensures SameBooks(m'.publishers[x], a'.publishers[x]) {
      if x != p {
        assert SameBooks(m.publishers[x], a.publishers[x]);
        assert m'.publishers[x] == m.publishers[x] && a'.publishers[x] == a.publishers[x];
      }
    }
    assert a'.publishers.Keys == a.publishers.Keys;
  }

  lemma TopicSubscribers(m: Impl, subscriptions: map<Id, Topic>, topic: Topic)
    requires SameTopics(m.idsByTopic, subscriptions)
    ensures Ids(m.idsByTopic, topic) == D.Subscribers(subscriptions, Some(topic))
  {
    forall s ensures s in Ids(m.idsByTopic, topic) <==> s in D.Subscribers(subscriptions, Some(topic)) {}
  }

  // The publisher's entry after a store that freezes `destined`.
  function Published(info: PublisherInfo, unique: Option<Obj>, shared: Option<Obj>, destined: set<Id>): PublisherInfo
    requires info.buffer.Shaped()
  {
    Info(info.publisher, info.sequenceNumber + 1,
                  Push(info.buffer, info.sequenceNumber, unique, shared),
                  if info.publisher.Some? then info.targets[info.sequenceNumber := destined] else info.targets)
  }

  // All a store does: one entry changes, and a topic may get an empty entry.
  ghost predicate Publishes(m: Impl, p: Id, unique: Option<Obj>, shared: Option<Obj>, m': Impl)
    requires p in m.publishers && m.publishers[p].buffer.Shaped()
  {
    var info := m.publishers[p];
    var destined := if info.publisher.Some? then Ids(m.idsByTopic, info.publisher.value) else {};
    && m'.subscriptions == m.subscriptions
    && (forall t :: Ids(m'.idsByTopic, t) == Ids(m.idsByTopic, t))
    && m'.publishers == m.publishers[p := Published(info, unique, shared, destined)]
  }

  lemma StorePublishes(m: Impl, p: Id, unique: Option<Obj>, shared: Option<Obj>)
    requires p in m.publishers && m.publishers[p].buffer.Shaped()
    ensures Publishes(m, p, unique, shared, Store(m, p, unique, shared).impl)
  {
  }

  lemma StoreKeepsBooks<T>(m: Impl, nextId: Id, a: D.State<T>, p: Id, unique: Option<Obj>, shared: Option<Obj>,
                           value: T, m': Impl)
    requires BooksAgree(m, nextId, a) && p in m.publishers && m.publishers[p].buffer.Shaped()
    requires Publishes(m, p, unique, shared, m')
    ensures BooksAgree(m', nextId, D.Next(a, D.Publish(p, value)))
  {
    var info, pub := m.publishers[p], a.publishers[p];
    var a' := D.Next(a, D.Publish(p, value));
    var destined := D.Subscribers(a.subscriptions, pub.topic);
    assert SameBooks(info, pub);
    if info.publisher.Some? {
      TopicSubscribers(m, a.subscriptions, info.publisher.value);
    }
    PublishKeepsBooks(info, pub, unique, shared, value, destined, m'.publishers[p], a'.publishers[p]);
    OneBookChanged(m, nextId, a, p, m', a');
  }

  lemma PushKeepsRing<T>(p: Id, r: Ring, owner: seq<Owner>, heap: seq<T>, values: seq<T>, o: Obj, shared: bool)
    requires GoodRing(p, r, owner, heap, values) && r.Shaped()
    requires o < |heap| == |owner| && owner[o] == if shared then Shared else Client
    ensures var owner' := if shared then owner else owner[o := InSlot(p, r.head)];
            var r' := Push(r, |values|, if shared then None else Some(o), if shared then Some(o) else None);
            && Kept(owner, heap, owner', heap, InSlot(p, r.head))
            && GoodRing(p, r', owner', heap, values + [heap[o]])
  {
    var owner' := if shared then owner else owner[o := InSlot(p, r.head)];
    var r' := Push(r, |values|, if shared then None else Some(o), if shared then Some(o) else None);
    OneSlotChanged(p, r, r', r.head, owner, heap, values, owner', heap, values + [heap[o]]);
  }

  // The world after a store by a registered publisher.
  ghost predicate Stores<T>(w: World<T>, p: Id, o: Obj, shared: bool, w': World<T>)
    requires p in w.impl.publishers && w.impl.publishers[p].buffer.Shaped() && w.Bounded()
    requires if shared then o in w.shared else o in w.unique
  {
    && Publishes(w.impl, p, if shared then None else Some(o), if shared then Some(o) else None, w'.impl)
    && w' == w.(impl := w'.impl,
                owner := if shared then w.owner else w.owner[o := InSlot(p, w.impl.publishers[p].buffer.head)],
                unique := if shared then w.unique else w.unique - {o})
  }

  lemma StoreStores<T>(w: World<T>, p: Id, o: Obj, shared: bool)
    requires p in w.impl.publishers && w.Bounded()
    requires if shared then o in w.shared else o in w.unique
    ensures Stores(w, p, o, shared, Step(w, if shared then StoreShared(p, o) else StoreUnique(p, o)))
  {
    StorePublishes(w.impl, p, if shared then None else Some(o), if shared then Some(o) else None);
  }

  lemma StoreKeepsRings<T>(w: World<T>, a: D.State<T>, p: Id, o: Obj, shared: bool, w': World<T>, a': D.State<T>)
    requires GoodRings(w, a) && w.Bounded() && p in w.impl.publishers && ClientsOwn(w)
    requires if shared then o in w.shared else o in w.unique
    requires Stores(w, p, o, shared, w') && a' == D.Next(a, D.Publish(p, w.heap[o]))
    requires p in a.publishers && w.impl.publishers[p].sequenceNumber == |a.publishers[p].messages|
    ensures GoodRings(w', a')
  {
    var r, values := w.impl.publishers[p].buffer, Values(a.publishers[p]);
    PushKeepsRing(p, r, w.owner, w.heap, values, o, shared);
    assert Values(a'.publishers[p]) == values + [w.heap[o]];
    OnePublisherChanged(w, a, w', a', p, InSlot(p, r.head));
  }

  lemma StoreRefines<T>(w: World<T>, a: D.State<T>, p: Id, o: Obj, shared: bool, w': World<T>)
    requires Refines(w, a) && w.Bounded() && p in w.impl.publishers
    requires if shared then o in w.shared else o in w.unique
    requires Stores(w, p, o, shared, w')
    ensures Refines(w', D.Next(a, D.Publish(p, w.heap[o])))
  {
    var a' := D.Next(a, D.Publish(p, w.heap[o]));
    assert SameBooks(w.impl.publishers[p], a.publishers[p]);
    StoreKeepsBooks(w.impl, w.nextId, a, p, if shared then None else Some(o), if shared then Some(o) else None,
                    w.heap[o], w'.impl);
    StoreKeepsRings(w, a, p, o, shared, w', a');
  }

  lemma StoreSimulates<T>(w: World<T>, a: D.State<T>, p: Id, o: Obj, shared: bool)
    requires Refines(w, a) && w.Bounded()
    requires if shared then o in w.shared else o in w.unique
    ensures Simulates(w, a, if shared then StoreShared(p, o) else StoreUnique(p, o))
  {
    var w' := Step(w, if shared then StoreShared(p, o) else StoreUnique(p, o));
    if p in w.impl.publishers {
      StoreStores(w, p, o, shared);
      StoreRefines(w, a, p, o, shared, w');
    } else {
      assert w' == w.(unique := if shared then w.unique else w.unique - {o});
      LosingKeepsRefines(w, a, w'.unique);
    }
  }

  // Messages that clients lose matter to no one.
  lemma LosingKeepsRefines<T>(w: World<T>, a: D.State<T>, unique: set<Obj>)
    requires Refines(w, a) && unique <= w.unique
    ensures Refines(w.(unique := unique), a)
  {
  }

  // --- takes ---

  // Which of the four ring operations a take makes.
  function RingTake<T>(r: Ring, heap: seq<T>, q: nat, shared: bool, last: bool): (o: Outcome<T>)
    requires r.Within(|heap|)
    ensures SameFrame(r, heap, o)
  {
    match (shared, last)
    case (false, false) => RingSpec.GetUnique(r, heap, q)
    case (false, true) => RingSpec.PopUnique(r, heap, q)
    case (true, false) => RingSpec.GetShared(r, heap, q)
    case (true, true) => RingSpec.PopShared(r, heap, q, None)
  }

  function Taken<T>(w: World<T>, p: Id, q: nat, s: Id, shared: bool): Reply<T>
    requires w.Bounded()
  {
    if shared then IntraProcessSpec.TakeShared(w.impl, w.heap, p, q, s)
    else IntraProcessSpec.TakeUnique(w.impl, w.heap, p, q, s)
  }

  lemma GoodIsTidy<T>(p: Id, r: Ring, owner: seq<Owner>, heap: seq<T>, values: seq<T>)
    requires GoodRing(p, r, owner, heap, values)
    ensures Tidy(r)
  {
    forall i | 0 <= i < |r.elements|
      ensures var e := r.elements[i];
              if e.inUse then e.HoldsOne() else e.unique.None? && e.shared.None?
    {
      assert GoodSlot(p, i, r.elements[i], owner, heap, values);
    }
  }

  lemma RingTakeKeepsWindow<T>(r: Ring, heap: seq<T>, n: nat, served: set<nat>, q: nat, shared: bool, last: bool)
    requires r.Within(|heap|) && Tidy(r) && Window(r, Upto(n), served)
    ensures Window(RingTake(r, heap, q, shared, last).ring, Upto(n), if last then served + {q} else served)
  {
    var op := match (shared, last)
              case (false, false) => Op.GetUnique(q)
              case (false, true) => Op.PopUnique(q)
              case (true, false) => Op.GetShared(q)
              case (true, true) => Op.PopShared(q);
    if last {
      PopKeepsWindow(RingWindow.State(r, heap), Upto(n), served, {}, op);
    } else {
      GetKeepsWindow(RingWindow.State(r, heap), Upto(n), served, op);
    }
  }

  lemma RingTakeHands<T>(p: Id, r: Ring, owner: seq<Owner>, heap: seq<T>, values: seq<T>, q: nat, shared: bool, last: bool)
    requires GoodRing(p, r, owner, heap, values) && |owner| == |heap| && r.Within(|heap|) && q < |values|
    ensures var o := RingTake(r, heap, q, shared, last);
            if Found(r, q) then Hands(p, r, owner, heap, values, q, o, if shared then Shared else Client)
            else o == Outcome(r, heap, Ok(None))
  {
    if Found(r, q) {
      match (shared, last) {
        case (false, false) => GetUniqueHands(p, r, owner, heap, values, q);
        case (false, true) => PopUniqueHands(p, r, owner, heap, values, q);
        case (true, false) => GetSharedHands(p, r, owner, heap, values, q);
        case (true, true) => PopSharedHands(p, r, owner, heap, values, q);
      }
    }
  }

  lemma ServeKeepsBooks<T>(info: PublisherInfo, pub: D.Publisher<T>, q: nat, s: Id, ring: Ring)
    requires SameBooks(info, pub)
    requires q in info.targets && s in info.targets[q]
    requires |ring.elements| == pub.size
    requires Window(ring, Upto(|pub.messages|), D.Serve(pub, q, s).served)
    ensures SameBooks(info.(targets := info.targets[q := info.targets[q] - {s}], buffer := ring), D.Serve(pub, q, s))
  {
  }

  // A take that is not awaited changes nothing and delivers nothing.
  lemma AwaitedIsDue<T>(m: Impl, nextId: Id, a: D.State<T>, p: Id, q: nat, s: Id)
    requires BooksAgree(m, nextId, a)
    ensures Awaited(m, p, q, s) <==> D.Due(a, p, q, s)
  {
    if p in m.publishers { assert SameBooks(m.publishers[p], a.publishers[p]); }
  }

  // The manager and the outcome of the ring operation after an awaited take.
  lemma TakenParts<T>(w: World<T>, p: Id, q: nat, s: Id, shared: bool)
    requires w.Bounded() && Awaited(w.impl, p, q, s)
    ensures var info := w.impl.publishers[p];
            var o := RingTake(info.buffer, w.heap, q, shared, info.targets[q] - {s} == {});
            var reply := Taken(w, p, q, s, shared);
            && reply.heap == o.heap
            && (o.value.Ok? ==> reply.value == Ok(o.value.value))
            && reply.impl == w.impl.(publishers := w.impl.publishers[p :=
                 info.(targets := info.targets[q := info.targets[q] - {s}], buffer := o.ring)])
  {
  }

  // The one entry that an awaited take changes.
  lemma TakenBook<T>(w: World<T>, a: D.State<T>, p: Id, q: nat, s: Id, shared: bool) returns (info': PublisherInfo)
    requires Refines(w, a) && w.Bounded() && Awaited(w.impl, p, q, s)
    ensures D.Due(a, p, q, s) && p in a.publishers
    ensures Taken(w, p, q, s, shared).impl == w.impl.(publishers := w.impl.publishers[p := info'])
    ensures SameBooks(info', D.Serve(a.publishers[p], q, s))
  {
    var info, pub := w.impl.publishers[p], a.publishers[p];
    var last := info.targets[q] - {s} == {};
    var ring := RingTake(info.buffer, w.heap, q, shared, last).ring;
    info' := info.(targets := info.targets[q := info.targets[q] - {s}], buffer := ring);
    assert SameBooks(info, pub);
    AwaitedIsDue(w.impl, w.nextId, a, p, q, s);
    TakenParts(w, p, q, s, shared);
    GoodIsTidy(p, info.buffer, w.owner, w.heap, Values(pub));
    RingTakeKeepsWindow(info.buffer, w.heap, |pub.messages|, pub.served, q, shared, last);
    ServeKeepsBooks(info, pub, q, s, ring);
  }

  lemma TakeKeepsBooks<T>(w: World<T>, a: D.State<T>, p: Id, q: nat, s: Id, shared: bool)
    requires Refines(w, a) && w.Bounded() && Awaited(w.impl, p, q, s)
    ensures BooksAgree(Taken(w, p, q, s, shared).impl, w.nextId, D.Next(a, D.Take(p, q, s)))
  {
    var info' := TakenBook(w, a, p, q, s, shared);
    OneBookServed(w.impl, w.nextId, a, p, q, s, info');
  }

  lemma OneBookServed<T>(m: Impl, nextId: Id, a: D.State<T>, p: Id, q: nat, s: Id, info': PublisherInfo)
    requires BooksAgree(m, nextId, a) && p in m.publishers && D.Due(a, p, q, s)
    requires SameBooks(info', D.Serve(a.publishers[p], q, s))
    ensures BooksAgree(m.(publishers := m.publishers[p := info']), nextId, D.Next(a, D.Take(p, q, s)))
  {
    OneBookChanged(m, nextId, a, p, m.(publishers := m.publishers[p := info']), D.Next(a, D.Take(p, q, s)));
  }

  // The object an awaited, found message comes in changes hands; every ring stays good.
  // The object handed out is the taker's, and what the clients had is still theirs.
  lemma TakeKeepsClients<T>(w: World<T>, x: Obj, size: nat, shared: bool, w': World<T>)
    requires ClientsOwn(w) && x < size == |w'.heap| && |w.heap| <= size
    requires x < |w.heap| ==> w.owner[x].InSlot? || (shared && w.owner[x] == Shared)
    requires w'.owner == Record(w.owner, size, x, if shared then Shared else Client)
    requires w'.unique == (if shared then w.unique else w.unique + {x})
    requires w'.shared == (if shared then w.shared + {x} else w.shared)
    ensures ClientsOwn(w')
  {
  }

  lemma TakeKeepsValues<T>(a: D.State<T>, p: Id, q: nat, s: Id)
    requires D.Due(a, p, q, s)
    ensures var a' := D.Next(a, D.Take(p, q, s));
      && a'.publishers.Keys == a.publishers.Keys && Values(a'.publishers[p]) == Values(a.publishers[p])
      && forall x :: x in a.publishers && x != p ==> a'.publishers[x] == a.publishers[x]
  {
    var a' := D.Next(a, D.Take(p, q, s));
    assert Values(a'.publishers[p]) == Values(a.publishers[p]);
  }

  lemma TakeKeepsRings<T>(w: World<T>, a: D.State<T>, p: Id, q: nat, s: Id, shared: bool, o: Outcome<T>, w': World<T>)
    requires ClientsOwn(w) && GoodRings(w, a) && w.Bounded() && D.Due(a, p, q, s) && p in w.impl.publishers
    requires Hands(p, w.impl.publishers[p].buffer, w.owner, w.heap, Values(a.publishers[p]), q, o,
                   if shared then Shared else Client)
    requires w'.impl.publishers.Keys == w.impl.publishers.Keys
    requires w'.impl.publishers[p].buffer == o.ring
    requires forall x :: x in w.impl.publishers && x != p ==> w'.impl.publishers[x] == w.impl.publishers[x]
    requires var x := o.value.value.value;
             && w'.heap == o.heap
             && w'.owner == Record(w.owner, |o.heap|, x, if shared then Shared else Client)
             && w'.unique == (if shared then w.unique else w.unique + {x})
             && w'.shared == (if shared then w.shared + {x} else w.shared)
    ensures ClientsOwn(w') && GoodRings(w', D.Next(a, D.Take(p, q, s)))
  {
    TakeKeepsClients(w, o.value.value.value, |o.heap|, shared, w');
    TakeKeepsValues(a, p, q, s);
    OnePublisherChanged(w, a, w', D.Next(a, D.Take(p, q, s)), p, InSlot(p, IndexOf(w.impl.publishers[p].buffer.elements, q)));
  }

  lemma IdleTakeKeepsRings<T>(w: World<T>, a: D.State<T>, p: Id, q: nat, s: Id, w': World<T>)
    requires GoodRings(w, a) && D.Due(a, p, q, s) && p in w.impl.publishers && |w.owner| == |w.heap|
    requires w'.impl.publishers.Keys == w.impl.publishers.Keys
    requires forall x :: x in w.impl.publishers ==> w'.impl.publishers[x].buffer == w.impl.publishers[x].buffer
    requires w'.heap == w.heap && w'.owner == w.owner
    ensures GoodRings(w', D.Next(a, D.Take(p, q, s)))
  {
    var a' := D.Next(a, D.Take(p, q, s));
    assert Values(a'.publishers[p]) == Values(a.publishers[p]);
    OnePublisherChanged(w, a, w', a', p, Client);
  }

  // What the taking client reads.
  function Read<T>(r: Reply<T>): Option<T> {
    if r.value.Ok? && r.value.value.Some? && r.value.value.value < |r.heap|
    then Some(r.heap[r.value.value.value]) else None
  }

  // What an awaited take hands over, and what it says about the message being found.
  lemma TakenHands<T>(w: World<T>, a: D.State<T>, p: Id, q: nat, s: Id, shared: bool) returns (o: Outcome<T>)
    requires Refines(w, a) && w.Bounded() && Awaited(w.impl, p, q, s)
    ensures D.Due(a, p, q, s) && p in w.impl.publishers
    ensures o == RingTake(w.impl.publishers[p].buffer, w.heap, q, shared, w.impl.publishers[p].targets[q] - {s} == {})
    ensures if D.InWindow(a.publishers[p], q)
            then Hands(p, w.impl.publishers[p].buffer, w.owner, w.heap, Values(a.publishers[p]), q, o,
                       if shared then Shared else Client)
            else o == Outcome(w.impl.publishers[p].buffer, w.heap, Ok(None))
  {
    var info, pub := w.impl.publishers[p], a.publishers[p];
    AwaitedIsDue(w.impl, w.nextId, a, p, q, s);
    assert SameBooks(info, pub);
    o := RingTake(info.buffer, w.heap, q, shared, info.targets[q] - {s} == {});
    RingTakeHands(p, info.buffer, w.owner, w.heap, Values(pub), q, shared, info.targets[q] - {s} == {});
    FoundInWindow(info.buffer, pub, q);
  }

  // An awaited take succeeds and delivers the message while it is in the window, nothing after.
  lemma TakeDelivers<T>(w: World<T>, a: D.State<T>, p: Id, q: nat, s: Id, shared: bool)
    requires Refines(w, a) && w.Bounded()
    ensures Taken(w, p, q, s, shared).value.Ok?
    ensures Read(Taken(w, p, q, s, shared)) == D.Delivered(a, p, q, s)
  {
    AwaitedIsDue(w.impl, w.nextId, a, p, q, s);
    if Awaited(w.impl, p, q, s) {
      var o := TakenHands(w, a, p, q, s, shared);
      TakenParts(w, p, q, s, shared);
    }
  }

  // The world after an awaited take: its outcome is written down and its object changes hands.
  lemma TakenWorld<T>(w: World<T>, a: D.State<T>, p: Id, q: nat, s: Id, shared: bool, o: Outcome<T>, w': World<T>)
    requires w.Bounded() && Awaited(w.impl, p, q, s)
    requires o == RingTake(w.impl.publishers[p].buffer, w.heap, q, shared, w.impl.publishers[p].targets[q] - {s} == {})
    requires o.value.Ok? && (o.value.value.Some? ==> o.value.value.value < |o.heap|)
    requires w' == Step(w, if shared then TakeShared(p, q, s) else TakeUnique(p, q, s))
    ensures w'.impl == Taken(w, p, q, s, shared).impl && w'.nextId == w.nextId
    ensures match o.value.value
            case Some(x) =>
              && w'.heap == o.heap
              && w'.owner == Record(w.owner, |o.heap|, x, if shared then Shared else Client)
              && w'.unique == (if shared then w.unique else w.unique + {x})
              && w'.shared == (if shared then w.shared + {x} else w.shared)
            case None => w' == w.(impl := w'.impl, heap := o.heap)
  {
    TakenParts(w, p, q, s, shared);
  }

  // All that the rings need to know about an awaited take with outcome o.
  ghost predicate TookOut<T>(w: World<T>, a: D.State<T>, p: Id, q: nat, s: Id, shared: bool, o: Outcome<T>, w': World<T>) {
    && D.Due(a, p, q, s) && p in w.impl.publishers && |w.owner| == |w.heap|
    && w'.impl.publishers.Keys == w.impl.publishers.Keys && w'.impl.publishers[p].buffer == o.ring
    && (forall x :: x in w.impl.publishers && x != p ==> w'.impl.publishers[x] == w.impl.publishers[x])
    && (if D.InWindow(a.publishers[p], q)
        then Hands(p, w.impl.publishers[p].buffer, w.owner, w.heap, Values(a.publishers[p]), q, o,
                   if shared then Shared else Client)
        else o == Outcome(w.impl.publishers[p].buffer, w.heap, Ok(None)))
    && o.value.Ok?
    && match o.value.value
       case Some(x) =>
         && |w.owner| <= |o.heap| && x < |o.heap|
         && w'.heap == o.heap
         && w'.owner == Record(w.owner, |o.heap|, x, if shared then Shared else Client)
         && w'.unique == (if shared then w.unique else w.unique + {x})
         && w'.shared == (if shared then w.shared + {x} else w.shared)
       case None => w' == w.(impl := w'.impl, heap := o.heap)
  }

  lemma TakenOutcome<T>(w: World<T>, a: D.State<T>, p: Id, q: nat, s: Id, shared: bool, w': World<T>) returns (o: Outcome<T>)
    requires Refines(w, a) && w.Bounded() && Awaited(w.impl, p, q, s)
    requires w' == Step(w, if shared then TakeShared(p, q, s) else TakeUnique(p, q, s))
    ensures TookOut(w, a, p, q, s, shared, o, w')
  {
    o := TakenHands(w, a, p, q, s, shared);
    TakenWorld(w, a, p, q, s, shared, o, w');
    TakenPublishers(w, p, q, s, shared, o, w'.impl);
  }

  lemma TookOutKeepsGood<T>(w: World<T>, a: D.State<T>, p: Id, q: nat, s: Id, shared: bool, o: Outcome<T>, w': World<T>)
    requires ClientsOwn(w) && GoodRings(w, a) && w.Bounded()
    requires TookOut(w, a, p, q, s, shared, o, w')
    ensures ClientsOwn(w') && GoodRings(w', D.Next(a, D.Take(p, q, s)))
  {
    if D.InWindow(a.publishers[p], q) {
      TakeKeepsRings(w, a, p, q, s, shared, o, w');
    } else {
      IdleTakeKeepsRings(w, a, p, q, s, w');
    }
  }

  lemma TakeKeepsGood<T>(w: World<T>, a: D.State<T>, p: Id, q: nat, s: Id, shared: bool, w': World<T>)
    requires Refines(w, a) && w.Bounded() && Awaited(w.impl, p, q, s)
    requires w' == Step(w, if shared then TakeShared(p, q, s) else TakeUnique(p, q, s))
    ensures ClientsOwn(w') && GoodRings(w', D.Next(a, D.Take(p, q, s)))
  {
    var o := TakenOutcome(w, a, p, q, s, shared, w');
    TookOutKeepsGood(w, a, p, q, s, shared, o, w');
  }

  // Of the publishers, an awaited take touches one: it gets the ring of the outcome.
  lemma TakenPublishers<T>(w: World<T>, p: Id, q: nat, s: Id, shared: bool, o: Outcome<T>, m': Impl)
    requires w.Bounded() && Awaited(w.impl, p, q, s)
    requires o == RingTake(w.impl.publishers[p].buffer, w.heap, q, shared, w.impl.publishers[p].targets[q] - {s} == {})
    requires m' == Taken(w, p, q, s, shared).impl
    ensures m'.publishers.Keys == w.impl.publishers.Keys
    ensures m'.publishers[p].buffer == o.ring
    ensures forall x :: x in w.impl.publishers && x != p ==> m'.publishers[x] == w.impl.publishers[x]
  {
    TakenParts(w, p, q, s, shared);
  }

  lemma TakeSimulates<T>(w: World<T>, a: D.State<T>, p: Id, q: nat, s: Id, shared: bool)
    requires Refines(w, a) && w.Bounded()
    ensures Simulates(w, a, if shared then TakeShared(p, q, s) else TakeUnique(p, q, s))
  {
    var w' := Step(w, if shared then TakeShared(p, q, s) else TakeUnique(p, q, s));
    AwaitedIsDue(w.impl, w.nextId, a, p, q, s);
    if Awaited(w.impl, p, q, s) {
      var o := TakenHands(w, a, p, q, s, shared);
      TakenWorld(w, a, p, q, s, shared, o, w');
      TakeKeepsBooks(w, a, p, q, s, shared);
      TakeKeepsGood(w, a, p, q, s, shared, w');
    } else {
      assert w' == w;
    }
  }

  // --- whole runs ---

  lemma {:induction false} EventSimulates<T>(w: World<T>, a: D.State<T>, e: Event<T>)
    requires Refines(w, a) && w.Bounded()
    ensures Simulates(w, a, e)
  {
    if Possible(w, e) {
      match e {
        case AddSubscription(topic) => SubscribeSimulates(w, a, topic);
        case RemoveSubscription(id) => UnsubscribeSimulates(w, a, id);
        case AddPublisher(topic, size) => AdvertiseSimulates(w, a, topic, size);
        case RemovePublisher(id) => WithdrawSimulates(w, a, id);
        case ExpirePublisher(id) => ExpireSimulates(w, a, id);
        case StoreUnique(p, o) => StoreSimulates(w, a, p, o, false);
        case StoreShared(p, o) => StoreSimulates(w, a, p, o, true);
        case TakeUnique(p, q, s) => TakeSimulates(w, a, p, q, s, false);
        case TakeShared(p, q, s) => TakeSimulates(w, a, p, q, s, true);
        case _ => ClientsAreSilent(w, a, e);
      }
    }
  }

  function Initial<T>(): World<T> {
    World(Books(map[], map[], map[]), 1, [], [], {}, {})
  }

  lemma InitialRefines<T>()
    ensures Refines<T>(Initial(), D.Initial())
  {
  }

  // The world after a run. Every world reached is bounded, as RunRefines shows.
  ghost function Run<T>(events: seq<Event<T>>): World<T> {
    if events == [] then Initial() else
    var w := Run(events[..|events| - 1]);
    if w.Bounded() then Step(w, events[|events| - 1]) else w
  }

  // The reference run that a run stands for.
  ghost function Meanings<T>(events: seq<Event<T>>): seq<D.Event<T>> {
    if events == [] then [] else
    var before, w := events[..|events| - 1], Run(events[..|events| - 1]);
    Meanings(before) + [if w.Bounded() then Meaning(w, events[|events| - 1]) else D.Silent]
  }

  lemma {:induction false} RunRefines<T>(events: seq<Event<T>>)
    ensures Refines(Run(events), D.After(Meanings(events)))
    ensures Run(events).Bounded()
  {
    if events == [] {
      InitialRefines<T>();
    } else {
      var before, e := events[..|events| - 1], events[|events| - 1];
      RunRefines(before);
      EventSimulates(Run(before), D.After(Meanings(before)), e);
      var meanings := Meanings(events);
      assert meanings[..|meanings| - 1] == Meanings(before);
    }
    RefinesIsBounded(Run(events), D.After(Meanings(events)));
  }

  // After any run, a take never fails and reads what the reference delivers.
  lemma {:induction false} TakesRefine<T>(events: seq<Event<T>>, p: Id, q: nat, s: Id, shared: bool)
    ensures Run(events).Bounded()
    ensures Taken(Run(events), p, q, s, shared).value.Ok?
    ensures Read(Taken(Run(events), p, q, s, shared)) == D.Delivered(D.After(Meanings(events)), p, q, s)
    ensures Run(events).impl.publishers.Keys == D.After(Meanings(events)).publishers.Keys
  {
    RunRefines(events);
    TakeDelivers(Run(events), D.After(Meanings(events)), p, q, s, shared);
  }

  // The main result. After any run, a take reads a value exactly when the publisher is still
  // registered and some event of the run earned the value for this subscription: it was there when
  // the value was stored as message q, has neither gone nor taken it since, and fewer than `size`
  // messages followed.
  lemma {:induction false} TakesDeliverExactly<T>(events: seq<Event<T>>, p: Id, q: nat, s: Id, shared: bool, value: T)
    ensures Run(events).Bounded()
    ensures Read(Taken(Run(events), p, q, s, shared)) == Some(value) <==>
            p in Run(events).impl.publishers && D.Earned(Meanings(events), p, q, s, value)
  {
    TakesRefine(events, p, q, s, shared);
    D.DeliversExactly(Meanings(events), p, q, s, value);
  }

  // Ownership safety. After any run, an object a client holds by unique pointer is held by no other
  // client pointer and by no slot; an object held uniquely by a slot is in no other slot and is held
  // by no client; and a slot in use holds one object by one pointer, a free slot none.
  lemma {:induction false} UniqueMeansUnique<T>(events: seq<Event<T>>)
    ensures var w := Run(events);
      && (forall o :: o in w.unique ==> o !in w.shared)
      && (forall p, i :: p in w.impl.publishers && 0 <= i < |w.impl.publishers[p].buffer.elements| ==>
            var e := w.impl.publishers[p].buffer.elements[i];
            && (if e.inUse then e.HoldsOne() else e.unique.None? && e.shared.None?)
            && (e.unique.Some? ==> e.unique.value !in w.unique && e.unique.value !in w.shared)
            && (e.shared.Some? ==> e.shared.value !in w.unique))
    ensures var w := Run(events);
      forall p, i, p', i' ::
        p in w.impl.publishers && 0 <= i < |w.impl.publishers[p].buffer.elements| &&
        p' in w.impl.publishers && 0 <= i' < |w.impl.publishers[p'].buffer.elements| && (p, i) != (p', i') ==>
        var e, e' := w.impl.publishers[p].buffer.elements[i], w.impl.publishers[p'].buffer.elements[i'];
        e.unique.Some? ==> e.unique != e'.unique && e.unique != e'.shared
  {
    var w, a := Run(events), D.After(Meanings(events));
    RunRefines(events);
    forall p, i | p in w.impl.publishers && 0 <= i < |w.impl.publishers[p].buffer.elements|
      ensures GoodSlot(p, i, w.impl.publishers[p].buffer.elements[i], w.owner, w.heap, Values(a.publishers[p]))
    {
      assert GoodRing(p, w.impl.publishers[p].buffer, w.owner, w.heap, Values(a.publishers[p]));
    }
  }
}
