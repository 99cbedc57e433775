/**
 * With unique takers only and no displacement, delivery costs one copy less than there are takers.
 */
module IntraProcessCopies {

  import opened Wrappers
  import opened RingSpec
  import W = RingWindow
  import opened IntraProcessSpec
  import opened IntraProcessRun
  import opened IntraProcessRefinement
  import D = Delivery

  // Object o is what ring r holds under key q, through a unique pointer.
  predicate Holds(r: Ring, q: nat, o: Obj) {
    Found(r, q) && r.elements[IndexOf(r.elements, q)].unique == Some(o)
  }

  // Object o is message q of p, held by its slot through a unique pointer.
  predicate Stored<T>(w: World<T>, p: Id, q: nat, o: Obj) {
    p in w.impl.publishers && Holds(w.impl.publishers[p].buffer, q, o)
  }

  // The subscriptions that have yet to take message q of p.
  function Targets<B>(m: Books<B>, p: Id, q: nat): set<Id> {
    if p in m.publishers && q in m.publishers[p].targets then m.publishers[p].targets[q] else {}
  }

  // The object that a take by unique pointer hands over.
  function HandsOver<T>(w: World<T>, p: Id, q: nat, s: Id): Option<Obj>
    requires w.Bounded()
  {
    var value := Taken(w, p, q, s, false).value;
    if value.Ok? then value.value else None
  }

  // What one take does when others are still to come, and when it is the last.
  lemma OneTake<T>(w: World<T>, p: Id, q: nat, s: Id, o: Obj)
    requires w.Bounded() && Stored(w, p, q, o) && Awaited(w.impl, p, q, s)
    ensures var w' := Step(w, TakeUnique(p, q, s));
      && p in w'.impl.publishers && q in w'.impl.publishers[p].targets
      && w'.impl.publishers[p].targets[q] == w.impl.publishers[p].targets[q] - {s}
      && if w.impl.publishers[p].targets[q] == {s}
         then |w'.heap| == |w.heap| && w'.unique == w.unique + {o} && HandsOver(w, p, q, s) == Some(o)
         else |w'.heap| == |w.heap| + 1 && HandsOver(w, p, q, s) == Some(|w.heap|) && Stored(w', p, q, o)
  {
    var r := w.impl.publishers[p].buffer;
    assert r.elements[IndexOf(r.elements, q)].Within(|w.heap|);
    TakenParts(w, p, q, s, false);
    assert w.impl.publishers[p].targets[q] - {s} == {} <==> w.impl.publishers[p].targets[q] == {s};
  }

  // ---- one slot among others ----

  lemma SameIndex(es: seq<Element>, es': seq<Element>, key: nat, j: nat)
    requires |es'| == |es| && j < |es| && IndexOf(es, key) < |es| && IndexOf(es, key) != j
    requires (forall i :: 0 <= i < |es| && i != j ==> es'[i] == es[i]) && !Matches(es'[j], key)
    ensures IndexOf(es', key) == IndexOf(es, key)
  {
    var k, k' := IndexOf(es, key), IndexOf(es', key);
    assert Matches(es'[k], key);
    assert k' <= k;
    assert Matches(es'[k'], key);
  }

  // A push of message n drops message n - size, and no other.
  lemma PushKeepsHolds(r: Ring, n: nat, served: set<nat>, q: nat, o: Obj, unique: Option<Obj>, shared: Option<Obj>)
    requires W.Window(r, Upto(n), served) && Holds(r, q, o) && n < q + |r.elements|
    ensures Holds(Push(r, n, unique, shared), q, o)
  {
    var k := IndexOf(r.elements, q);
    W.Lookup(r, Upto(n), served, q);
    var age := W.Age(r.head, k, |r.elements|);
    assert n - age == q;
    assert k != r.head;
    SameIndex(r.elements, Push(r, n, unique, shared).elements, q, r.head);
  }

  lemma TakeKeepsHolds<T>(r: Ring, heap: seq<T>, other: nat, shared: bool, last: bool, q: nat, o: Obj)
    requires r.Within(|heap|) && Holds(r, q, o) && other != q
    ensures Holds(RingTake(r, heap, other, shared, last).ring, q, o)
  {
    var r' := RingTake(r, heap, other, shared, last).ring;
    if Found(r, other) {
      var j := IndexOf(r.elements, other);
      assert j != IndexOf(r.elements, q);
      SameIndex(r.elements, r'.elements, q, j);
    }
  }

  // ---- the other events ----

  // A take of message q of p by one that it waits for.
  predicate Takes<T>(w: World<T>, e: Event<T>, p: Id, q: nat) {
    e.TakeUnique? && e.p == p && e.q == q && Awaited(w.impl, p, q, e.s)
  }

  // What must not happen before the last take: a take by shared pointer, a target or the publisher
  // going, and so many stores by p that the message is displaced.
  predicate Harmless<T>(w: World<T>, e: Event<T>, p: Id, q: nat) {
    match e
    case TakeShared(p', q', s) => p' == p && q' == q ==> !Awaited(w.impl, p, q, s)
    case RemoveSubscription(id) => id !in Targets(w.impl, p, q)
    case RemovePublisher(id) => id != p
    case StoreUnique(p', _) => p' == p ==> Fits(w.impl, p, q)
    case StoreShared(p', _) => p' == p ==> Fits(w.impl, p, q)
    case _ => true
  }

  // One more message of p leaves fewer than `size` after q.
  predicate Fits(m: Impl, p: Id, q: nat) {
    p in m.publishers ==> m.publishers[p].sequenceNumber < q + |m.publishers[p].buffer.elements|
  }

  // Message q of p is where it was, and waits for the same.
  ghost predicate Untouched<T>(w: World<T>, w': World<T>, p: Id, q: nat, o: Obj) {
    Stored(w', p, q, o) && Targets(w'.impl, p, q) == Targets(w.impl, p, q)
  }

  lemma InfoLeaves(info: PublisherInfo, served: set<nat>, unique: Option<Obj>, shared: Option<Obj>, destined: set<Id>, q: nat, o: Obj)
    requires InWindow(info, served) && Holds(info.buffer, q, o) && q in info.targets
    requires q < info.sequenceNumber < q + |info.buffer.elements|
    ensures var info' := Published(info, unique, shared, destined);
      Holds(info'.buffer, q, o) && q in info'.targets && info'.targets[q] == info.targets[q]
  {
    PushKeepsHolds(info.buffer, info.sequenceNumber, served, q, o, unique, shared);
  }

  ghost predicate InWindow(info: PublisherInfo, served: set<nat>) {
    W.Window(info.buffer, Upto(info.sequenceNumber), served)
  }

  lemma OwnStoreLeaves<T>(w: World<T>, a: D.State<T>, m': Impl, unique: Option<Obj>, shared: Option<Obj>, p: Id, q: nat, o: Obj)
    requires Refines(w, a) && w.Bounded() && Stored(w, p, q, o) && Targets(w.impl, p, q) != {}
    requires m' == Store(w.impl, p, unique, shared).impl && Fits(w.impl, p, q)
    ensures Untouched(w, w.(impl := m'), p, q, o)
  {
    var info, pub := w.impl.publishers[p], a.publishers[p];
    assert SameBooks(info, pub);
    FewerThanNumbered(info, pub, q);
    var destined := if info.publisher.Some? then Ids(w.impl.idsByTopic, info.publisher.value) else {};
    InfoLeaves(info, pub.served, unique, shared, destined, q, o);
    StorePublishes(w.impl, p, unique, shared);
    assert m'.publishers[p] == Published(info, unique, shared, destined);
  }

  lemma FewerThanNumbered<T>(info: PublisherInfo, pub: D.Publisher<T>, q: nat)
    requires SameBooks(info, pub) && q in info.targets && info.targets[q] != {}
    ensures q < info.sequenceNumber
  {
    var s :| s in info.targets[q];
  }

  lemma OtherStoreLeaves<T>(w: World<T>, m': Impl, p': Id, unique: Option<Obj>, shared: Option<Obj>, p: Id, q: nat, o: Obj)
    requires w.Bounded() && Stored(w, p, q, o) && p' != p
    requires p' in w.impl.publishers && m' == Store(w.impl, p', unique, shared).impl
    ensures Untouched(w, w.(impl := m'), p, q, o)
  {
    StorePublishes(w.impl, p', unique, shared);
  }

  lemma TakeLeaves<T>(w: World<T>, p': Id, q': nat, s: Id, shared: bool, w': World<T>, p: Id, q: nat, o: Obj)
    requires w.Bounded() && Stored(w, p, q, o) && (p' != p || q' != q)
    requires Awaited(w.impl, p', q', s) && w'.impl == Taken(w, p', q', s, shared).impl
    ensures Untouched(w, w', p, q, o)
  {
    TakenParts(w, p', q', s, shared);
    var info := w.impl.publishers[p'];
    if p' == p { TakeKeepsHolds(info.buffer, w.heap, q', shared, info.targets[q'] - {s} == {}, q, o); }
  }

  lemma UnsubscribeLeaves<T>(w: World<T>, id: Id, p: Id, q: nat, o: Obj)
    requires Stored(w, p, q, o) && id !in Targets(w.impl, p, q)
    ensures Untouched(w, w.(impl := IntraProcessSpec.RemoveSubscription(w.impl, id)), p, q, o)
  {
  }

  lemma AdvertiseLeaves<T>(w: World<T>, id: Id, topic: Topic, size: nat, p: Id, q: nat, o: Obj)
    requires Stored(w, p, q, o) && id != p
    ensures Untouched(w, w.(impl := IntraProcessSpec.AddPublisher(w.impl, id, topic, Empty(size)), nextId := id + 1), p, q, o)
  {
  }

  lemma ExpireLeaves<T>(w: World<T>, id: Id, p: Id, q: nat, o: Obj)
    requires Stored(w, p, q, o)
    ensures Untouched(w, w.(impl := IntraProcessSpec.ExpirePublisher(w.impl, id)), p, q, o)
  {
  }

  lemma SubscribeLeaves<T>(w: World<T>, id: Id, topic: Topic, p: Id, q: nat, o: Obj)
    requires Stored(w, p, q, o)
    ensures Untouched(w, w.(impl := IntraProcessSpec.AddSubscription(w.impl, id, topic), nextId := id + 1), p, q, o)
  {
  }

  lemma WithdrawLeaves<T>(w: World<T>, id: Id, p: Id, q: nat, o: Obj)
    requires Stored(w, p, q, o) && id != p
    ensures Untouched(w, w.(impl := IntraProcessSpec.RemovePublisher(w.impl, id)), p, q, o)
  {
  }

  lemma NextIdIsNew<T>(w: World<T>, a: D.State<T>, p: Id)
    requires Refines(w, a) && p in w.impl.publishers
    ensures p != w.nextId
  {
  }

  lemma RegistrationLeaves<T>(w: World<T>, e: Event<T>, p: Id, q: nat, o: Obj)
    requires p != w.nextId && w.Bounded() && Stored(w, p, q, o) && Harmless(w, e, p, q)
    requires e.AddSubscription? || e.AddPublisher? || e.RemovePublisher? || e.ExpirePublisher?
    ensures Untouched(w, Step(w, e), p, q, o)
  {
    match e
    case AddPublisher(topic, size) => AdvertiseLeaves(w, w.nextId, topic, size, p, q, o);
    case ExpirePublisher(id) => ExpireLeaves(w, id, p, q, o);
    case AddSubscription(topic) => SubscribeLeaves(w, w.nextId, topic, p, q, o);
    case RemovePublisher(id) => WithdrawLeaves(w, id, p, q, o);
  }

  lemma TakingLeaves<T>(w: World<T>, p': Id, q': nat, s: Id, shared: bool, p: Id, q: nat, o: Obj)
    requires w.Bounded() && Stored(w, p, q, o) && (Awaited(w.impl, p', q', s) ==> p' != p || q' != q)
    ensures Untouched(w, Step(w, if shared then TakeShared(p', q', s) else TakeUnique(p', q', s)), p, q, o)
  {
    if Awaited(w.impl, p', q', s) {
      TakeLeaves(w, p', q', s, shared, Step(w, if shared then TakeShared(p', q', s) else TakeUnique(p', q', s)), p, q, o);
    }
  }

  lemma StoringLeaves<T>(w: World<T>, a: D.State<T>, p': Id, unique: Option<Obj>, shared: Option<Obj>, p: Id, q: nat, o: Obj)
    requires Refines(w, a) && w.Bounded() && Stored(w, p, q, o) && Targets(w.impl, p, q) != {}
    requires p' == p ==> Fits(w.impl, p, q)
    ensures Untouched(w, w.(impl := Store(w.impl, p', unique, shared).impl), p, q, o)
  {
    var m' := Store(w.impl, p', unique, shared).impl;
    if p' == p { OwnStoreLeaves(w, a, m', unique, shared, p, q, o); }
    else if p' in w.impl.publishers { OtherStoreLeaves(w, m', p', unique, shared, p, q, o); }
  }

  // Every other event leaves the message where it is, for the same subscriptions.
  lemma OthersLeave<T>(w: World<T>, a: D.State<T>, e: Event<T>, p: Id, q: nat, o: Obj)
    requires Refines(w, a) && w.Bounded() && Stored(w, p, q, o) && Targets(w.impl, p, q) != {}
    requires Harmless(w, e, p, q) && !Takes(w, e, p, q)
    ensures Untouched(w, Step(w, e), p, q, o)
  {
    if Possible(w, e) {
      match e
      case StoreUnique(p', x) => StoringLeaves(w, a, p', Some(x), None, p, q, o);
      case StoreShared(p', x) => StoringLeaves(w, a, p', None, Some(x), p, q, o);
      case TakeUnique(p', q', s) => TakingLeaves(w, p', q', s, false, p, q, o);
      case TakeShared(p', q', s) => TakingLeaves(w, p', q', s, true, p, q, o);
      case RemoveSubscription(id) => UnsubscribeLeaves(w, id, p, q, o);
      case Create(_) =>
      case Share(_) =>
      case Write(_, _) =>
      case _ =>
        NextIdIsNew(w, a, p);
        RegistrationLeaves(w, e, p, q, o);
    }
  }

  // ---- a continuation up to the last take ----

  // After `events`, the events `more` happen, each while the message is waited for.
  ghost predicate WhileAwaited<T>(events: seq<Event<T>>, more: seq<Event<T>>, p: Id, q: nat) {
    forall k :: 0 <= k < |more| ==> GoesOn(events + more[..k], more[k], p, q)
  }

  ghost predicate GoesOn<T>(events: seq<Event<T>>, e: Event<T>, p: Id, q: nat) {
    Targets(Run(events).impl, p, q) != {} && Harmless(Run(events), e, p, q)
  }

  // How many of them take it, how many of those make a copy, and what the last of those hands over.
  datatype Bill = Bill(takes: nat, copies: nat, last: Option<Obj>)

  function Add<T>(bill: Bill, w: World<T>, e: Event<T>, p: Id, q: nat): Bill
    requires w.Bounded()
  {
    if !Takes(w, e, p, q) then bill
    else Bill(bill.takes + 1, bill.copies + if |Step(w, e).heap| > |w.heap| then 1 else 0, HandsOver(w, p, q, e.s))
  }

  ghost function Billed<T>(events: seq<Event<T>>, more: seq<Event<T>>, p: Id, q: nat): Bill {
    if more == [] then Bill(0, 0, None)
    else
      var before, e := more[..|more| - 1], more[|more| - 1];
      var bill, w := Billed(events, before, p, q), Run(events + before);
      if w.Bounded() then Add(bill, w, e, p, q) else bill
  }

  // Of the targets T, those still waiting are T less the takes; while there are some, the message is
  // where it was and every take has made one copy; with the last, the original goes to the client.
  ghost predicate Settled<T>(w: World<T>, p: Id, q: nat, o: Obj, targets: nat, bill: Bill) {
    var left := Targets(w.impl, p, q);
    && |left| + bill.takes == targets
    && if left != {} then Stored(w, p, q, o) && bill.copies == bill.takes
       else bill.copies == targets - 1 && bill.last == Some(o) && o in w.unique
  }

  lemma TakeSettles<T>(w: World<T>, e: Event<T>, p: Id, q: nat, o: Obj, targets: nat, bill: Bill)
    requires w.Bounded() && Stored(w, p, q, o) && Takes(w, e, p, q) && targets > 0
    requires |Targets(w.impl, p, q)| + bill.takes == targets && bill.copies == bill.takes
    ensures Settled(Step(w, e), p, q, o, targets, Add(bill, w, e, p, q))
  {
    OneTake(w, p, q, e.s, o);
    var before := Targets(w.impl, p, q);
    assert before == (before - {e.s}) + {e.s};
    assert before - {e.s} == {} <==> before == {e.s};
  }

  lemma EventSettles<T>(w: World<T>, a: D.State<T>, e: Event<T>, p: Id, q: nat, o: Obj, targets: nat, bill: Bill)
    requires Refines(w, a) && w.Bounded() && Targets(w.impl, p, q) != {} && Harmless(w, e, p, q) && targets > 0
    requires Settled(w, p, q, o, targets, bill)
    ensures Settled(Step(w, e), p, q, o, targets, Add(bill, w, e, p, q))
  {
    if Takes(w, e, p, q) { TakeSettles(w, e, p, q, o, targets, bill); } else { OthersLeave(w, a, e, p, q, o); }
  }

  lemma NextEvent<T>(events: seq<Event<T>>, before: seq<Event<T>>, e: Event<T>)
    ensures Run(events + before).Bounded() && Run(events + (before + [e])) == Step(Run(events + before), e)
  {
    var all := events + (before + [e]);
    assert all[..|all| - 1] == events + before;
    RunRefines(events + before);
  }

  lemma AwaitedBefore<T>(events: seq<Event<T>>, before: seq<Event<T>>, e: Event<T>, p: Id, q: nat)
    requires WhileAwaited(events, before + [e], p, q)
    ensures WhileAwaited(events, before, p, q) && GoesOn(events + before, e, p, q)
  {
    var more := before + [e];
    forall k | 0 <= k < |before| ensures GoesOn(events + before[..k], before[k], p, q) {
      assert before[..k] == more[..k];
      assert GoesOn(events + more[..k], more[k], p, q);
    }
    assert more[..|before|] == before;
    assert GoesOn(events + more[..|before|], more[|before|], p, q);
  }

  lemma {:induction false} AlwaysSettled<T>(events: seq<Event<T>>, more: seq<Event<T>>, p: Id, q: nat, o: Obj)
    requires Stored(Run(events), p, q, o) && Targets(Run(events).impl, p, q) != {}
    requires WhileAwaited(events, more, p, q)
    ensures Settled(Run(events + more), p, q, o, |Targets(Run(events).impl, p, q)|, Billed(events, more, p, q))
    decreases |more|
  {
    if more == [] {
      assert events + more == events;
    } else {
      var before, e := more[..|more| - 1], more[|more| - 1];
      assert more == before + [e];
      AwaitedBefore(events, before, e, p, q);
      AlwaysSettled(events, before, p, q, o);
      NextEvent(events, before, e);
      RunRefines(events + before);
      EventSettles(Run(events + before), D.After(Meanings(events + before)), e, p, q, o,
                   |Targets(Run(events).impl, p, q)|, Billed(events, before, p, q));
    }
  }

  // ---- from the store to the last take ----

  lemma PushHolds(r: Ring, n: nat, served: set<nat>, o: Obj)
    requires W.Window(r, Upto(n), served) && (forall k :: k in served ==> k < n)
    ensures Holds(Push(r, n, Some(o), None), n, o)
  {
    var r' := Push(r, n, Some(o), None);
    W.PushKeepsWindow(r, Upto(n), served, n, Some(o), None);
    assert Upto(n) + [n] == Upto(n + 1);
    W.Lookup(r', Upto(n + 1), served, n);
    var last := W.Last(Upto(n + 1), |r.elements|);
    assert last[|last| - 1] == n;
  }

  lemma StoreMeans<T>(w: World<T>, p: Id, o: Obj)
    requires w.Bounded() && o in w.unique && p in w.impl.publishers && w.impl.publishers[p].publisher.Some?
    ensures var info, m' := w.impl.publishers[p], Step(w, StoreUnique(p, o)).impl;
      && p in m'.publishers
      && m'.publishers[p] == Published(info, Some(o), None, Ids(w.impl.idsByTopic, info.publisher.value))
  {
    StorePublishes(w.impl, p, Some(o), None);
  }

  lemma StoreHolds<T>(w: World<T>, a: D.State<T>, p: Id, o: Obj)
    requires Refines(w, a) && w.Bounded()
    requires o in w.unique && p in w.impl.publishers && w.impl.publishers[p].publisher.Some?
    ensures var w', q := Step(w, StoreUnique(p, o)), w.impl.publishers[p].sequenceNumber;
      && Stored(w', p, q, o)
      && Targets(w'.impl, p, q) == Ids(w.impl.idsByTopic, w.impl.publishers[p].publisher.value)
  {
    StoreMeans(w, p, o);
    assert SameBooks(w.impl.publishers[p], a.publishers[p]);
    PushHolds(w.impl.publishers[p].buffer, w.impl.publishers[p].sequenceNumber, a.publishers[p].served, o);
  }

  lemma StoreBegins<T>(events: seq<Event<T>>, p: Id, o: Obj)
    requires o in Run(events).unique && p in Run(events).impl.publishers && Run(events).impl.publishers[p].publisher.Some?
    ensures var w, w' := Run(events), Run(events + [StoreUnique(p, o)]);
      var q := w.impl.publishers[p].sequenceNumber;
      && Stored(w', p, q, o)
      && Targets(w'.impl, p, q) == Ids(w.impl.idsByTopic, w.impl.publishers[p].publisher.value)
  {
    var none: seq<Event<T>> := [];
    NextEvent(events, none, StoreUnique(p, o));
    assert events + none == events && none + [StoreUnique(p, o)] == [StoreUnique(p, o)];
    RunRefines(events);
    StoreHolds(Run(events), D.After(Meanings(events)), p, o);
  }

  // The main result. From a store by unique pointer on, whatever else happens up to the last take,
  // as long as only unique pointers are asked for, no target and not the publisher is withdrawn, and
  // the message is not displaced: k targets cost exactly k - 1 copies, one for each take but the
  // last, and the last take hands over the object that was stored.
  lemma {:induction false} StoreCostsOneCopyFewer<T>(events: seq<Event<T>>, p: Id, o: Obj, more: seq<Event<T>>)
    requires var w := Run(events); o in w.unique && p in w.impl.publishers && w.impl.publishers[p].publisher.Some?
    requires Ids(Run(events).impl.idsByTopic, Run(events).impl.publishers[p].publisher.value) != {}
    requires WhileAwaited(events + [StoreUnique(p, o)], more, p, Run(events).impl.publishers[p].sequenceNumber)
    ensures var w, q := Run(events), Run(events).impl.publishers[p].sequenceNumber;
      var start := events + [StoreUnique(p, o)];
      var targets := Ids(w.impl.idsByTopic, w.impl.publishers[p].publisher.value);
      var bill, end := Billed(start, more, p, q), Run(start + more);
      && bill.takes <= |targets|
      && (bill.takes < |targets| ==> bill.copies == bill.takes && Stored(end, p, q, o))
      && (bill.takes == |targets| ==> bill.copies == |targets| - 1 && bill.last == Some(o) && o in end.unique)
  {
    StoreBegins(events, p, o);
    AlwaysSettled(events + [StoreUnique(p, o)], more, p, Run(events).impl.publishers[p].sequenceNumber, o);
  }
}
