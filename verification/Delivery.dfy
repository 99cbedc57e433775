/**
 * The reference of delivery: lists of messages with those still to be served, no ring, no pointers.
 */
module Delivery {

  import opened Wrappers
  import opened IntraProcessSpec

  datatype Message<T> = Message(value: T, takers: set<Id>)

  // `served` names the messages whose last taker has come.
  datatype Publisher<T> = Publisher(topic: Option<Topic>, size: nat, messages: seq<Message<T>>, served: set<nat>)

  datatype State<T> = State(subscriptions: map<Id, Topic>, publishers: map<Id, Publisher<T>>, nextId: Id)

  datatype Event<T> =
    | Silent
    | Subscribe(topic: Topic)
    | Unsubscribe(id: Id)
    | Advertise(topic: Topic, size: nat)
    | Withdraw(id: Id)
    | Expire(id: Id)
    | Publish(id: Id, value: T)
    | Take(id: Id, q: nat, s: Id)

  function Subscribers(subscriptions: map<Id, Topic>, topic: Option<Topic>): set<Id> {
    set s | s in subscriptions && Some(subscriptions[s]) == topic
  }

  predicate Due<T>(a: State<T>, p: Id, q: nat, s: Id) {
    && p in a.publishers
    && q < |a.publishers[p].messages|
    && s in a.publishers[p].messages[q].takers
  }

  // Fewer than `size` messages were published after the q-th one.
  predicate InWindow<T>(p: Publisher<T>, q: nat) {
    q < |p.messages| <= q + p.size
  }

  // What a take delivers.
  function Delivered<T>(a: State<T>, p: Id, q: nat, s: Id): Option<T> {
    if Due(a, p, q, s) && InWindow(a.publishers[p], q) then Some(a.publishers[p].messages[q].value) else None
  }

  function Forget<T>(p: Publisher<T>, s: Id): Publisher<T> {
    p.(messages := seq(|p.messages|, i requires 0 <= i < |p.messages| =>
                         p.messages[i].(takers := p.messages[i].takers - {s})))
  }

  function Serve<T>(p: Publisher<T>, q: nat, s: Id): Publisher<T>
    requires q < |p.messages|
  {
    var rest := p.messages[q].takers - {s};
    p.(messages := p.messages[q := p.messages[q].(takers := rest)],
       served := if rest == {} then p.served + {q} else p.served)
  }

  function Next<T>(a: State<T>, e: Event<T>): State<T> {
    match e
    case Silent => a
    case Subscribe(topic) =>
      a.(subscriptions := a.subscriptions[a.nextId := topic], nextId := a.nextId + 1)
    case Unsubscribe(id) =>
      a.(subscriptions := a.subscriptions - {id},
         publishers := map p | p in a.publishers :: Forget(a.publishers[p], id))
    case Advertise(topic, size) =>
      a.(publishers := if size == 0 then a.publishers
                       else a.publishers[a.nextId := Publisher(Some(topic), size, [], {})],
         nextId := a.nextId + 1)
    case Withdraw(id) => a.(publishers := a.publishers - {id})
    case Expire(id) =>
      if id !in a.publishers then a else
      a.(publishers := a.publishers[id := a.publishers[id].(topic := None)])
    case Publish(id, value) =>
      if id !in a.publishers then a else
      var p := a.publishers[id];
      var m := Message(value, Subscribers(a.subscriptions, p.topic));
      a.(publishers := a.publishers[id := p.(messages := p.messages + [m])])
    case Take(id, q, s) =>
      if !Due(a, id, q, s) then a else
      a.(publishers := a.publishers[id := Serve(a.publishers[id], q, s)])
  }

  function Initial<T>(): State<T> {
    State(map[], map[], 1)
  }

  function After<T>(events: seq<Event<T>>): State<T> {
    if events == [] then Initial() else Next(After(events[..|events| - 1]), events[|events| - 1])
  }

  // --- the state after a run, read off the run ---

  // Identifiers are handed out once: those in use are below the next one.
  ghost predicate Numbered<T>(a: State<T>) {
    && (forall s :: s in a.subscriptions ==> s < a.nextId)
    && (forall p :: p in a.publishers ==> p < a.nextId)
  }

  lemma {:induction false} AlwaysNumbered<T>(events: seq<Event<T>>)
    ensures Numbered(After(events))
  {
    if events != [] { AlwaysNumbered(events[..|events| - 1]); }
  }

  // Event i of the run is the one that published message q of publisher p.
  ghost predicate Published<T>(events: seq<Event<T>>, i: nat, p: Id, q: nat, value: T) {
    && i < |events|
    && events[i] == Publish(p, value)
    && p in After(events[..i]).publishers
    && |After(events[..i]).publishers[p].messages| == q
  }

  // s was subscribed to p's topic when event i happened.
  ghost predicate Addressed<T>(events: seq<Event<T>>, i: nat, p: Id, s: Id)
    requires i < |events| && p in After(events[..i]).publishers
  {
    s in Subscribers(After(events[..i]).subscriptions, After(events[..i]).publishers[p].topic)
  }

  // Since event i, s neither unsubscribed nor asked for message q of p.
  ghost predicate Waiting<T>(events: seq<Event<T>>, i: nat, p: Id, q: nat, s: Id) {
    forall j :: i < j < |events| ==> events[j] != Unsubscribe(s) && events[j] != Take(p, q, s)
  }

  // The publications by p after event i.
  function Later<T(==)>(events: seq<Event<T>>, i: nat, p: Id): nat {
    if |events| <= i + 1 then 0 else
    var last := events[|events| - 1];
    Later(events[..|events| - 1], i, p) + if last.Publish? && last.id == p then 1 else 0
  }

  // Once its message is out, a publisher still registered is the one that published it, the list
  // has grown by the later publications, and s is a taker exactly when it was addressed and waits.
  lemma {:induction false} MessageHistory<T>(events: seq<Event<T>>, i: nat, p: Id, q: nat, s: Id, value: T)
    requires Published(events, i, p, q, value)
    requires p in After(events).publishers
    ensures var pub := After(events).publishers[p];
            && pub.size == After(events[..i]).publishers[p].size
            && |pub.messages| == q + 1 + Later(events, i, p)
            && pub.messages[q].value == value
            && (s in pub.messages[q].takers <==> Addressed(events, i, p, s) && Waiting(events, i, p, q, s))
    decreases |events|
  {
    var before, last := events[..|events| - 1], events[|events| - 1];
    AlwaysNumbered(events[..i]);
    if i < |before| {
      assert before[..i] == events[..i];
      NeverReused(before, i, p);
      MessageHistory(before, i, p, q, s, value);
      assert Waiting(events, i, p, q, s) <==>
        Waiting(before, i, p, q, s) && last != Unsubscribe(s) && last != Take(p, q, s);
    } else {
      assert before == events[..i];
    }
  }

  lemma {:induction false} NumbersGrow<T>(events: seq<Event<T>>, i: nat)
    requires i <= |events|
    ensures After(events[..i]).nextId <= After(events).nextId
    decreases |events|
  {
    if i < |events| {
      var before := events[..|events| - 1];
      assert before[..i] == events[..i];
      NumbersGrow(before, i);
    } else {
      assert events[..i] == events;
    }
  }

  // An identifier registered at event i and after one more event was registered in between.
  lemma NeverReused<T>(before: seq<Event<T>>, i: nat, p: Id)
    requires i <= |before| && p in After(before[..i]).publishers
    ensures p < After(before).nextId
  {
    AlwaysNumbered(before[..i]);
    NumbersGrow(before, i);
  }

  lemma {:induction false} MessageWasPublished<T>(events: seq<Event<T>>, p: Id, q: nat) returns (i: nat)
    requires p in After(events).publishers && q < |After(events).publishers[p].messages|
    ensures Published(events, i, p, q, After(events).publishers[p].messages[q].value)
    decreases |events|
  {
    var before, last := events[..|events| - 1], events[|events| - 1];
    if last.Publish? && last.id == p && q == |After(events).publishers[p].messages| - 1 {
      i := |before|;
      assert events[..i] == before;
    } else {
      i := MessageWasPublished(before, p, q);
      assert before[..i] == events[..i];
    }
  }

  // Event i published the value as message q of p, for s among others; s neither unsubscribed nor
  // took it since; and fewer than `size` publications followed.
  ghost predicate Deserved<T>(events: seq<Event<T>>, i: nat, p: Id, q: nat, s: Id, value: T) {
    && Published(events, i, p, q, value)
    && Addressed(events, i, p, s)
    && Waiting(events, i, p, q, s)
    && Later(events, i, p) < After(events[..i]).publishers[p].size
  }

  lemma DeliveredWasDeserved<T>(events: seq<Event<T>>, p: Id, q: nat, s: Id) returns (i: nat)
    requires Delivered(After(events), p, q, s).Some?
    ensures p in After(events).publishers
    ensures Deserved(events, i, p, q, s, Delivered(After(events), p, q, s).value)
  {
    i := MessageWasPublished(events, p, q);
    MessageHistory(events, i, p, q, s, After(events).publishers[p].messages[q].value);
  }

  lemma DeservedIsDelivered<T>(events: seq<Event<T>>, i: nat, p: Id, q: nat, s: Id, value: T)
    requires p in After(events).publishers
    requires Deserved(events, i, p, q, s, value)
    ensures Delivered(After(events), p, q, s) == Some(value)
  {
    MessageHistory(events, i, p, q, s, value);
  }

  // Some event of the run earned the value for s.
  ghost predicate Earned<T>(events: seq<Event<T>>, p: Id, q: nat, s: Id, value: T) {
    exists i: nat :: Deserved(events, i, p, q, s, value)
  }

  // The main result. A take delivers a value exactly when the publisher is still registered and
  // some event of the run earned it.
  lemma DeliversExactly<T>(events: seq<Event<T>>, p: Id, q: nat, s: Id, value: T)
    ensures Delivered(After(events), p, q, s) == Some(value) <==>
            p in After(events).publishers && Earned(events, p, q, s, value)
  {
    if Delivered(After(events), p, q, s) == Some(value) {
      var i := DeliveredWasDeserved(events, p, q, s);
    }
    if p in After(events).publishers && Earned(events, p, q, s, value) {
      var i: nat :| Deserved(events, i, p, q, s, value);
      DeservedIsDelivered(events, i, p, q, s, value);
    }
  }
}
