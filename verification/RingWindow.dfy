/**
 * The ring keeps a window: a key is found exactly while it is among the last pushed and not popped.
 */
module RingWindow {

  import opened Wrappers
  import opened RingSpec

  // The slot written `age` pushes ago, counted backwards from the head.
  function Slot(head: nat, age: nat, size: nat): (s: nat)
    requires head < size && 1 <= age <= size
    ensures s < size
  {
    if age <= head then head - age else head + size - age
  }

  // The age of the slot `i`.
  function Age(head: nat, i: nat, size: nat): (age: nat)
    requires head < size && i < size
    ensures 1 <= age <= size && Slot(head, age, size) == i
  {
    if i < head then head - i else head + size - i
  }

  ghost predicate Distinct(keys: seq<nat>) {
    forall i, j :: 0 <= i < j < |keys| ==> keys[i] != keys[j]
  }

  // The keys of the last `size` pushes.
  function Last(pushed: seq<nat>, size: nat): seq<nat> {
    if |pushed| <= size then pushed else pushed[|pushed| - size..]
  }

  // The ring `r` after the keys `pushed` went in, in that order, and the keys `popped` came out.
  ghost predicate Window(r: Ring, pushed: seq<nat>, popped: set<nat>) {
    var size, n := |r.elements|, |pushed|;
    && r.Shaped()
    && (n < size ==> r.head == n)
    && (forall i :: n <= i < size ==> !r.elements[i].inUse)
    && (forall age :: 1 <= age <= size && age <= n ==> Remembers(r, pushed, popped, age))
  }

  ghost predicate Remembers(r: Ring, pushed: seq<nat>, popped: set<nat>, age: nat)
    requires r.Shaped() && 1 <= age <= |r.elements| && age <= |pushed|
  {
    var e, key := r.elements[Slot(r.head, age, |r.elements|)], pushed[|pushed| - age];
    e.key == key && (e.inUse <==> key !in popped)
  }

  lemma Lookup(r: Ring, pushed: seq<nat>, popped: set<nat>, key: nat)
    requires Window(r, pushed, popped) && Distinct(pushed)
    ensures Found(r, key) <==> key in Last(pushed, |r.elements|) && key !in popped
    ensures Found(r, key) ==>
              var age := Age(r.head, IndexOf(r.elements, key), |r.elements|);
              age <= |pushed| && pushed[|pushed| - age] == key
  {
    var size, n, k := |r.elements|, |pushed|, IndexOf(r.elements, key);
    var last := Last(pushed, size);
    if k < size {
      var age := Age(r.head, k, size);
      assert age <= n;
      assert Remembers(r, pushed, popped, age);
      assert last[|last| - age] == key;
    }
    if key in last && key !in popped {
      var j :| 0 <= j < |last| && last[j] == key;
      var age := |last| - j;
      assert Remembers(r, pushed, popped, age);
      assert pushed[n - age] == key;
      assert Matches(r.elements[Slot(r.head, age, size)], key);
    }
  }

  // --- one step ---

  lemma NextIsModulo(n: nat, size: nat)
    requires size > 0
    ensures (n + 1) % size == Next(n % size, size)
  {
    var q, h := n / size, n % size;
    assert n == q * size + h;
    if h + 1 == size {
      assert n + 1 == (q + 1) * size;
      ModuloUnique(n + 1, q + 1, 0, size);
    } else {
      ModuloUnique(n + 1, q, h + 1, size);
    }
  }

  lemma ModuloUnique(n: nat, q: nat, h: nat, size: nat)
    requires 0 <= h < size && n == q * size + h
    ensures n % size == h
  {
    var d: int := n / size - q;
    assert (n / size) * size + n % size == n;
    assert d * size == h - n % size;
    assert d >= 1 ==> d * size >= size;
    assert d <= -1 ==> d * size <= -(size as int);
  }

  lemma PushKeepsWindow(r: Ring, pushed: seq<nat>, popped: set<nat>, key: nat,
                        unique: Option<Obj>, shared: Option<Obj>)
    requires Window(r, pushed, popped) && key !in popped
    ensures Window(Push(r, key, unique, shared), pushed + [key], popped)
    ensures Displaces(r) <==> |pushed| >= |r.elements| && pushed[|pushed| - |r.elements|] !in popped
  {
    var size, n := |r.elements|, |pushed|;
    var r', pushed' := Push(r, key, unique, shared), pushed + [key];
    forall age | 1 <= age <= size && age <= n + 1
      ensures Remembers(r', pushed', popped, age)
    {
      if age > 1 {
        assert Remembers(r, pushed, popped, age - 1);
        assert Slot(r'.head, age, size) == Slot(r.head, age - 1, size) != r.head;
      }
    }
    if n >= size {
      assert Remembers(r, pushed, popped, size);
    }
  }

  // What a pop does to the window: the slot it finds, and no other, is freed.
  lemma FreeKeepsWindow(r: Ring, pushed: seq<nat>, popped: set<nat>, key: nat, r': Ring)
    requires Window(r, pushed, popped) && Distinct(pushed)
    requires Found(r, key)
    requires r'.head == r.head && |r'.elements| == |r.elements|
    requires var k := IndexOf(r.elements, key);
             && r'.elements[k].key == key && !r'.elements[k].inUse
             && forall i :: 0 <= i < |r.elements| && i != k ==> r'.elements[i] == r.elements[i]
    ensures Window(r', pushed, popped + {key})
  {
    Lookup(r, pushed, popped, key);
    var size, n, k := |r.elements|, |pushed|, IndexOf(r.elements, key);
    var mine := Age(r.head, k, size);
    forall age | 1 <= age <= size && age <= n
      ensures Remembers(r', pushed, popped + {key}, age)
    {
      assert Remembers(r, pushed, popped, age);
      assert age != mine ==> pushed[n - age] != key;
    }
  }

  // Adding a key that is not in the window to the popped ones says nothing new.
  lemma IdlePopKeepsWindow(r: Ring, pushed: seq<nat>, popped: set<nat>, key: nat)
    requires Window(r, pushed, popped) && Distinct(pushed)
    requires !Found(r, key)
    ensures Window(r, pushed, popped + {key})
  {
    Lookup(r, pushed, popped, key);
    var size, n := |r.elements|, |pushed|;
    forall age | 1 <= age <= size && age <= n
      ensures Remembers(r, pushed, popped + {key}, age)
    {
      assert Remembers(r, pushed, popped, age);
      assert Last(pushed, size)[|Last(pushed, size)| - age] == pushed[n - age];
    }
  }

  // --- whole runs ---

  // A push of None is one of a null pointer.
  datatype Op<T> =
    | PushUnique(key: nat, message: Option<T>)
    | PushShared(key: nat, message: Option<T>)
    | GetUnique(key: nat)
    | GetShared(key: nat)
    | PopUnique(key: nat)
    | PopShared(key: nat)

  datatype State<T> = State(ring: Ring, heap: seq<T>)

  // What a push brings: a new object for its message, if it has one.
  function Brought<T>(heap: seq<T>, message: Option<T>): (b: (seq<T>, Option<Obj>))
    ensures heap <= b.0 && (b.1.Some? ==> b.1.value < |b.0|)
  {
    if message.Some? then (heap + [message.value], Some(|heap|)) else (heap, None)
  }

  function Apply<T>(s: State<T>, op: Op<T>): (s': State<T>)
    requires s.ring.Shaped() && s.ring.Within(|s.heap|)
    ensures s'.ring.Shaped() && s'.ring.Within(|s'.heap|) && |s'.ring.elements| == |s.ring.elements|
  {
    match op
    case PushUnique(key, m) => var b := Brought(s.heap, m); State(Push(s.ring, key, b.1, None), b.0)
    case PushShared(key, m) => var b := Brought(s.heap, m); State(Push(s.ring, key, None, b.1), b.0)
    case GetUnique(key) => var o := RingSpec.GetUnique(s.ring, s.heap, key); State(o.ring, o.heap)
    case GetShared(key) => var o := RingSpec.GetShared(s.ring, s.heap, key); State(o.ring, o.heap)
    case PopUnique(key) => var o := RingSpec.PopUnique(s.ring, s.heap, key); State(o.ring, o.heap)
    case PopShared(key) => var o := RingSpec.PopShared(s.ring, s.heap, key, None); State(o.ring, o.heap)
  }

  predicate IsPush<T>(op: Op<T>) {
    op.PushUnique? || op.PushShared?
  }

  predicate IsPop<T>(op: Op<T>) {
    op.PopUnique? || op.PopShared?
  }

  // The keys pushed, in order: read off the operations alone.
  function Pushed<T>(ops: seq<Op<T>>): seq<nat> {
    if ops == [] then [] else
    var op, before := ops[|ops| - 1], Pushed(ops[..|ops| - 1]);
    if IsPush(op) then before + [op.key] else before
  }

  // The keys pushed with a null pointer.
  function Nulls<T>(ops: seq<Op<T>>): set<nat> {
    if ops == [] then {} else
    var op, before := ops[|ops| - 1], Nulls(ops[..|ops| - 1]);
    if IsPush(op) && op.message.None? then before + {op.key} else before
  }

  // The keys popped after they were pushed with a message: read off the operations alone.
  function Popped<T>(ops: seq<Op<T>>): set<nat> {
    if ops == [] then {} else
    var op, before := ops[|ops| - 1], ops[..|ops| - 1];
    Popped(before) + if IsPop(op) && op.key in Pushed(before) && op.key !in Nulls(before) then {op.key} else {}
  }

  // Every in-use slot holds one object, by exactly one kind of pointer, unless its key is one of
  // `nulls`; such a slot, and a free one, holds none.
  ghost predicate TidyBut(r: Ring, nulls: set<nat>) {
    forall i :: 0 <= i < |r.elements| ==>
      var e := r.elements[i];
      if e.inUse && e.key !in nulls then e.HoldsOne() else e.unique.None? && e.shared.None?
  }

  ghost predicate Tidy(r: Ring) {
    TidyBut(r, {})
  }

  ghost predicate Good<T>(s: State<T>, size: nat, ops: seq<Op<T>>) {
    && |s.ring.elements| == size
    && s.ring.Within(|s.heap|)
    && TidyBut(s.ring, Nulls(ops))
    && Window(s.ring, Pushed(ops), Popped(ops))
  }

  function Run<T>(size: nat, ops: seq<Op<T>>): (s: State<T>)
    requires size > 0
    ensures s.ring.Shaped() && s.ring.Within(|s.heap|) && |s.ring.elements| == size
  {
    if ops == [] then State(Empty(size), []) else
    Apply(Run(size, ops[..|ops| - 1]), ops[|ops| - 1])
  }

  lemma {:induction false} PoppedWerePushed<T>(ops: seq<Op<T>>)
    requires Distinct(Pushed(ops))
    ensures forall k :: k in Popped(ops) ==> k in Pushed(ops) && k !in Nulls(ops)
    ensures forall k :: k in Nulls(ops) ==> k in Pushed(ops)
  {
    if ops != [] {
      DistinctPrefix(ops);
      PoppedWerePushed(ops[..|ops| - 1]);
    }
  }

  lemma {:induction false} DistinctPrefix<T>(ops: seq<Op<T>>)
    requires ops != [] && Distinct(Pushed(ops))
    ensures Distinct(Pushed(ops[..|ops| - 1]))
    ensures var op := ops[|ops| - 1]; IsPush(op) ==> op.key !in Pushed(ops[..|ops| - 1])
  {
    var op, before := ops[|ops| - 1], Pushed(ops[..|ops| - 1]);
    if IsPush(op) {
      assert Pushed(ops)[|before|] == op.key;
      forall i | 0 <= i < |before| ensures before[i] == Pushed(ops)[i] {}
    }
  }

  lemma {:induction false} RunIsGood<T>(size: nat, ops: seq<Op<T>>)
    requires size > 0 && Distinct(Pushed(ops))
    ensures Good(Run(size, ops), size, ops)
  {
    if ops != [] {
      var op, before := ops[|ops| - 1], ops[..|ops| - 1];
      DistinctPrefix(ops);
      RunIsGood(size, before);
      PoppedWerePushed(before);
      StepIsGood(Run(size, before), size, before, op, ops);
    }
  }

  lemma StepIsGood<T>(s: State<T>, size: nat, before: seq<Op<T>>, op: Op<T>, ops: seq<Op<T>>)
    requires size > 0 && ops == before + [op]
    requires Good(s, size, before) && Distinct(Pushed(before))
    requires (forall k :: k in Popped(before) ==> k in Pushed(before)) && (forall k :: k in Nulls(before) ==> k in Pushed(before))
    requires IsPush(op) ==> op.key !in Pushed(before)
    ensures Good(Apply(s, op), size, ops)
  {
    assert ops[..|ops| - 1] == before;
    assert Popped(before) + {} == Popped(before);
    if IsPush(op) {
      PushIsTidy(s, before, op);
      var written := Apply(s, op).ring.elements[s.ring.head];
      PushKeepsWindow(s.ring, Pushed(before), Popped(before), op.key, written.unique, written.shared);
    } else if IsPop(op) {
      OthersAreTidy(s, op, Nulls(before));
      PopKeepsWindow(s, Pushed(before), Popped(before), Nulls(before), op);
    } else {
      OthersAreTidy(s, op, Nulls(before));
      GetKeepsWindow(s, Pushed(before), Popped(before), op);
    }
  }

  // No slot in use has a key that was not pushed.
  lemma InUseWasPushed(r: Ring, pushed: seq<nat>, popped: set<nat>, i: nat)
    requires Window(r, pushed, popped) && i < |r.elements| && r.elements[i].inUse
    ensures r.elements[i].key in pushed
  {
    var age := Age(r.head, i, |r.elements|);
    if age <= |pushed| { assert Remembers(r, pushed, popped, age); }
  }

  lemma PushIsTidy<T>(s: State<T>, before: seq<Op<T>>, op: Op<T>)
    requires s.ring.Shaped() && s.ring.Within(|s.heap|) && IsPush(op) && op.key !in Pushed(before)
    requires TidyBut(s.ring, Nulls(before)) && Window(s.ring, Pushed(before), Popped(before))
    requires forall k :: k in Nulls(before) ==> k in Pushed(before)
    ensures TidyBut(Apply(s, op).ring, if op.message.None? then Nulls(before) + {op.key} else Nulls(before))
  {
    forall i | 0 <= i < |s.ring.elements| && s.ring.elements[i].inUse ensures s.ring.elements[i].key != op.key {
      InUseWasPushed(s.ring, Pushed(before), Popped(before), i);
    }
  }

  lemma OthersAreTidy<T>(s: State<T>, op: Op<T>, nulls: set<nat>)
    requires s.ring.Shaped() && s.ring.Within(|s.heap|) && !IsPush(op) && TidyBut(s.ring, nulls)
    ensures TidyBut(Apply(s, op).ring, nulls)
  {
  }

  // A pop frees the slot it finds, unless that was given a null pointer.
  lemma PopKeepsWindow<T>(s: State<T>, pushed: seq<nat>, popped: set<nat>, nulls: set<nat>, op: Op<T>)
    requires s.ring.Within(|s.heap|) && TidyBut(s.ring, nulls) && IsPop(op)
    requires Window(s.ring, pushed, popped) && Distinct(pushed)
    ensures op.key !in nulls ==> Window(Apply(s, op).ring, pushed, popped + {op.key})
    ensures op.key in nulls || op.key !in pushed ==> Window(Apply(s, op).ring, pushed, popped)
  {
    Lookup(s.ring, pushed, popped, op.key);
    if !Found(s.ring, op.key) {
      IdlePopKeepsWindow(s.ring, pushed, popped, op.key);
    } else if op.key !in nulls {
      FreeKeepsWindow(s.ring, pushed, popped, op.key, Apply(s, op).ring);
    }
  }

  lemma GetKeepsWindow<T>(s: State<T>, pushed: seq<nat>, popped: set<nat>, op: Op<T>)
    requires s.ring.Within(|s.heap|) && !IsPush(op) && !IsPop(op)
    requires Window(s.ring, pushed, popped)
    ensures Window(Apply(s, op).ring, pushed, popped)
  {
    var r' := Apply(s, op).ring;
    forall age | 1 <= age <= |r'.elements| && age <= |pushed|
      ensures Remembers(r', pushed, popped, age)
    {
      assert Remembers(s.ring, pushed, popped, age);
    }
  }

  lemma {:induction false} HeadCountsPushes<T>(size: nat, ops: seq<Op<T>>)
    requires size > 0
    ensures Run(size, ops).ring.head == |Pushed(ops)| % size
  {
    if ops == [] {
      ModuloUnique(0, 0, 0, size);
    } else {
      HeadCountsPushes(size, ops[..|ops| - 1]);
      NextIsModulo(|Pushed(ops[..|ops| - 1])|, size);
    }
  }

  // The main result: the scan finds exactly the un-popped keys among the last `size` pushes, the
  // head counts the pushes, and a push displaces something exactly when it drops such a key.
  lemma {:induction false} RingKeepsLastPushes<T>(size: nat, ops: seq<Op<T>>, key: nat)
    requires size > 0 && Distinct(Pushed(ops))
    ensures var s, pushed, popped := Run(size, ops), Pushed(ops), Popped(ops);
            && s.ring.head == |pushed| % size
            && (Found(s.ring, key) <==> key in Last(pushed, size) && key !in popped)
            && (Displaces(s.ring) <==>
                  |pushed| >= size && pushed[|pushed| - size] !in popped)
            && TidyBut(s.ring, Nulls(ops))
  {
    RunIsGood(size, ops);
    HeadCountsPushes(size, ops);
    var s := Run(size, ops);
    Lookup(s.ring, Pushed(ops), Popped(ops), key);
    if |Pushed(ops)| >= size {
      assert Remembers(s.ring, Pushed(ops), Popped(ops), size);
    }
  }

  // After any run, a get or a pop of a key throws if and only if the key is one of the last `size`
  // pushed and was pushed with a null pointer: such a slot is never freed, only displaced.
  lemma {:induction false} FailsExactlyOnNull<T>(size: nat, ops: seq<Op<T>>, key: nat)
    requires size > 0 && Distinct(Pushed(ops))
    ensures var s := Run(size, ops);
      var empty := key in Last(Pushed(ops), size) && key in Nulls(ops);
      && (RingSpec.GetUnique(s.ring, s.heap, key).value.Err? <==> empty)
      && (RingSpec.GetShared(s.ring, s.heap, key).value.Err? <==> empty)
      && (RingSpec.PopUnique(s.ring, s.heap, key).value.Err? <==> empty)
      && (RingSpec.PopShared(s.ring, s.heap, key, None).value.Err? <==> empty)
  {
    RunIsGood(size, ops);
    PoppedWerePushed(ops);
    Lookup(Run(size, ops).ring, Pushed(ops), Popped(ops), key);
  }
}
