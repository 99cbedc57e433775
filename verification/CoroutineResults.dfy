/**
 * What the coroutine bookkeeping guarantees, and exactly when return_value goes astray.
 */
module CoroutineResults {

  import opened Wrappers
  import opened CoroutineTables
  import opened CoroutineRun

  // A coroutine the executor has on its books: registered, and its flag not lowered by return_value.
  predicate Suspended(w: World, c: nat) {
    c in w.lives && w.lives[c].promise.vecId >= 0 && !w.lives[c].finished
  }

  // In every run: the front lookup is in bounds; the queued ids are the last indices of the flags,
  // those before are down; a flag is up exactly for a suspended coroutine; and no subscription is
  // listed twice.
  lemma RegistryIsExact(events: seq<Event>)
    ensures var w := Run(events);
      && QueueIsTail(w.tables)
      && Distinct(w.tables.suspended)
      && (w.tables.queue != [] ==> w.tables.queue[0].1 < |w.tables.ready|)
      && (forall i :: 0 <= i < |w.tables.ready| ==>
            (w.tables.ready[i] <==> exists c :: Suspended(w, c) && w.lives[c].promise.vecId == i))
  {
    var w := RunKeeps(events);
    forall i | 0 <= i < |w.tables.ready|
      ensures w.tables.ready[i] <==> exists c :: Suspended(w, c) && w.lives[c].promise.vecId == i
    {
      var c := w.owners[i];
      if w.tables.ready[i] { assert Suspended(w, c); }
      forall x | Suspended(w, x) && w.lives[x].promise.vecId == i ensures w.tables.ready[i] {
        assert LifeMakesSense(w, x);
      }
    }
  }

  // No suspended coroutine loses its entry: its thread and flag are in the queue, once.
  lemma SuspendedIsQueued(events: seq<Event>, c: nat)
    requires Suspended(Run(events), c)
    ensures var w := Run(events);
      var k := w.lives[c].promise.vecId - (|w.tables.ready| - |w.tables.queue|);
      && 0 <= k < |w.tables.queue|
      && w.tables.queue[k] == (w.lives[c].tid, w.lives[c].promise.vecId)
      && forall j :: 0 <= j < |w.tables.queue| && j != k ==> w.tables.queue[j].1 != w.lives[c].promise.vecId
  {
    var w := RunKeeps(events);
    assert LifeMakesSense(w, c);
  }

  // The thread that owns the front of the queue never blocks, and an empty queue means that no
  // coroutine is suspended.
  lemma FrontOwnerNeverBlocks(events: seq<Event>, tid: Thread)
    ensures var t := Run(events).tables;
      && (OwnsFront(t, tid) ==> t.queue[0].1 < |t.ready| && IdleAction(t, tid) != Block)
      && (t.queue == [] ==> forall c :: !Suspended(Run(events), c))
  {
    var w := RunKeeps(events);
    forall c | Suspended(w, c) ensures w.tables.queue != [] {
      SuspendedIsQueued(events, c);
    }
  }

  // With one spinning thread the executor never blocks while a coroutine is suspended.
  lemma OneThreadNeverBlocksOnSuspended(events: seq<Event>, tid: Thread, c: nat)
    requires forall e :: e in events && e.Dispatch? ==> e.tid == tid
    requires Suspended(Run(events), c)
    ensures var t := Run(events).tables;
      OwnsFront(t, tid) && t.queue[0].1 < |t.ready| && IdleAction(t, tid) != Block
  {
    var w := RunKeeps(events);
    SuspendedIsQueued(events, c);
    OneThread(events, tid);
  }

  lemma {:induction false} OneThread(events: seq<Event>, tid: Thread)
    requires forall e :: e in events && e.Dispatch? ==> e.tid == tid
    ensures forall c :: c in Run(events).lives ==> Run(events).lives[c].tid == tid
  {
    if events != [] { OneThread(events[..|events| - 1], tid); }
  }

  // n idle calls in a row.
  function IdleRun(t: Tables, tid: Thread, n: nat): Tables
    requires QueueIsTail(t)
    decreases n
  {
    if n == 0 then t
    else
      IdleRun(AfterIdle(t, tid), tid, n - 1)
  }

  // Once every coroutine has returned and no other registers, a single thread makes exactly as many
  // idle calls as there are entries, each retiring one, before it may block.
  lemma {:induction false} IdleCallsDrain(t: Tables, tid: Thread, n: nat)
    requires QueueIsTail(t)
    requires forall i :: 0 <= i < |t.ready| ==> !t.ready[i]
    requires forall k :: 0 <= k < |t.queue| ==> t.queue[k].0 == tid
    requires n <= |t.queue|
    ensures IdleRun(t, tid, n) == t.(queue := t.queue[n..])
    ensures n < |t.queue| ==> IdleAction(IdleRun(t, tid, n), tid) == Retire
    ensures n == |t.queue| ==> IdleAction(IdleRun(t, tid, n), tid) == Block
    decreases n
  {
    if n > 0 {
      IdleCallsDrain(AfterIdle(t, tid), tid, n - 1);
    }
  }

  // --- all orders of init and return ---

  datatype Part = Look | Init1 | Init2 | Init3 | Return1 | Return2 | Return3

  datatype Play = Play(tables: Tables, promise: Promise, seen: bool, astray: bool)

  function PlayPart(s: Play, part: Part, sub: Sub, tid: Thread): Play {
    match part
    case Look => s.(seen := s.promise.returned)
    case Init1 => var (t, p) := Register(s.tables, s.promise, s.seen, tid); s.(tables := t, promise := p)
    case Init2 => s.(promise := StoreSub(s.promise, sub))
    case Init3 => s.(tables := EraseIfReturned(s.tables, s.promise))
    case Return1 => s.(promise := MarkReturned(s.promise))
    case Return2 => s.(tables := Unlist(s.tables, s.promise))
    case Return3 =>
      if InBounds(s.tables, s.promise) then s.(tables := LowerFlag(s.tables, s.promise)) else s.(astray := true)
  }

  function PlayAll(s: Play, parts: seq<Part>, sub: Sub, tid: Thread): Play {
    if parts == [] then s
    else PlayPart(PlayAll(s, parts[..|parts| - 1], sub, tid), parts[|parts| - 1], sub, tid)
  }

  // The parts of each come once and in order. executer_ptr_lock is held from Look to Init1, and from
  // Return2 to Return3.
  predicate CanFollow(parts: seq<Part>, part: Part) {
    && part !in parts
    && match part
       case Look => Return2 in parts ==> Return3 in parts
       case Init1 => Look in parts
       case Init2 => Init1 in parts
       case Init3 => Init2 in parts
       case Return1 => true
       case Return2 => Return1 in parts && (Look in parts ==> Init1 in parts)
       case Return3 => Return2 in parts
  }

  predicate IsOrder(parts: seq<Part>) {
    parts != [] ==> IsOrder(parts[..|parts| - 1]) && CanFollow(parts[..|parts| - 1], parts[|parts| - 1])
  }

  predicate Before(parts: seq<Part>, a: Part, b: Part) {
    parts != [] &&
    (Before(parts[..|parts| - 1], a, b) || (parts[|parts| - 1] == b && a in parts[..|parts| - 1]))
  }

  lemma {:induction false} BeforeTells(parts: seq<Part>, a: Part, b: Part)
    requires IsOrder(parts) && a != b
    ensures Before(parts, a, b) ==> a in parts && b in parts
    ensures a in parts && b in parts ==> (Before(parts, a, b) <==> !Before(parts, b, a))
  {
    if parts != [] {
      var before, last := parts[..|parts| - 1], parts[|parts| - 1];
      assert parts == before + [last];
      BeforeTells(before, a, b);
      BeforeTells(before, b, a);
    }
  }

  lemma {:induction false} PartsBefore(parts: seq<Part>)
    requires IsOrder(parts)
    ensures (Init1 in parts ==> Look in parts) && (Init2 in parts ==> Init1 in parts) && (Init3 in parts ==> Init2 in parts)
    ensures Return2 in parts && Return3 !in parts && Look in parts ==> Init1 in parts
    ensures Look in parts && Init1 !in parts && !Before(parts, Return1, Look) ==> Return2 !in parts
    ensures (Return2 in parts ==> Return1 in parts) && (Return3 in parts ==> Return2 in parts)
    ensures Init3 in parts && Return2 in parts ==> Gone(parts)
    ensures Before(parts, Return3, Look) ==> Before(parts, Return1, Look)
  {
    if parts != [] {
      var before, last := parts[..|parts| - 1], parts[|parts| - 1];
      assert parts == before + [last];
      PartsBefore(before);
    }
  }

  // A flag was registered: init looked at has_returned before it was set.
  predicate Flagged(parts: seq<Part>) {
    Init1 in parts && !Before(parts, Return1, Look)
  }

  // The subscription has been erased: by the end of init, or by return_value after it was stored.
  predicate Gone(parts: seq<Part>) {
    Before(parts, Return1, Init3) || Before(parts, Init2, Return2)
  }

  // return_value has set has_returned, but not yet taken its lock, when init looks.
  predicate FlagSeenEarly(parts: seq<Part>) {
    Before(parts, Return1, Look) && Before(parts, Look, Return3)
  }

  // How far a play has come: what the promise and the flags hold, and whether the subscription is gone.
  ghost predicate Played(s: Play, t: Tables, parts: seq<Part>, sub: Sub, tid: Thread) {
    && s.promise == Promise(Return1 in parts, Init1 in parts, if Flagged(parts) then |t.ready| else -1,
                            if Init2 in parts then Some(sub) else None)
    && s.tables.ready == (if Flagged(parts) then t.ready + [Return3 !in parts] else t.ready)
    && s.tables.queue == (if Flagged(parts) then t.queue + [(tid, |t.ready|)] else t.queue)
    && s.tables.suspended == (if Gone(parts) then Without(t.suspended, sub) else t.suspended)
    && s.seen == Before(parts, Return1, Look)
    && (s.astray <==> FlagSeenEarly(parts))
  }

  lemma {:induction false} EveryOrderPlays(t: Tables, parts: seq<Part>, sub: Sub, tid: Thread)
    requires Distinct(t.suspended) && IsOrder(parts)
    ensures Played(PlayAll(Play(t, NewPromise(), false, false), parts, sub, tid), t, parts, sub, tid)
  {
    if parts != [] {
      var before, part := parts[..|parts| - 1], parts[|parts| - 1];
      EveryOrderPlays(t, before, sub, tid);
      PartPlays(PlayAll(Play(t, NewPromise(), false, false), before, sub, tid), t, before, part, sub, tid);
      assert parts == before + [part];
    }
  }

  lemma PartPlays(s: Play, t: Tables, before: seq<Part>, part: Part, sub: Sub, tid: Thread)
    requires Distinct(t.suspended) && IsOrder(before) && CanFollow(before, part)
    requires Played(s, t, before, sub, tid)
    ensures Played(PlayPart(s, part, sub, tid), t, before + [part], sub, tid)
  {
    PartsBefore(before);
    EraseIsWithout(t.suspended, sub);
    EraseIsWithout(Without(t.suspended, sub), sub);
    WithoutNothing(Without(t.suspended, sub), sub);
    if part.Look? || part.Init1? {
      LookPlays(s, t, before, part, sub, tid);
    } else if part.Init2? || part.Init3? {
      InitPlays(s, t, before, part, sub, tid);
    } else {
      ReturnPlays(s, t, before, part, sub, tid);
    }
  }

  // An erasure takes the subscription away, and a second one changes nothing.
  predicate ErasesOnce(list: seq<Sub>, sub: Sub) {
    Erase(list, sub) == Without(list, sub) && Erase(Without(list, sub), sub) == Without(list, sub)
  }

  lemma LookPlays(s: Play, t: Tables, before: seq<Part>, part: Part, sub: Sub, tid: Thread)
    requires IsOrder(before) && CanFollow(before, part) && (part.Look? || part.Init1?)
    requires Played(s, t, before, sub, tid)
    ensures Played(PlayPart(s, part, sub, tid), t, before + [part], sub, tid)
  {
    var parts := before + [part];
    assert parts[..|parts| - 1] == before;
    PartsBefore(before);
    BeforeTells(before, Return1, Look);
    BeforeTells(before, Look, Return3);
  }

  lemma InitPlays(s: Play, t: Tables, before: seq<Part>, part: Part, sub: Sub, tid: Thread)
    requires IsOrder(before) && CanFollow(before, part) && (part.Init2? || part.Init3?)
    requires Played(s, t, before, sub, tid) && ErasesOnce(t.suspended, sub)
    ensures Played(PlayPart(s, part, sub, tid), t, before + [part], sub, tid)
  {
    var parts := before + [part];
    assert parts[..|parts| - 1] == before;
    PartsBefore(before);
  }

  lemma ReturnPlays(s: Play, t: Tables, before: seq<Part>, part: Part, sub: Sub, tid: Thread)
    requires IsOrder(before) && CanFollow(before, part) && (part.Return1? || part.Return2? || part.Return3?)
    requires Played(s, t, before, sub, tid) && ErasesOnce(t.suspended, sub)
    ensures Played(PlayPart(s, part, sub, tid), t, before + [part], sub, tid)
  {
    var parts := before + [part];
    assert parts[..|parts| - 1] == before;
    PartsBefore(before);
    BeforeTells(before, Return1, Look);
    BeforeTells(before, Look, Return3);
  }

  // Whatever the order, once both are over the subscription is off the list, the other entries keep
  // their order, and no flag of this coroutine is left up; but the write of the flag goes astray
  // exactly when init saw has_returned set early.
  lemma EveryOrderCleansUp(t: Tables, parts: seq<Part>, sub: Sub, tid: Thread)
    requires Distinct(t.suspended) && IsOrder(parts) && Init3 in parts && Return3 in parts
    ensures var end := PlayAll(Play(t, NewPromise(), false, false), parts, sub, tid);
      && (end.astray <==> FlagSeenEarly(parts))
      && end.tables.suspended == Without(t.suspended, sub)
      && (if Before(parts, Look, Return1)
          then end.tables.ready == t.ready + [false] && end.tables.queue == t.queue + [(tid, |t.ready|)]
          else end.tables.ready == t.ready && end.tables.queue == t.queue)
  {
    EveryOrderPlays(t, parts, sub, tid);
    PartsBefore(parts);
    BeforeTells(parts, Look, Return1);
  }

  // --- going astray, in any run ---

  // Event e has happened in the run.
  predicate Happened(events: seq<Event>, e: Event) {
    events != [] &&
    (Happened(events[..|events| - 1], e) ||
     (events[|events| - 1] == e && Enabled(Run(events[..|events| - 1]), e)))
  }

  // Event f has happened, and e before it.
  predicate HappenedInOrder(events: seq<Event>, e: Event, f: Event) {
    events != [] &&
    (HappenedInOrder(events[..|events| - 1], e, f) ||
     (events[|events| - 1] == f && Enabled(Run(events[..|events| - 1]), f) && Happened(events[..|events| - 1], e)))
  }

  // Event g has happened, f before it, and e before that.
  predicate AllInOrder(events: seq<Event>, e: Event, f: Event, g: Event) {
    events != [] &&
    (AllInOrder(events[..|events| - 1], e, f, g) ||
     (events[|events| - 1] == g && Enabled(Run(events[..|events| - 1]), g) &&
      HappenedInOrder(events[..|events| - 1], e, f)))
  }

  // What a coroutine's life says about its history.
  ghost predicate TellsHistory(w: World, events: seq<Event>, c: nat) {
    var returned, look, flag := SetReturned(c), InitLook(c), ReturnFlag(c);
    if c in w.lives then
      && (w.lives[c].promise.returned <==> Happened(events, returned))
      && (w.lives[c].looked.Some? <==> Happened(events, look))
      && (w.lives[c].looked == Some(true) <==> HappenedInOrder(events, returned, look))
      && (w.lives[c].astray <==> AllInOrder(events, returned, look, flag))
    else
      && !Happened(events, returned) && !Happened(events, look)
      && !HappenedInOrder(events, returned, look) && !AllInOrder(events, returned, look, flag)
  }

  lemma {:induction false} LivesTellHistory(events: seq<Event>, c: nat)
    ensures TellsHistory(Run(events), events, c)
  {
    if events != [] {
      var before, e := events[..|events| - 1], events[|events| - 1];
      LivesTellHistory(before, c);
      var w := RunKeeps(before);
      StepTellsHistory(w, before, e, events, c);
    }
  }

  lemma StepTellsHistory(w: World, before: seq<Event>, e: Event, events: seq<Event>, c: nat)
    requires events == before + [e] && w == Run(before)
    requires Inv(w) && TellsHistory(w, before, c)
    ensures TellsHistory(Step(w, e), events, c)
  {
    assert events[..|events| - 1] == before;
    if c in w.lives { assert LifeMakesSense(w, c); }
    if !Enabled(w, e) || e !in {SetReturned(c), InitLook(c), ReturnFlag(c)} { LifeIsTheSame(w, e, c); }
  }

  lemma LifeIsTheSame(w: World, e: Event, c: nat)
    requires !Enabled(w, e) || e !in {SetReturned(c), InitLook(c), ReturnFlag(c)}
    ensures c in w.lives ==>
      && c in Step(w, e).lives
      && Step(w, e).lives[c].promise.returned == w.lives[c].promise.returned
      && Step(w, e).lives[c].looked == w.lives[c].looked && Step(w, e).lives[c].astray == w.lives[c].astray
  {
  }

  // return_value of c writes a flag that is not there exactly when it had marked c returned before
  // the locked part of init looked, and reached its own flag after.
  lemma AstrayExactly(events: seq<Event>, c: nat)
    requires c in Run(events).lives
    ensures Run(events).lives[c].astray <==>
            AllInOrder(events, SetReturned(c), InitLook(c), ReturnFlag(c))
  {
    LivesTellHistory(events, c);
  }
}
