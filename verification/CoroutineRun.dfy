/**
 * Runs of the executor's coroutine bookkeeping, in steps of one lock or one unlocked access.
 *
 * promise_executor_init comes in four parts: under the promise's own lock, the look at has_returned
 * and the registration; then the store of the subscription; at the end another look at has_returned,
 * with the erasure that may follow it. return_value comes in three: it sets has_returned, then takes
 * the promise's lock, erases the subscription under the list's lock, and lowers the flag under that
 * of the flags and the queue.
 */
module CoroutineRun {

  import opened Wrappers
  import opened CoroutineTables

  // A dispatched coroutine: its promise, the thread that dispatched it, its subscription, and how
  // far init (looked, with what it saw, then registered, then its subscription stored, then settled)
  // and return (marked, then unlisted, then finished) have come. `astray` means return_value wrote a
  // flag that is not there.
  datatype Life = Life(
    promise: Promise, tid: Thread, sub: Sub,
    looked: Option<bool>, registered: bool, settled: bool, unlisted: bool, finished: bool, astray: bool)

  // `owners` lists, for each flag, the coroutine that registered it.
  datatype World = World(tables: Tables, lives: map<nat, Life>, owners: seq<nat>)

  datatype Event =
    | Dispatch(c: nat, sub: Sub, tid: Thread)
    // a subscription is chosen and listed, but no coroutine comes of it: there is nothing to take, or
    // cancel comes before the execution
    | ChooseInVain(sub: Sub)
    | InitLook(c: nat)
    | InitLocked(c: nat)
    | InitStore(c: nat)
    | InitErase(c: nat)
    | SetReturned(c: nat)
    | ReturnErase(c: nat)
    | ReturnFlag(c: nat)
    | IdleCall(tid: Thread)

  function Start(): World {
    World(Tables([], [], []), map[], [])
  }

  function Dispatched(sub: Sub, tid: Thread): Life {
    Life(NewPromise(), tid, sub, None, false, false, false, false, false)
  }

  // Each part of init and return runs once, in its own order. A coroutine's executer_ptr_lock keeps
  // the locked part of its init out of that of its return. A subscription that is listed is not
  // dispatched (get_next_subscription passes over it).
  predicate Enabled(w: World, e: Event) {
    match e
    case Dispatch(c, sub, _) => c !in w.lives && sub !in w.tables.suspended
    case ChooseInVain(sub) => sub !in w.tables.suspended
    case InitLook(c) => c in w.lives && w.lives[c].looked.None? && (w.lives[c].unlisted ==> w.lives[c].finished)
    case InitLocked(c) => c in w.lives && w.lives[c].looked.Some? && !w.lives[c].registered
    case InitStore(c) => c in w.lives && w.lives[c].registered && w.lives[c].promise.sub.None?
    case InitErase(c) => c in w.lives && w.lives[c].promise.sub.Some? && !w.lives[c].settled
    case SetReturned(c) => c in w.lives && !w.lives[c].promise.returned
    case ReturnErase(c) =>
      c in w.lives && w.lives[c].promise.returned && !w.lives[c].unlisted && (w.lives[c].looked.Some? ==> w.lives[c].registered)
    case ReturnFlag(c) => c in w.lives && w.lives[c].unlisted && !w.lives[c].finished
    case IdleCall(tid) => OwnsFront(w.tables, tid) ==> w.tables.queue[0].1 < |w.tables.ready|
  }

  function Registered(w: World, c: nat): World
    requires c in w.lives && w.lives[c].looked.Some?
  {
    var life := w.lives[c];
    var (t, p) := Register(w.tables, life.promise, life.looked.value, life.tid);
    World(t, w.lives[c := life.(promise := p, registered := true)],
          if life.looked.value then w.owners else w.owners + [c])
  }

  function Flagged(w: World, c: nat): World
    requires c in w.lives
  {
    var life := w.lives[c];
    if InBounds(w.tables, life.promise)
    then w.(tables := LowerFlag(w.tables, life.promise), lives := w.lives[c := life.(finished := true)])
    else w.(lives := w.lives[c := life.(finished := true, astray := true)])
  }

  function Step(w: World, e: Event): World {
    if !Enabled(w, e) then w else
    match e
    case Dispatch(c, sub, tid) =>
      w.(tables := w.tables.(suspended := w.tables.suspended + [sub]), lives := w.lives[c := Dispatched(sub, tid)])
    case ChooseInVain(sub) => w.(tables := w.tables.(suspended := w.tables.suspended + [sub]))
    case InitLook(c) =>
      w.(lives := w.lives[c := w.lives[c].(looked := Some(w.lives[c].promise.returned))])
    case InitLocked(c) => Registered(w, c)
    case InitStore(c) =>
      w.(lives := w.lives[c := w.lives[c].(promise := StoreSub(w.lives[c].promise, w.lives[c].sub))])
    case InitErase(c) =>
      w.(tables := EraseIfReturned(w.tables, w.lives[c].promise), lives := w.lives[c := w.lives[c].(settled := true)])
    case SetReturned(c) =>
      w.(lives := w.lives[c := w.lives[c].(promise := MarkReturned(w.lives[c].promise))])
    case ReturnErase(c) =>
      w.(tables := Unlist(w.tables, w.lives[c].promise), lives := w.lives[c := w.lives[c].(unlisted := true)])
    case ReturnFlag(c) => Flagged(w, c)
    case IdleCall(tid) => w.(tables := AfterIdle(w.tables, tid))
  }

  function Run(events: seq<Event>): World {
    if events == [] then Start() else Step(Run(events[..|events| - 1]), events[|events| - 1])
  }

  // --- the registry invariant ---

  // The queued ids are the last indices of the flags, in order, and no flag before them is up.
  ghost predicate QueueIsTail(t: Tables) {
    var past := |t.ready| - |t.queue|;
    && 0 <= past
    && (forall k :: 0 <= k < |t.queue| ==> t.queue[k].1 == past + k)
    && (forall i :: 0 <= i < past ==> !t.ready[i])
  }

  // Flag i belongs to one coroutine, and is up exactly until that coroutine has returned.
  ghost predicate FlagsTellTruth(w: World) {
    && |w.owners| == |w.tables.ready|
    && (forall i :: 0 <= i < |w.owners| ==>
          var c := w.owners[i];
          && c in w.lives && w.lives[c].promise.vecId == i && w.lives[c].registered
          && (w.tables.ready[i] <==> !w.lives[c].finished))
    && (forall c :: c in w.lives ==> LifeMakesSense(w, c))
  }

  ghost predicate LifeMakesSense(w: World, c: nat)
    requires c in w.lives
  {
    var life := w.lives[c];
    && (life.promise.linked <==> life.registered)
    && (life.registered ==> life.looked.Some? && (life.looked.value <==> life.promise.vecId == -1))
    && (!life.registered ==> life.promise.vecId == -1)
    && (life.looked == Some(false) && !life.registered ==> !life.unlisted)
    && (life.unlisted && !life.finished && life.looked.Some? ==> life.registered)
    && (life.promise.vecId == -1 || (0 <= life.promise.vecId < |w.owners| && w.owners[life.promise.vecId] == c))
    && (life.promise.sub.Some? ==> life.registered && life.promise.sub.value == life.sub)
    && (life.settled ==> life.promise.sub.Some?)
    && (life.finished ==> life.unlisted)
    && (life.unlisted ==> life.promise.returned)
  }

  // The queue remembers the thread of each registered coroutine.
  ghost predicate QueueTellsThreads(w: World) {
    forall k :: 0 <= k < |w.tables.queue| ==>
      var i := w.tables.queue[k].1;
      i < |w.owners| && w.owners[i] in w.lives && w.tables.queue[k].0 == w.lives[w.owners[i]].tid
  }

  ghost predicate Inv(w: World) {
    QueueIsTail(w.tables) && FlagsTellTruth(w) && QueueTellsThreads(w) && Distinct(w.tables.suspended)
  }

  // A step of c that leaves the flags, the queue and the owners alone.
  lemma ProgressKeeps(w: World, c: nat, life: Life, suspended: seq<Sub>)
    requires Inv(w) && c in w.lives && Distinct(suspended)
    requires life.promise.vecId == w.lives[c].promise.vecId && life.tid == w.lives[c].tid
    requires (w.lives[c].registered ==> life.registered) && life.finished == w.lives[c].finished
    requires LifeMakesSense(w.(lives := w.lives[c := life]), c)
    ensures Inv(w.(tables := w.tables.(suspended := suspended), lives := w.lives[c := life]))
  {
    var w' := w.(tables := w.tables.(suspended := suspended), lives := w.lives[c := life]);
    forall x | x in w'.lives ensures LifeMakesSense(w', x) {
      if x != c { assert LifeMakesSense(w, x); }
    }
  }

  lemma RegisterKeeps(w: World, c: nat)
    requires Inv(w) && Enabled(w, InitLocked(c))
    ensures Inv(Step(w, InitLocked(c)))
  {
    if w.lives[c].looked == Some(false) {
      NewFlagKeeps(w, c);
    } else {
      var life := w.lives[c];
      assert LifeMakesSense(w, c);
      ProgressKeeps(w, c, life.(promise := life.promise.(linked := true), registered := true), w.tables.suspended);
    }
  }

  lemma NewFlagKeeps(w: World, c: nat)
    requires Inv(w) && Enabled(w, InitLocked(c)) && w.lives[c].looked == Some(false)
    ensures Inv(Step(w, InitLocked(c)))
  {
    var w' := Registered(w, c);
    assert w'.owners == w.owners + [c] && w'.tables.ready == w.tables.ready + [true];
    forall d | d in w'.lives ensures LifeMakesSense(w', d) {
      assert LifeMakesSense(w, d);
    }
    NewEntryTellsThread(w, c);
  }

  lemma NewEntryTellsThread(w: World, c: nat)
    requires Inv(w) && Enabled(w, InitLocked(c)) && w.lives[c].looked == Some(false)
    ensures QueueIsTail(Registered(w, c).tables) && QueueTellsThreads(Registered(w, c))
  {
  }

  lemma InitKeeps(w: World, c: nat, e: Event)
    requires Inv(w) && Enabled(w, e) && (e == InitLook(c) || e == InitStore(c) || e == InitErase(c))
    ensures Inv(Step(w, e))
  {
    assert LifeMakesSense(w, c);
    EraseIsWithout(w.tables.suspended, w.lives[c].sub);
    var w' := Step(w, e);
    ProgressKeeps(w, c, w'.lives[c], w'.tables.suspended);
  }

  lemma ReturnKeeps(w: World, c: nat, e: Event)
    requires Inv(w) && Enabled(w, e) && (e == SetReturned(c) || e == ReturnErase(c))
    ensures Inv(Step(w, e))
  {
    assert LifeMakesSense(w, c);
    EraseIsWithout(w.tables.suspended, w.lives[c].sub);
    var w' := Step(w, e);
    ProgressKeeps(w, c, w'.lives[c], w'.tables.suspended);
  }

  lemma FlagKeeps(w: World, c: nat)
    requires Inv(w) && Enabled(w, ReturnFlag(c))
    ensures Inv(Step(w, ReturnFlag(c)))
  {
    assert LifeMakesSense(w, c);
    var w' := Step(w, ReturnFlag(c));
    forall x | x in w'.lives ensures LifeMakesSense(w', x) {
      assert LifeMakesSense(w, x);
    }
  }

  lemma IdleKeeps(w: World, tid: Thread)
    requires Inv(w) && Enabled(w, IdleCall(tid))
    ensures Inv(Step(w, IdleCall(tid)))
  {
  }

  lemma ListKeeps(w: World, e: Event)
    requires Inv(w) && Enabled(w, e) && (e.Dispatch? || e.ChooseInVain?)
    ensures Inv(Step(w, e))
  {
    if e.Dispatch? {
      forall x | x in w.lives ensures LifeMakesSense(Step(w, e), x) { assert LifeMakesSense(w, x); }
    }
  }

  lemma StepKeeps(w: World, e: Event)
    requires Inv(w)
    ensures Inv(Step(w, e))
  {
    if Enabled(w, e) {
      match e {
        case Dispatch(_, _, _) => ListKeeps(w, e);
        case ChooseInVain(_) => ListKeeps(w, e);
        case InitLook(c) => InitKeeps(w, c, e);
        case InitLocked(c) => RegisterKeeps(w, c);
        case InitStore(c) => InitKeeps(w, c, e);
        case InitErase(c) => InitKeeps(w, c, e);
        case SetReturned(c) => ReturnKeeps(w, c, e);
        case ReturnErase(c) => ReturnKeeps(w, c, e);
        case ReturnFlag(c) => FlagKeeps(w, c);
        case IdleCall(tid) => IdleKeeps(w, tid);
      }
    }
  }

  lemma {:induction false} RunKeeps(events: seq<Event>) returns (w: World)
    ensures w == Run(events) && Inv(w)
  {
    if events == [] {
      w := Start();
    } else {
      var before := RunKeeps(events[..|events| - 1]);
      StepKeeps(before, events[|events| - 1]);
      w := Step(before, events[|events| - 1]);
    }
  }
}
