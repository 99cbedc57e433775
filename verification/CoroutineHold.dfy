/**
 * When a thread that idles holds up a coroutine that returns on another thread.
 */
module CoroutineHold {

  import opened Wrappers
  import opened CoroutineTables
  import opened CoroutineRun
  import opened CoroutineResults

  // What a thread is in the middle of: promise_executor_init of a coroutine, or return_value.
  datatype Role = Starts(c: nat) | Returns(c: nat)

  // `idling` is the thread that holds co_vec_mutex_ over its wait.
  datatype State = State(world: World, idling: Option<Thread>, doing: map<Thread, Role>)

  // An idle call takes the mutex and keeps it until its wait and its second look are over; one that
  // retires an entry is over at once. The parts of init and return that use the mutex take it for a
  // moment.
  datatype Move =
    | IdleBegin(t: Thread)
    | IdleEnd(t: Thread)
    | Part(t: Thread, e: Event)

  predicate NeedsMutex(w: World, e: Event) {
    match e
    case InitLocked(c) => c in w.lives && w.lives[c].looked == Some(false)
    case ReturnFlag(c) => c in w.lives && w.lives[c].promise.linked
    case _ => false
  }

  // A thread goes through init or return without anything else in between, and begins neither while it
  // idles; the coroutines it has dispatched are started by itself.
  predicate MayDo(s: State, t: Thread, e: Event) {
    match e
    case Dispatch(_, _, tid) => tid == t && t !in s.doing
    case ChooseInVain(_) => t !in s.doing
    case InitLook(c) => c in s.world.lives && s.world.lives[c].tid == t && t !in s.doing && s.idling != Some(t)
    case InitLocked(c) => t in s.doing && s.doing[t] == Starts(c)
    case InitStore(c) => t in s.doing && s.doing[t] == Starts(c)
    case InitErase(c) => t in s.doing && s.doing[t] == Starts(c)
    case SetReturned(c) => t !in s.doing && s.idling != Some(t)
    case ReturnErase(c) => t in s.doing && s.doing[t] == Returns(c)
    case ReturnFlag(c) => t in s.doing && s.doing[t] == Returns(c)
    case IdleCall(_) => false
  }

  predicate CanMove(s: State, m: Move) {
    match m
    case IdleBegin(t) => t !in s.doing && s.idling.None? && Enabled(s.world, IdleCall(t))
    case IdleEnd(t) => s.idling == Some(t)
    case Part(t, e) => MayDo(s, t, e) && Enabled(s.world, e) && (NeedsMutex(s.world, e) ==> s.idling.None?)
  }

  function Doing(doing: map<Thread, Role>, t: Thread, e: Event): map<Thread, Role> {
    match e
    case InitLook(c) => doing[t := Starts(c)]
    case SetReturned(c) => doing[t := Returns(c)]
    case InitErase(_) => doing - {t}
    case ReturnFlag(_) => doing - {t}
    case _ => doing
  }

  function Next(s: State, m: Move): State {
    if !CanMove(s, m) then s else
    match m
    case IdleBegin(t) =>
      s.(world := Step(s.world, IdleCall(t)),
         idling := if IdleAction(s.world.tables, t) == Retire then None else Some(t))
    case IdleEnd(_) => s.(idling := None)
    case Part(t, e) => s.(world := Step(s.world, e), doing := Doing(s.doing, t, e))
  }

  function After(moves: seq<Move>): State {
    if moves == [] then State(Start(), None, map[]) else Next(After(moves[..|moves| - 1]), moves[|moves| - 1])
  }

  // ---- these runs are runs ----

  // The events behind the moves.
  function Events(moves: seq<Move>): seq<Event> {
    if moves == [] then []
    else
      var before, m := Events(moves[..|moves| - 1]), moves[|moves| - 1];
      if !CanMove(After(moves[..|moves| - 1]), m) then before
      else match m
        case IdleBegin(t) => before + [IdleCall(t)]
        case IdleEnd(_) => before
        case Part(_, e) => before + [e]
  }

  // So that whatever holds of every run holds here too.
  lemma {:induction false} MovesAreEvents(moves: seq<Move>)
    ensures After(moves).world == Run(Events(moves))
  {
    if moves != [] {
      var before := moves[..|moves| - 1];
      MovesAreEvents(before);
      var events := Events(moves);
      if events != Events(before) { assert events[..|events| - 1] == Events(before); }
    }
  }

  // ---- what every run keeps ----

  ghost predicate RoleFits(s: State, t: Thread)
    requires t in s.doing
  {
    var role := s.doing[t];
    && role.c in s.world.lives && s.idling != Some(t)
    && var life := s.world.lives[role.c];
    && (role.Starts? ==> life.looked.Some? && !life.settled && life.tid == t)
    && (role.Returns? ==> life.promise.returned && !life.finished)
  }

  // Whoever is between the look and the end of its init is being started by its thread.
  ghost predicate IsStarted(s: State, c: nat)
    requires c in s.world.lives
  {
    var life := s.world.lives[c];
    life.looked.Some? && !life.settled ==> life.tid in s.doing && s.doing[life.tid] == Starts(c)
  }

  ghost predicate Fits(s: State) {
    && (forall t :: t in s.doing ==> RoleFits(s, t))
    && (forall t, u :: t in s.doing && u in s.doing && s.doing[t] == s.doing[u] ==> t == u)
    && (forall c :: c in s.world.lives ==> IsStarted(s, c))
    && (s.idling.Some? ==>
          Enabled(s.world, IdleCall(s.idling.value)) && IdleAction(s.world.tables, s.idling.value) != Retire)
  }

  // Without the mutex nothing happens to the flags and the queue.
  lemma FlagsStay(w: World, e: Event)
    requires !NeedsMutex(w, e) && !e.IdleCall?
    ensures Step(w, e).tables.ready == w.tables.ready && Step(w, e).tables.queue == w.tables.queue
  {
  }

  lemma PartKeepsRoles(s: State, t: Thread, e: Event, u: Thread)
    requires Fits(s) && Inv(s.world) && CanMove(s, Part(t, e)) && u in Next(s, Part(t, e)).doing
    ensures RoleFits(Next(s, Part(t, e)), u)
  {
    if e.InitLook? || e.SetReturned? { assert LifeMakesSense(s.world, e.c); }
    if t in s.doing { assert RoleFits(s, t); }
    if u in s.doing && u != t {
      assert RoleFits(s, u);
      if e.InitErase? || e.ReturnFlag? { assert s.doing[t] != s.doing[u]; }
      AnotherPartStays(s, t, e, s.doing[u]);
    }
  }

  // A part of somebody else's init or return leaves a coroutine's own where it is.
  lemma AnotherPartStays(s: State, t: Thread, e: Event, role: Role)
    requires CanMove(s, Part(t, e)) && role.c in s.world.lives
    requires t in s.doing ==> s.doing[t] != role
    ensures var life, w' := s.world.lives[role.c], Next(s, Part(t, e)).world;
      && role.c in w'.lives && w'.lives[role.c].tid == life.tid
      && (role.Starts? ==> w'.lives[role.c].settled == life.settled && (life.looked.Some? ==> w'.lives[role.c].looked.Some?))
      && (role.Returns? ==>
            w'.lives[role.c].finished == life.finished && (life.promise.returned ==> w'.lives[role.c].promise.returned))
  {
  }

  lemma PartKeepsStarts(s: State, t: Thread, e: Event, c: nat)
    requires Fits(s) && CanMove(s, Part(t, e)) && c in Next(s, Part(t, e)).world.lives
    ensures IsStarted(Next(s, Part(t, e)), c)
  {
    if c in s.world.lives { assert IsStarted(s, c); }
    if t in s.doing { assert RoleFits(s, t); }
  }

  lemma NextKeepsFits(s: State, m: Move)
    requires Fits(s) && Inv(s.world)
    ensures Fits(Next(s, m))
  {
    if CanMove(s, m) {
      match m
      case IdleBegin(t) =>
        forall u | u in s.doing ensures RoleFits(Next(s, m), u) { assert RoleFits(s, u); }
        forall c | c in s.world.lives ensures IsStarted(Next(s, m), c) { assert IsStarted(s, c); }
      case IdleEnd(_) =>
        forall u | u in s.doing ensures RoleFits(Next(s, m), u) { assert RoleFits(s, u); }
        forall c | c in s.world.lives ensures IsStarted(Next(s, m), c) { assert IsStarted(s, c); }
      case Part(t, e) =>
        forall u | u in Next(s, m).doing ensures RoleFits(Next(s, m), u) { PartKeepsRoles(s, t, e, u); }
        forall c | c in Next(s, m).world.lives ensures IsStarted(Next(s, m), c) { PartKeepsStarts(s, t, e, c); }
        RolesStayApart(s, t, e);
        if s.idling.Some? { FlagsStay(s.world, e); }
    }
  }

  lemma RolesStayApart(s: State, t: Thread, e: Event)
    requires Fits(s) && CanMove(s, Part(t, e))
    ensures var doing := Next(s, Part(t, e)).doing;
      forall u, v :: u in doing && v in doing && doing[u] == doing[v] ==> u == v
  {
    forall u | u in s.doing ensures RoleFits(s, u) {}
  }

  lemma {:induction false} AfterFits(moves: seq<Move>)
    ensures Fits(After(moves)) && Inv(After(moves).world)
  {
    MovesAreEvents(moves);
    var w := RunKeeps(Events(moves));
    if moves != [] {
      AfterFits(moves[..|moves| - 1]);
      NextKeepsFits(After(moves[..|moves| - 1]), moves[|moves| - 1]);
    }
  }

  // ---- who is held up ----

  // What return_value of c does next.
  function NextOfReturn(life: Life, c: nat): Event {
    if !life.unlisted then ReturnErase(c) else ReturnFlag(c)
  }

  // While some thread idles, return_value of c is held up at its flag; or before, at the promise's lock,
  // if promise_executor_init has it and is itself held up before it registers a flag.
  predicate HeldUp(s: State, c: nat)
    requires c in s.world.lives
  {
    var life := s.world.lives[c];
    s.idling.Some? && if life.unlisted then life.promise.linked else life.looked == Some(false) && !life.registered
  }

  // In any run, of a thread that is in return_value of c: if c is held up, some other thread polls or
  // blocks, and neither that thread can go on nor the one that starts c, if it is still at it. If c is
  // not held up, the thread can go on, at once or after one step of the one that starts c.
  lemma HeldUpExactly(moves: seq<Move>, t: Thread, c: nat)
    requires t in After(moves).doing && After(moves).doing[t] == Returns(c)
    ensures var s := After(moves);
      && c in s.world.lives
      && var life := s.world.lives[c];
      var goOn, start := Part(t, NextOfReturn(life, c)), Part(life.tid, InitLocked(c));
      && (HeldUp(s, c) ==>
            && s.idling != Some(t) && !CanMove(s, goOn) && !CanMove(s, start)
            && Enabled(s.world, IdleCall(s.idling.value)) && IdleAction(s.world.tables, s.idling.value) != Retire)
      && (!HeldUp(s, c) ==> CanMove(s, goOn) || (CanMove(s, start) && CanMove(Next(s, start), goOn)))
  {
    AfterFits(moves);
    var s := After(moves);
    assert RoleFits(s, t);
    assert LifeMakesSense(s.world, c) && IsStarted(s, c);
  }

  // ---- for how long ----

  // The flags and the queue are as they were, and so is what the idle thread does about them.
  ghost predicate Frozen(s: State, s': State) {
    && s'.idling == s.idling
    && s'.world.tables.ready == s.world.tables.ready && s'.world.tables.queue == s.world.tables.queue
  }

  lemma OneEventFreezes(s: State, m: Move)
    requires s.idling.Some? && m != IdleEnd(s.idling.value)
    ensures Frozen(s, Next(s, m))
  {
    if m.Part? && CanMove(s, m) { FlagsStay(s.world, m.e); }
  }

  lemma OneMove(moves: seq<Move>, m: Move)
    ensures After(moves + [m]) == Next(After(moves), m)
  {
    assert (moves + [m])[..|moves|] == moves;
  }

  lemma NextMove(moves: seq<Move>, more: seq<Move>)
    requires more != []
    ensures After(moves + more) == Next(After(moves + more[..|more| - 1]), more[|more| - 1])
  {
    OneMove(moves + more[..|more| - 1], more[|more| - 1]);
    Regrouped(moves, more);
  }

  lemma Regrouped<T>(moves: seq<T>, more: seq<T>)
    requires more != []
    ensures moves + more == (moves + more[..|more| - 1]) + [more[|more| - 1]]
  {
  }

  // From the beginning of an idle call to its end, whatever the other threads do, no flag is raised or
  // lowered and nothing is queued or retired: what the thread decided at the beginning stays right.
  lemma {:induction false} IdleDecisionStays(moves: seq<Move>, more: seq<Move>, u: Thread)
    requires After(moves).idling == Some(u) && IdleEnd(u) !in more
    ensures Frozen(After(moves), After(moves + more))
    decreases |more|
  {
    if more == [] {
      assert moves + more == moves;
    } else {
      var before := more[..|more| - 1];
      IdleDecisionStays(moves, before, u);
      NextMove(moves, more);
      OneEventFreezes(After(moves + before), more[|more| - 1]);
    }
  }

  lemma RoleStays(s: State, m: Move, t: Thread, c: nat)
    requires Fits(s) && t in s.doing && s.doing[t] == Returns(c) && c in s.world.lives
    requires m != Part(t, ReturnFlag(c)) || !CanMove(s, m)
    ensures t in Next(s, m).doing && Next(s, m).doing[t] == Returns(c) && c in Next(s, m).world.lives
  {
    assert RoleFits(s, t);
  }

  // Nothing that holds c up changes.
  lemma HeldLifeStays(s: State, m: Move, c: nat)
    requires Inv(s.world) && c in s.world.lives && HeldUp(s, c)
    ensures var life, lives' := s.world.lives[c], Next(s, m).world.lives;
      && c in lives' && lives'[c].unlisted == life.unlisted && lives'[c].promise.linked == life.promise.linked
      && lives'[c].looked == life.looked && lives'[c].registered == life.registered
  {
    assert LifeMakesSense(s.world, c);
    if !m.Part? || !CanMove(s, m) || !(m.e.InitLook? || m.e.InitLocked? || m.e.ReturnErase?) { KeyPartsStay(s, m, c); }
  }

  lemma KeyPartsStay(s: State, m: Move, c: nat)
    requires c in s.world.lives && (!m.Part? || !CanMove(s, m) || !(m.e.InitLook? || m.e.InitLocked? || m.e.ReturnErase?))
    ensures var life, lives' := s.world.lives[c], Next(s, m).world.lives;
      && c in lives' && lives'[c].unlisted == life.unlisted && lives'[c].promise.linked == life.promise.linked
      && lives'[c].looked == life.looked && lives'[c].registered == life.registered
  {
  }

  lemma StaysHeldUp(s: State, m: Move, t: Thread, c: nat)
    requires Fits(s) && Inv(s.world) && t in s.doing && s.doing[t] == Returns(c) && c in s.world.lives && HeldUp(s, c)
    requires m != IdleEnd(s.idling.value)
    ensures var s' := Next(s, m);
      t in s'.doing && s'.doing[t] == Returns(c) && c in s'.world.lives && HeldUp(s', c)
  {
    if m == Part(t, ReturnFlag(c)) { assert RoleFits(s, t) && LifeMakesSense(s.world, c); }
    RoleStays(s, m, t, c);
    HeldLifeStays(s, m, c);
    OneEventFreezes(s, m);
  }

  // A coroutine that is held up stays so until that idle call ends.
  lemma {:induction false} HeldUpUntilIdleEnds(moves: seq<Move>, more: seq<Move>, t: Thread, c: nat, u: Thread)
    requires t in After(moves).doing && After(moves).doing[t] == Returns(c) && c in After(moves).world.lives
    requires HeldUp(After(moves), c) && After(moves).idling == Some(u) && IdleEnd(u) !in more
    ensures var s := After(moves + more);
      && t in s.doing && s.doing[t] == Returns(c) && c in s.world.lives && HeldUp(s, c) && !s.world.lives[c].finished
    decreases |more|
  {
    AfterFits(moves + more);
    if more == [] {
      assert moves + more == moves;
    } else {
      var before := more[..|more| - 1];
      HeldUpUntilIdleEnds(moves, before, t, c, u);
      IdleDecisionStays(moves, before, u);
      NextMove(moves, more);
      AfterFits(moves + before);
      StaysHeldUp(After(moves + before), more[|more| - 1], t, c);
    }
    assert RoleFits(After(moves + more), t);
  }

  // ---- one spinning thread ----

  lemma {:induction false} OnlyTheThread(moves: seq<Move>, tid: Thread)
    requires forall m :: m in moves ==> m.t == tid
    ensures After(moves).idling.Some? ==> After(moves).idling == Some(tid)
    ensures forall t :: t in After(moves).doing ==> t == tid
  {
    if moves != [] { OnlyTheThread(moves[..|moves| - 1], tid); }
  }

  // With one spinning thread no coroutine that returns is ever held up.
  lemma OneThreadIsNeverHeldUp(moves: seq<Move>, tid: Thread, t: Thread, c: nat)
    requires forall m :: m in moves ==> m.t == tid
    requires t in After(moves).doing && After(moves).doing[t] == Returns(c)
    ensures var s := After(moves);
      && c in s.world.lives && !HeldUp(s, c) && CanMove(s, Part(t, NextOfReturn(s.world.lives[c], c)))
  {
    OnlyTheThread(moves, tid);
    AfterFits(moves);
    var s := After(moves);
    assert RoleFits(s, t);
    assert LifeMakesSense(s.world, c) && IsStarted(s, c);
  }

  // ---- it happens ----

  lemma OneMore(moves: seq<Move>, m: Move) returns (more: seq<Move>)
    ensures more == moves + [m] && After(more) == Next(After(moves), m)
  {
    more := moves + [m];
    OneMove(moves, m);
  }

  // Thread 0 dispatches coroutine 1, of subscription 5, and registers it.
  lemma Chosen() returns (moves: seq<Move>)
    ensures After(moves) == State(World(Tables([], [], [5]), map[1 := Dispatched(5, 0)], []), None, map[])
  {
    moves := OneMore([], Part(0, Dispatch(1, 5, 0)));
  }

  lemma Looking() returns (moves: seq<Move>)
    ensures After(moves) == State(World(Tables([], [], [5]),
                    map[1 := Life(NewPromise(), 0, 5, Some(false), false, false, false, false, false)], []), None, map[0 := Starts(1)])
  {
    moves := Chosen();
    moves := OneMore(moves, Part(0, InitLook(1)));
  }

  lemma Registering() returns (moves: seq<Move>)
    ensures After(moves) == State(World(Tables([true], [(0, 0)], [5]),
                    map[1 := Life(Promise(false, true, 0, None), 0, 5, Some(false), true, false, false, false, false)], [1]),
                    None, map[0 := Starts(1)])
  {
    moves := Looking();
    moves := OneMore(moves, Part(0, InitLocked(1)));
  }

  lemma Started() returns (moves: seq<Move>)
    ensures After(moves) == State(World(Tables([true], [(0, 0)], [5]),
                    map[1 := Life(Promise(false, true, 0, Some(5)), 0, 5, Some(false), true, true, false, false, false)], [1]),
                    None, map[])
  {
    moves := Registering();
    moves := OneMore(moves, Part(0, InitStore(1)));
    moves := OneMore(moves, Part(0, InitErase(1)));
  }

  // Thread 1 finds nothing to do and blocks; then coroutine 1 returns on thread 0 and cannot lower its
  // flag until something ends the wait of thread 1.
  lemma HeldUpByAThreadThatBlocks()
    ensures exists moves :: var s := After(moves);
      && s.idling == Some(1) && s.doing == map[0 := Returns(1)] && s.world.tables.queue == [(0, 0)]
      && 1 in s.world.lives && s.world.lives[1].promise.returned && HeldUp(s, 1)
  {
    var moves := Started();
    moves := OneMore(moves, IdleBegin(1));
    moves := OneMore(moves, Part(0, SetReturned(1)));
    assert Erase([5], 5) == [];
    moves := OneMore(moves, Part(0, ReturnErase(1)));
  }
}
