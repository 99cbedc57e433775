/**
 * Runs in which a coroutine takes another one's entry off suspend_coroutine_list_.
 *
 * A coroutine's subscription can be erased twice, once by the end of promise_executor_init and once
 * by return_value. When it is erased for the first time, another coroutine can be dispatched for it,
 * and the second erasure takes that one's entry. Each comes second in one of the runs here. In the
 * third run the one that has lost its entry does the same to a later one, with its only erasure.
 */
module CoroutineTaken {

  import opened Wrappers
  import opened CoroutineTables
  import opened CoroutineRun
  import opened CoroutineResults
  import opened CoroutineListing

  lemma Extend(events: seq<Event>, e: Event) returns (more: seq<Event>)
    ensures more == events + [e] && Run(more) == Step(Run(events), e)
    ensures forall x: Event, y: Event, z: Event :: AllInOrder(more, x, y, z) <==>
              AllInOrder(events, x, y, z) || (e == z && Enabled(Run(events), e) && HappenedInOrder(events, x, y))
    ensures forall x: Event, y: Event :: HappenedInOrder(more, x, y) <==>
              HappenedInOrder(events, x, y) || (e == y && Enabled(Run(events), e) && Happened(events, x))
    ensures forall x: Event :: Happened(more, x) <==> Happened(events, x) || (e == x && Enabled(Run(events), e))
  {
    more := events + [e];
    assert more[..|more| - 1] == events;
  }

  // Coroutine 3 was not dispatched, and 2 has neither returned nor stored its subscription.
  ghost predicate NothingOfTheOthers(events: seq<Event>) {
    && !Happened(events, Dispatch(3, 5, 0)) && (forall y :: !HappenedInOrder(events, Dispatch(3, 5, 0), y))
    && !Happened(events, InitStore(2)) && !Happened(events, SetReturned(2))
    && !HappenedInOrder(events, SetReturned(2), InitErase(2))
  }

  // Coroutine 1, of subscription 5, has stored it and returns.
  lemma FirstReturns() returns (events: seq<Event>)
    ensures Run(events) == World(Tables([true], [(0, 0)], [5]),
                    map[1 := Life(Promise(true, true, 0, Some(5)), 0, 5, Some(false), true, false, false, false, false)], [1])
    ensures forall d :: !Happened(events, InitErase(d)) && !Happened(events, ReturnErase(d))
    ensures forall d :: !HappenedInOrder(events, SetReturned(d), InitErase(d)) && !HappenedInOrder(events, InitStore(d), ReturnErase(d))
    ensures forall d :: !AllInOrder(events, SetReturned(d), InitErase(d), ReturnErase(d))
    ensures NothingOfTheOthers(events)
  {
    events := Extend([], Dispatch(1, 5, 0));
    events := Extend(events, InitLook(1));
    events := Extend(events, InitLocked(1));
    events := Extend(events, InitStore(1));
    events := Extend(events, SetReturned(1));
  }

  // ---- return_value comes second ----

  // The end of 1's init erases 5, and coroutine 2 is dispatched for it and registers.
  lemma InitComesFirst() returns (events: seq<Event>)
    ensures Run(events) == World(Tables([true], [(0, 0)], []),
                    map[1 := Life(Promise(true, true, 0, Some(5)), 0, 5, Some(false), true, true, false, false, false)], [1])
    ensures NothingOfTheOthers(events) && forall d :: Happened(events, InitErase(d)) ==> d == 1
    ensures forall d :: !Happened(events, ReturnErase(d))
  {
    events := FirstReturns();
    assert Erase([5], 5) == [];
    events := Extend(events, InitErase(1));
  }

  lemma SecondRegisters() returns (events: seq<Event>)
    ensures Run(events) == World(Tables([true, true], [(0, 0), (0, 1)], [5]),
                    map[1 := Life(Promise(true, true, 0, Some(5)), 0, 5, Some(false), true, true, false, false, false),
                        2 := Life(Promise(false, true, 1, None), 0, 5, Some(false), true, false, false, false, false)], [1, 2])
    ensures NothingOfTheOthers(events) && forall d :: Happened(events, InitErase(d)) ==> d == 1
    ensures forall d :: !Happened(events, ReturnErase(d))
  {
    events := InitComesFirst();
    events := Extend(events, Dispatch(2, 5, 0));
    events := Extend(events, InitLook(2));
    events := Extend(events, InitLocked(2));
  }

  lemma EntryTaken() returns (events: seq<Event>)
    ensures Run(events) == World(Tables([true, true], [(0, 0), (0, 1)], []),
                    map[1 := Life(Promise(true, true, 0, Some(5)), 0, 5, Some(false), true, true, true, false, false),
                        2 := Life(Promise(false, true, 1, None), 0, 5, Some(false), true, false, false, false, false)], [1, 2])
    ensures NothingOfTheOthers(events)
  {
    events := SecondRegisters();
    assert Erase([5], 5) == [];
    events := Extend(events, ReturnErase(1));
  }

  // Then return_value of 1 erases 2's entry: 2 is suspended, and its subscription is dispatched again.
  lemma SuspendedCanBeUnlisted()
    ensures exists events :: var w := Run(events);
      Suspended(w, 2) && w.lives[2].sub !in w.tables.suspended && Enabled(w, Dispatch(3, w.lives[2].sub, 0))
  {
    var events := EntryTaken();
    assert Suspended(Run(events), 2);
  }

  // ---- the end of promise_executor_init comes second ----

  // return_value of 1 erases 5 before the end of 1's init, and coroutine 2 is dispatched for it and
  // registers.
  lemma ReturnComesFirst() returns (events: seq<Event>)
    ensures Run(events) == World(Tables([true], [(0, 0)], []),
                    map[1 := Life(Promise(true, true, 0, Some(5)), 0, 5, Some(false), true, false, true, false, false)], [1])
    ensures forall d :: !AllInOrder(events, SetReturned(d), InitErase(d), ReturnErase(d))
  {
    events := FirstReturns();
    assert Erase([5], 5) == [];
    events := Extend(events, ReturnErase(1));
  }

  lemma SecondRegistersEarly() returns (events: seq<Event>)
    ensures Run(events) == World(Tables([true, true], [(0, 0), (1, 1)], [5]),
                    map[1 := Life(Promise(true, true, 0, Some(5)), 0, 5, Some(false), true, false, true, false, false),
                        2 := Life(Promise(false, true, 1, None), 1, 5, Some(false), true, false, false, false, false)], [1, 2])
    ensures forall d :: !AllInOrder(events, SetReturned(d), InitErase(d), ReturnErase(d))
  {
    events := ReturnComesFirst();
    events := Extend(events, Dispatch(2, 5, 1));
    events := Extend(events, InitLook(2));
    events := Extend(events, InitLocked(2));
  }

  // Then the end of 1's init erases 2's entry: 2 is suspended and not listed, although no return_value
  // came second.
  lemma LateInitUnlists()
    ensures exists events :: var w := Run(events);
      && Suspended(w, 2) && w.lives[2].sub !in w.tables.suspended && Enabled(w, Dispatch(3, w.lives[2].sub, 0))
      && forall d :: !AllInOrder(events, SetReturned(d), InitErase(d), ReturnErase(d))
  {
    var events := SecondRegistersEarly();
    assert Erase([5], 5) == [];
    events := Extend(events, InitErase(1));
    assert Suspended(Run(events), 2);
  }

  // ---- one taken entry brings others ----

  // The end of 2's init finds nothing to do, and coroutine 3 is dispatched for the same subscription.
  lemma ThirdRegisters() returns (events: seq<Event>)
    ensures var w := Run(events);
      && w.tables.suspended == [5] && |w.tables.ready| == 3 && 2 in w.lives && 3 in w.lives
      && w.lives[2] == Life(Promise(false, true, 1, Some(5)), 0, 5, Some(false), true, true, false, false, false)
      && w.lives[3].sub == 5 && Suspended(w, 3)
    ensures !HappenedInOrder(events, SetReturned(2), InitErase(2))
    ensures forall d :: !HappenedInOrder(events, Dispatch(3, 5, 0), InitErase(d))
    ensures forall d :: !HappenedInOrder(events, Dispatch(3, 5, 0), ReturnErase(d))
  {
    events := EntryTaken();
    events := Extend(events, InitStore(2));
    events := Extend(events, InitErase(2));
    events := Extend(events, Dispatch(3, 5, 0));
    events := Extend(events, InitLook(3));
    events := Extend(events, InitLocked(3));
  }

  // When 2 returns it erases 3's entry, although nobody has erased a second time since 3's dispatch.
  lemma ThirdIsUnlistedToo()
    ensures exists events :: var w := Run(events);
      && Suspended(w, 3) && w.lives[3].sub !in w.tables.suspended
      && (forall d :: InitErased(events, d) ==> !HappenedInOrder(events, Dispatch(3, 5, 0), ReturnErase(d)))
      && (forall d :: ReturnErased(events, d) ==> !HappenedInOrder(events, Dispatch(3, 5, 0), InitErase(d)))
  {
    var events := ThirdRegisters();
    events := Extend(events, SetReturned(2));
    assert Erase([5], 5) == [];
    events := Extend(events, ReturnErase(2));
    assert Suspended(Run(events), 3);
  }
}
