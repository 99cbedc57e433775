/**
 * When suspend_coroutine_list_ holds the subscription of every coroutine that counts on it.
 */
module CoroutineListing {

  import opened Wrappers
  import opened CoroutineTables
  import opened CoroutineRun
  import opened CoroutineResults

  // Coroutine c takes its subscription off the list: at the end of init if it has returned, and in
  // return if the subscription is stored by then. It can do both, in either order.
  predicate ErasesNow(w: World, e: Event, c: nat) {
    && c in w.lives && Enabled(w, e)
    && ((e == InitErase(c) && w.lives[c].promise.returned) || (e == ReturnErase(c) && w.lives[c].promise.sub.Some?))
  }

  predicate Erased(events: seq<Event>, c: nat) {
    events != [] &&
    (Erased(events[..|events| - 1], c) || ErasesNow(Run(events[..|events| - 1]), events[|events| - 1], c))
  }

  // A coroutine that was dispatched and has not taken its subscription off the list. One that has
  // not returned is such a one.
  predicate Counts(events: seq<Event>, c: nat) {
    c in Run(events).lives && !Erased(events, c)
  }

  ghost predicate AllListed(events: seq<Event>) {
    forall c :: Counts(events, c) ==> Run(events).lives[c].sub in Run(events).tables.suspended
  }

  ghost predicate ListedThroughout(events: seq<Event>) {
    forall k :: 0 <= k <= |events| ==> AllListed(events[..k])
  }

  // ---- the condition ----

  // The end of d's init has erased its subscription; return_value has.
  predicate InitErased(events: seq<Event>, d: nat) {
    HappenedInOrder(events, SetReturned(d), InitErase(d))
  }

  predicate ReturnErased(events: seq<Event>, d: nat) {
    HappenedInOrder(events, InitStore(d), ReturnErase(d))
  }

  // Coroutine c was dispatched after event e.
  predicate DispatchedAfter(events: seq<Event>, e: Event, c: nat)
    requires c in Run(events).lives
  {
    HappenedInOrder(events, e, Dispatch(c, Run(events).lives[c].sub, Run(events).lives[c].tid))
  }

  // Coroutine d takes c's entry: d, of the same subscription, erases a second time, and c was
  // dispatched after the first. Return comes second if d returned before the end of its init, and
  // the end of init if return came between it and the store of the subscription.
  ghost predicate TakesEntryOf(events: seq<Event>, e: Event, d: nat, c: nat) {
    && Enabled(Run(events), e) && d in Run(events).lives
    && Counts(events, c) && Run(events).lives[c].sub == Run(events).lives[d].sub
    && ((e == ReturnErase(d) && InitErased(events, d) && DispatchedAfter(events, InitErase(d), c)) ||
        (e == InitErase(d) && ReturnErased(events, d) && DispatchedAfter(events, ReturnErase(d), c)))
  }

  ghost predicate NobodyTakesAnothers(events: seq<Event>) {
    forall k, d, c :: 0 <= k < |events| ==> !TakesEntryOf(events[..k], events[k], d, c)
  }

  // ---- what lives tell about the events ----

  // What is known of a coroutine's own events.
  ghost predicate Tells(w: World, events: seq<Event>, c: nat) {
    var stored, settled, returned, unlisted := InitStore(c), InitErase(c), SetReturned(c), ReturnErase(c);
    if c in w.lives then
      && (w.lives[c].promise.sub.Some? <==> Happened(events, stored))
      && (w.lives[c].settled <==> Happened(events, settled))
      && (w.lives[c].promise.returned <==> Happened(events, returned))
      && (w.lives[c].unlisted <==> Happened(events, unlisted))
      && (InitErased(events, c) ==> w.lives[c].settled && w.lives[c].promise.returned)
      && (ReturnErased(events, c) ==> w.lives[c].unlisted && w.lives[c].promise.sub.Some?)
      && (Erased(events, c) <==> InitErased(events, c) || ReturnErased(events, c))
      && (w.lives[c].settled && w.lives[c].unlisted ==> Erased(events, c))
    else
      && !Erased(events, c) && !Happened(events, stored) && !Happened(events, settled)
      && !Happened(events, returned) && !Happened(events, unlisted)
      && !InitErased(events, c) && !ReturnErased(events, c)
  }

  lemma {:induction false} LivesTell(events: seq<Event>, c: nat)
    ensures Tells(Run(events), events, c)
  {
    if events != [] {
      var before, e := events[..|events| - 1], events[|events| - 1];
      LivesTell(before, c);
      var w := RunKeeps(before);
      StepTells(w, before, e, events, c);
    }
  }

  lemma StepTells(w: World, before: seq<Event>, e: Event, events: seq<Event>, c: nat)
    requires events == before + [e] && w == Run(before)
    requires Inv(w) && Tells(w, before, c)
    ensures Tells(Step(w, e), events, c)
  {
    if c in w.lives { assert LifeMakesSense(w, c); }
    if !Enabled(w, e) || e !in {InitStore(c), InitErase(c), SetReturned(c), ReturnErase(c)} {
      OthersTell(w, before, e, events, c);
    } else if e == InitErase(c) {
      InitErases(w, before, events, c);
    } else if e == ReturnErase(c) {
      ReturnErases(w, before, events, c);
    } else {
      MarkTells(w, before, e, events, c);
    }
  }

  lemma OthersTell(w: World, before: seq<Event>, e: Event, events: seq<Event>, c: nat)
    requires events == before + [e] && w == Run(before) && Tells(w, before, c)
    requires !Enabled(w, e) || e !in {InitStore(c), InitErase(c), SetReturned(c), ReturnErase(c)}
    ensures Tells(Step(w, e), events, c)
  {
    assert events[..|events| - 1] == before;
    ProgressIsTheSame(w, e, c);
  }

  lemma ProgressIsTheSame(w: World, e: Event, c: nat)
    requires !Enabled(w, e) || e !in {InitStore(c), InitErase(c), SetReturned(c), ReturnErase(c)}
    ensures c in w.lives ==>
      && c in Step(w, e).lives
      && Step(w, e).lives[c].promise.sub == w.lives[c].promise.sub && Step(w, e).lives[c].settled == w.lives[c].settled
      && Step(w, e).lives[c].promise.returned == w.lives[c].promise.returned
      && Step(w, e).lives[c].unlisted == w.lives[c].unlisted
    ensures c !in w.lives && c in Step(w, e).lives ==>
      && Step(w, e).lives[c].promise == NewPromise() && !Step(w, e).lives[c].settled && !Step(w, e).lives[c].unlisted
  {
  }

  lemma MarkTells(w: World, before: seq<Event>, e: Event, events: seq<Event>, c: nat)
    requires events == before + [e] && w == Run(before) && Enabled(w, e) && (e == InitStore(c) || e == SetReturned(c))
    requires Tells(w, before, c) && LifeMakesSense(w, c)
    ensures Tells(Step(w, e), events, c)
  {
    assert events[..|events| - 1] == before;
  }

  lemma InitErases(w: World, before: seq<Event>, events: seq<Event>, c: nat)
    requires events == before + [InitErase(c)] && w == Run(before) && Enabled(w, InitErase(c))
    requires Tells(w, before, c) && LifeMakesSense(w, c)
    ensures Tells(Step(w, InitErase(c)), events, c)
  {
    assert events[..|events| - 1] == before;
  }

  lemma ReturnErases(w: World, before: seq<Event>, events: seq<Event>, c: nat)
    requires events == before + [ReturnErase(c)] && w == Run(before) && Enabled(w, ReturnErase(c))
    requires Tells(w, before, c) && LifeMakesSense(w, c)
    ensures Tells(Step(w, ReturnErase(c)), events, c)
  {
    assert events[..|events| - 1] == before;
  }

  // ---- one step ----

  // Of the coroutines that count, no two have the same subscription; and one whose subscription is
  // that of a coroutine that may yet erase a second time was dispatched after the first.
  ghost predicate Apart(events: seq<Event>) {
    forall c, d :: Counts(events, c) && Counts(events, d) && Run(events).lives[c].sub == Run(events).lives[d].sub ==> c == d
  }

  ghost predicate CameAfter(events: seq<Event>, d: nat, c: nat) {
    var w := Run(events);
    Counts(events, c) && d in w.lives && w.lives[c].sub == w.lives[d].sub ==>
      && (InitErased(events, d) && !w.lives[d].unlisted ==> DispatchedAfter(events, InitErase(d), c))
      && (ReturnErased(events, d) && !w.lives[d].settled ==> DispatchedAfter(events, ReturnErase(d), c))
  }

  ghost predicate Sound(events: seq<Event>) {
    AllListed(events) && Apart(events) && forall d, c :: CameAfter(events, d, c)
  }

  // A subscription is listed when it is chosen, whether a coroutine comes of it or not.
  predicate Lists(e: Event, x: Sub) {
    (e.Dispatch? && e.sub == x) || e == ChooseInVain(x)
  }

  // What an event does to the list.
  lemma ListAfter(w: World, e: Event)
    requires Inv(w) && Enabled(w, e)
    ensures forall x :: x in Step(w, e).tables.suspended <==>
      (x in w.tables.suspended && !(exists c :: ErasesNow(w, e, c) && w.lives[c].sub == x)) || Lists(e, x)
  {
    if e.InitErase? || e.ReturnErase? {
      EraseIsWithout(w.tables.suspended, w.lives[e.c].sub);
      assert LifeMakesSense(w, e.c);
      assert ErasesNow(w, e, e.c) || Step(w, e).tables.suspended == w.tables.suspended;
    }
  }

  lemma NewcomerCounts(before: seq<Event>, e: Event)
    requires e.Dispatch? && Enabled(Run(before), e)
    ensures Counts(before + [e], e.c) && e.c !in Run(before).lives
  {
    LivesTell(before, e.c);
  }

  // Who erases while another of the same subscription counts takes that one's entry.
  lemma OnlyTheSecondTakes(before: seq<Event>, e: Event, d: nat, c: nat)
    requires Sound(before) && ErasesNow(Run(before), e, d) && Counts(before, c) && c != d
    requires Run(before).lives[c].sub == Run(before).lives[d].sub
    ensures TakesEntryOf(before, e, d, c)
  {
    LivesTell(before, d);
    assert Erased(before, d);
    assert CameAfter(before, d, c);
  }

  lemma StaysListed(before: seq<Event>, e: Event, c: nat)
    requires Sound(before) && Enabled(Run(before), e) && Counts(before + [e], c)
    requires forall d, x :: !TakesEntryOf(before, e, d, x)
    ensures Step(Run(before), e).lives[c].sub in Step(Run(before), e).tables.suspended
  {
    var w := RunKeeps(before);
    ListAfter(w, e);
    if Counts(before, c) {
      forall d | ErasesNow(w, e, d) && w.lives[d].sub == w.lives[c].sub ensures false {
        if d != c { OnlyTheSecondTakes(before, e, d, c); }
      }
    }
  }

  lemma StillCameAfter(before: seq<Event>, e: Event, d: nat, c: nat)
    requires Sound(before) && Enabled(Run(before), e)
    ensures CameAfter(before + [e], d, c)
  {
    var w := RunKeeps(before);
    var events := before + [e];
    assert events[..|events| - 1] == before;
    LivesTell(before, d);
    LivesTell(events, d);
    assert CameAfter(before, d, c);
  }

  lemma StepIsSound(before: seq<Event>, e: Event)
    requires Sound(before) && forall d, c :: !TakesEntryOf(before, e, d, c)
    ensures Sound(before + [e])
  {
    var events := before + [e];
    assert events[..|events| - 1] == before;
    if Enabled(Run(before), e) {
      forall c | Counts(events, c) ensures Run(events).lives[c].sub in Run(events).tables.suspended { StaysListed(before, e, c); }
      forall c, d | Counts(events, c) && Counts(events, d) && Run(events).lives[c].sub == Run(events).lives[d].sub
        ensures c == d {}
      forall d, c ensures CameAfter(events, d, c) { StillCameAfter(before, e, d, c); }
    } else {
      NothingHappens(before, e);
    }
  }

  lemma NothingHappens(before: seq<Event>, e: Event)
    requires Sound(before) && !Enabled(Run(before), e)
    ensures Sound(before + [e])
  {
    var events := before + [e];
    assert events[..|events| - 1] == before;
    forall c ensures Counts(events, c) <==> Counts(before, c) {}
    forall d, c ensures CameAfter(events, d, c) {
      assert CameAfter(before, d, c);
    }
  }

  // Taking another's entry leaves that one without.
  lemma TakingUnlists(before: seq<Event>, e: Event, d: nat, c: nat)
    requires TakesEntryOf(before, e, d, c)
    ensures !AllListed(before + [e])
  {
    var w := RunKeeps(before);
    var events := before + [e];
    assert events[..|events| - 1] == before;
    LivesTell(before, d);
    LivesTell(before, c);
    ListAfter(w, e);
    assert ErasesNow(w, e, d);
    assert Erased(before, d) && c != d;
    assert Counts(events, c);
  }

  // ---- the main result ----

  lemma {:induction false} SoundUnlessTaken(events: seq<Event>)
    requires NobodyTakesAnothers(events)
    ensures Sound(events)
  {
    if events != [] {
      var before, e := events[..|events| - 1], events[|events| - 1];
      forall k, d, c | 0 <= k < |before| ensures !TakesEntryOf(before[..k], before[k], d, c) {
        assert before[..k] == events[..k];
        assert !TakesEntryOf(events[..k], events[k], d, c);
      }
      assert events[..|before|] == before && before + [e] == events;
      SoundUnlessTaken(before);
      forall d, c ensures !TakesEntryOf(before, e, d, c) {
        assert !TakesEntryOf(events[..|before|], events[|before|], d, c);
      }
      StepIsSound(before, e);
    }
  }

  // At every moment of a run the list holds the subscription of every coroutine that has not taken
  // it off itself, if and only if no coroutine takes the entry of another one, dispatched since the
  // first erased its own, by erasing it a second time.
  lemma ListedUnlessTaken(events: seq<Event>)
    ensures ListedThroughout(events) <==> NobodyTakesAnothers(events)
  {
    if NobodyTakesAnothers(events) {
      forall k | 0 <= k <= |events| ensures AllListed(events[..k]) {
        NobodyTakesBefore(events, k);
        SoundUnlessTaken(events[..k]);
      }
    } else {
      var k, d, c :| 0 <= k < |events| && TakesEntryOf(events[..k], events[k], d, c);
      TakingUnlists(events[..k], events[k], d, c);
      assert events[..k] + [events[k]] == events[..k + 1];
    }
  }

  lemma NobodyTakesBefore(events: seq<Event>, n: nat)
    requires n <= |events| && NobodyTakesAnothers(events)
    ensures NobodyTakesAnothers(events[..n])
  {
    var before := events[..n];
    forall k, d, c | 0 <= k < |before| ensures !TakesEntryOf(before[..k], before[k], d, c) {
      assert before[..k] == events[..k];
      assert !TakesEntryOf(events[..k], events[k], d, c);
    }
  }

  // Then the subscription of a coroutine that has not returned is passed over, and no second
  // coroutine is dispatched for it.
  lemma UnreturnedIsPassedOver(events: seq<Event>, c: nat)
    requires NobodyTakesAnothers(events) && c in Run(events).lives && !Run(events).lives[c].promise.returned
    ensures var w := Run(events);
      && w.lives[c].sub in w.tables.suspended
      && forall x, tid :: !Enabled(w, Dispatch(x, w.lives[c].sub, tid))
  {
    SoundUnlessTaken(events);
    LivesTell(events, c);
    var w := RunKeeps(events);
    assert LifeMakesSense(w, c);
    assert Counts(events, c);
  }
}
