/**
 * Subscriptions that are listed as suspended although no coroutine of theirs is there to erase them.
 */
module CoroutineVain {

  import opened Wrappers
  import opened CoroutineTables
  import opened CoroutineRun
  import opened CoroutineResults
  import opened CoroutineListing

  // Event e takes x off the list, if it is there.
  predicate ErasesSub(w: World, e: Event, x: Sub) {
    (e.InitErase? || e.ReturnErase?) && ErasesNow(w, e, e.c) && w.lives[e.c].sub == x
  }

  // x was chosen in vain, and nobody has erased it since.
  predicate InVain(events: seq<Event>, x: Sub) {
    events != [] &&
    var before, e := events[..|events| - 1], events[|events| - 1];
    (e == ChooseInVain(x) && Enabled(Run(before), e)) || (InVain(before, x) && !ErasesSub(Run(before), e, x))
  }

  // A coroutine of subscription x has not erased it.
  ghost predicate Belongs(events: seq<Event>, x: Sub) {
    exists c :: Counts(events, c) && Run(events).lives[c].sub == x
  }

  ghost predicate AllBelong(events: seq<Event>) {
    forall x :: x in Run(events).tables.suspended ==> Belongs(events, x)
  }

  ghost predicate BelongThroughout(events: seq<Event>) {
    forall k :: 0 <= k <= |events| ==> AllBelong(events[..k])
  }

  // ---- one event ----

  lemma ListedAfter(w: World, e: Event, x: Sub)
    requires Inv(w)
    ensures x in Step(w, e).tables.suspended <==>
      (x in w.tables.suspended && !ErasesSub(w, e, x)) || (Enabled(w, e) && Lists(e, x))
  {
    if Enabled(w, e) {
      ListAfter(w, e);
      assert (exists c :: ErasesNow(w, e, c) && w.lives[c].sub == x) <==> ErasesSub(w, e, x);
    }
  }

  lemma StillBelongs(before: seq<Event>, e: Event, x: Sub)
    requires Belongs(before, x) && !ErasesSub(Run(before), e, x)
    ensures Belongs(before + [e], x)
  {
    var c :| Counts(before, c) && Run(before).lives[c].sub == x;
    LifeStays(Run(before), e, c);
    StillCounts(before, e, c);
  }

  lemma LifeStays(w: World, e: Event, c: nat)
    requires c in w.lives
    ensures c in Step(w, e).lives && Step(w, e).lives[c].sub == w.lives[c].sub
  {
  }

  lemma StillCounts(before: seq<Event>, e: Event, c: nat)
    requires Counts(before, c) && c in Step(Run(before), e).lives && !ErasesNow(Run(before), e, c)
    ensures Counts(before + [e], c) && Run(before + [e]) == Step(Run(before), e)
  {
    var events := before + [e];
    assert events[..|events| - 1] == before;
  }

  lemma BelongedBefore(before: seq<Event>, e: Event, x: Sub)
    requires Belongs(before + [e], x)
    ensures Belongs(before, x) || (e.Dispatch? && e.sub == x && Enabled(Run(before), e))
  {
    var events := before + [e];
    assert events[..|events| - 1] == before;
    var c :| Counts(events, c) && Run(events).lives[c].sub == x;
    if c in Run(before).lives { assert Counts(before, c); }
  }

  // What belongs to a coroutine stays so until it is erased, and otherwise only a dispatch makes it so.
  lemma BelongsAfter(before: seq<Event>, e: Event, x: Sub)
    ensures Belongs(before, x) && !ErasesSub(Run(before), e, x) ==> Belongs(before + [e], x)
    ensures e.Dispatch? && e.sub == x && Enabled(Run(before), e) ==> Belongs(before + [e], x)
    ensures Belongs(before + [e], x) ==> Belongs(before, x) || (e.Dispatch? && e.sub == x && Enabled(Run(before), e))
  {
    if Belongs(before, x) && !ErasesSub(Run(before), e, x) { StillBelongs(before, e, x); }
    if e.Dispatch? && e.sub == x && Enabled(Run(before), e) {
      NewcomerCounts(before, e);
      OneEvent(before, e);
      assert Counts(before + [e], e.c);
    }
    if Belongs(before + [e], x) { BelongedBefore(before, e, x); }
  }

  // ---- whose the entries are ----

  // In every run, whatever takes what from whom: a subscription chosen in vain is listed until it is
  // erased, and one that is listed is that of a coroutine that has not erased it, or was chosen in vain
  // and not erased since. Once both init and return of a coroutine have had their turn at the list, it
  // has erased.
  lemma {:induction false} ListedBelongs(events: seq<Event>)
    ensures forall x :: InVain(events, x) ==> x in Run(events).tables.suspended
    ensures forall x :: x in Run(events).tables.suspended ==> Belongs(events, x) || InVain(events, x)
    ensures forall c :: c in Run(events).lives && Run(events).lives[c].settled && Run(events).lives[c].unlisted ==>
              Erased(events, c)
  {
    if events != [] {
      var before, e := events[..|events| - 1], events[|events| - 1];
      assert events == before + [e];
      ListedBelongs(before);
      var w := RunKeeps(before);
      forall x ensures InVain(events, x) ==> x in Run(events).tables.suspended
               ensures x in Run(events).tables.suspended ==> Belongs(events, x) || InVain(events, x)
      {
        ListedAfter(w, e, x);
        BelongsAfter(before, e, x);
      }
    }
    forall c | c in Run(events).lives ensures Tells(Run(events), events, c) { LivesTell(events, c); }
  }

  // If nobody takes another's entry, the list holds exactly the subscriptions of the coroutines that
  // have not erased theirs and those chosen in vain and not erased since, and none is both.
  lemma {:induction false} ListIsExactly(events: seq<Event>)
    requires NobodyTakesAnothers(events)
    ensures forall x :: x in Run(events).tables.suspended <==> Belongs(events, x) || InVain(events, x)
    ensures forall x :: !(Belongs(events, x) && InVain(events, x))
  {
    ListedBelongs(events);
    SoundUnlessTaken(events);
    if events != [] {
      var before, e := events[..|events| - 1], events[|events| - 1];
      assert events == before + [e];
      NobodyTakesBefore(events, |before|);
      ListIsExactly(before);
      forall x ensures !(Belongs(events, x) && InVain(events, x)) { BelongsAfter(before, e, x); }
    }
  }

  // ---- when every entry is somebody's ----

  // A choice in vain of a subscription that belongs to nobody.
  ghost predicate VainForNobody(events: seq<Event>, e: Event) {
    e.ChooseInVain? && Enabled(Run(events), e) && !Belongs(events, e.sub)
  }

  ghost predicate NeverForNobody(events: seq<Event>) {
    forall k :: 0 <= k < |events| ==> !VainForNobody(events[..k], events[k])
  }

  lemma StepBelongs(before: seq<Event>, e: Event)
    requires AllBelong(before)
    ensures AllBelong(before + [e]) <==> !VainForNobody(before, e)
  {
    var w := RunKeeps(before);
    var events := before + [e];
    assert events[..|events| - 1] == before;
    forall x ensures x in Run(events).tables.suspended && !Belongs(events, x) <==> VainForNobody(before, e) && e == ChooseInVain(x) {
      ListedAfter(w, e, x);
      BelongsAfter(before, e, x);
    }
  }

  // In every run: every entry is that of a coroutine that has not erased it, at every moment, if and
  // only if no subscription that belongs to nobody is chosen in vain.
  lemma {:induction false} BelongUnlessInVain(events: seq<Event>)
    ensures BelongThroughout(events) <==> NeverForNobody(events)
  {
    if events == [] {
      assert events[..0] == [];
    } else {
      var before, e := events[..|events| - 1], events[|events| - 1];
      assert events == before + [e] && events[..|events|] == events;
      BelongUnlessInVain(before);
      forall k | 0 <= k <= |before| ensures before[..k] == events[..k] {}
      assert BelongThroughout(events) <==> BelongThroughout(before) && AllBelong(events);
      assert NeverForNobody(events) <==> NeverForNobody(before) && !VainForNobody(before, e);
      if BelongThroughout(before) {
        assert before[..|before|] == before;
        StepBelongs(before, e);
      }
    }
  }

  ghost predicate NothingInVain(events: seq<Event>) {
    forall k :: 0 <= k < |events| ==> !(events[k].ChooseInVain? && Enabled(Run(events[..k]), events[k]))
  }

  // If nobody takes another's entry, that is if and only if no choice is in vain at all.
  lemma BelongUnlessAnyInVain(events: seq<Event>)
    requires NobodyTakesAnothers(events)
    ensures BelongThroughout(events) <==> NothingInVain(events)
  {
    BelongUnlessInVain(events);
    forall k | 0 <= k < |events| && events[k].ChooseInVain? && Enabled(Run(events[..k]), events[k])
      ensures VainForNobody(events[..k], events[k])
    {
      NobodyTakesBefore(events, k);
      SoundUnlessTaken(events[..k]);
    }
  }

  // ---- how long an entry stays ----

  lemma OneEvent(events: seq<Event>, e: Event)
    ensures Run(events + [e]) == Step(Run(events), e)
  {
    assert (events + [e])[..|events|] == events;
  }

  lemma NextEvent(events: seq<Event>, more: seq<Event>)
    requires more != []
    ensures Run(events + more) == Step(Run(events + more[..|more| - 1]), more[|more| - 1])
  {
    var before, e := more[..|more| - 1], more[|more| - 1];
    OneEvent(events + before, e);
    Regrouped(events, more);
  }

  lemma Regrouped<T>(events: seq<T>, more: seq<T>)
    requires more != []
    ensures events + more == (events + more[..|more| - 1]) + [more[|more| - 1]]
  {
  }

  // After `events`, event e does not erase x.
  predicate Spares(events: seq<Event>, e: Event, x: Sub) {
    !ErasesSub(Run(events), e, x)
  }

  // Nobody erases x in `more`, after `events`.
  ghost predicate Unerased(events: seq<Event>, more: seq<Event>, x: Sub) {
    forall k :: 0 <= k < |more| ==> Spares(events + more[..k], more[k], x)
  }

  lemma UnerasedBefore(events: seq<Event>, before: seq<Event>, e: Event, x: Sub)
    requires Unerased(events, before + [e], x)
    ensures Unerased(events, before, x) && Spares(events + before, e, x)
  {
    var more := before + [e];
    forall k | 0 <= k < |before| ensures Spares(events + before[..k], before[k], x) {
      assert before[..k] == more[..k];
      assert Spares(events + more[..k], more[k], x);
    }
    assert more[..|before|] == before;
    assert Spares(events + more[..|before|], more[|before|], x);
  }

  // The coroutines of x are those of w.
  ghost predicate NoNewcomer(w: World, w': World, x: Sub) {
    forall c :: c in w'.lives && w'.lives[c].sub == x ==> c in w.lives && w.lives[c].sub == x
  }

  lemma StepPassesOver(w: World, e: Event, x: Sub)
    requires Inv(w) && x in w.tables.suspended && !ErasesSub(w, e, x)
    ensures x in Step(w, e).tables.suspended && NoNewcomer(w, Step(w, e), x)
  {
    ListedAfter(w, e, x);
  }

  // Until somebody erases it a listed subscription is passed over: it stays listed, it is neither
  // dispatched nor chosen in vain, and whoever can erase it was dispatched before.
  lemma {:induction false} PassedOverUntilErased(events: seq<Event>, more: seq<Event>, x: Sub)
    requires x in Run(events).tables.suspended && Unerased(events, more, x)
    ensures var w := Run(events + more);
      && x in w.tables.suspended && NoNewcomer(Run(events), w, x)
      && (forall c, tid :: !Enabled(w, Dispatch(c, x, tid))) && !Enabled(w, ChooseInVain(x))
    decreases |more|
  {
    if more == [] {
      assert events + more == events;
    } else {
      var before, e := more[..|more| - 1], more[|more| - 1];
      assert more == before + [e];
      UnerasedBefore(events, before, e, x);
      PassedOverUntilErased(events, before, x);
      NextEvent(events, more);
      var w := RunKeeps(events + before);
      StepPassesOver(w, e, x);
    }
  }

  // Both init and return of every coroutine of x dispatched so far have had their turn at the list.
  ghost predicate AllOver(w: World, x: Sub) {
    forall c :: c in w.lives && w.lives[c].sub == x ==> w.lives[c].settled && w.lives[c].unlisted
  }

  lemma OverStays(w: World, e: Event, x: Sub)
    requires Inv(w) && x in w.tables.suspended && AllOver(w, x)
    ensures x in Step(w, e).tables.suspended && AllOver(Step(w, e), x)
  {
    ListedAfter(w, e, x);
  }

  lemma {:induction false} NobodyIsLeft(events: seq<Event>, more: seq<Event>, x: Sub)
    requires x in Run(events).tables.suspended && AllOver(Run(events), x)
    ensures x in Run(events + more).tables.suspended && AllOver(Run(events + more), x)
    decreases |more|
  {
    if more == [] {
      assert events + more == events;
    } else {
      var before, e := more[..|more| - 1], more[|more| - 1];
      NobodyIsLeft(events, before, x);
      NextEvent(events, more);
      var w := RunKeeps(events + before);
      OverStays(w, e, x);
    }
  }

  // Parts of c's that are still to come.
  function PartsLeft(life: Life): nat {
    (if life.promise.returned then 0 else 1) + (if life.finished then 0 else 1) + (if life.looked.Some? then 0 else 1) +
    (if life.registered then 0 else 1) + (if life.promise.sub.Some? then 0 else 1)
  }

  // What c does next on the way to an erasure.
  function NextPart(c: nat, life: Life): Event {
    if !life.promise.returned then SetReturned(c)
    else if life.unlisted && !life.finished then ReturnFlag(c)
    else if life.looked.None? then InitLook(c)
    else if !life.registered then InitLocked(c)
    else if life.promise.sub.None? then InitStore(c)
    else if !life.settled then InitErase(c)
    else ReturnErase(c)
  }

  lemma NextPartGoesOn(w: World, c: nat)
    requires Inv(w) && c in w.lives && !(w.lives[c].settled && w.lives[c].unlisted)
    ensures var life, e, w' := w.lives[c], NextPart(c, w.lives[c]), Step(w, NextPart(c, w.lives[c]));
      && Enabled(w, e) && c in w'.lives && w'.lives[c].sub == life.sub
      && (e == InitErase(c) || e == ReturnErase(c) ==> life.sub !in w'.tables.suspended)
      && (e != InitErase(c) && e != ReturnErase(c) ==>
            w'.lives[c].settled == life.settled && w'.lives[c].unlisted == life.unlisted
            && PartsLeft(w'.lives[c]) < PartsLeft(life))
  {
    var life, e := w.lives[c], NextPart(c, w.lives[c]);
    assert LifeMakesSense(w, c);
    ListedAfter(w, e, life.sub);
  }

  lemma {:induction false} SomebodyCanErase(events: seq<Event>, c: nat) returns (more: seq<Event>)
    requires c in Run(events).lives && !(Run(events).lives[c].settled && Run(events).lives[c].unlisted)
    ensures Run(events).lives[c].sub !in Run(events + more).tables.suspended
    decreases PartsLeft(Run(events).lives[c])
  {
    var w := RunKeeps(events);
    var e := NextPart(c, w.lives[c]);
    NextPartGoesOn(w, c);
    assert (events + [e])[..|events|] == events;
    if e == InitErase(c) || e == ReturnErase(c) {
      more := [e];
    } else {
      var rest := SomebodyCanErase(events + [e], c);
      more := [e] + rest;
      assert events + more == (events + [e]) + rest;
    }
  }

  // A listed subscription is passed over for good, whatever comes, if and only if both init and return of
  // every coroutine of it dispatched so far have had their turn at the list: of one that was chosen in
  // vain before any coroutine of it, say.
  lemma PassedOverForGood(events: seq<Event>, x: Sub)
    requires x in Run(events).tables.suspended
    ensures (forall more: seq<Event> :: x in Run(events + more).tables.suspended) <==> AllOver(Run(events), x)
  {
    if AllOver(Run(events), x) {
      forall more: seq<Event> ensures x in Run(events + more).tables.suspended { NobodyIsLeft(events, more, x); }
    } else {
      var c :| c in Run(events).lives && Run(events).lives[c].sub == x &&
               !(Run(events).lives[c].settled && Run(events).lives[c].unlisted);
      var more := SomebodyCanErase(events, c);
    }
  }

  // There is such a run: nothing is there to take for the first choice of subscription 5, and it is
  // never dispatched again.
  lemma ChosenInVainForGood()
    ensures exists events ::
      && InVain(events, 5) && Run(events).lives == map[]
      && forall more: seq<Event> :: 5 in Run(events + more).tables.suspended
  {
    var events := [ChooseInVain(5)];
    assert events[..0] == [];
    assert InVain(events, 5);
    PassedOverForGood(events, 5);
  }
}
