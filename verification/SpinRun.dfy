/**
 * Runs of one spinning thread: what re_execute pushes is run, in order, before anything else.
 */
module SpinRun {

  import opened Wrappers
  import opened CoroutineTables
  import opened SpinSpec

  // `pushed` is everything handed to re_execute, `executed` everything run, `dropped` the
  // resumptions taken but not run because cancel came in between.
  datatype Spin = Spin(
    tables: Tables, queue: seq<Resumption>, spinning: bool,
    pushed: seq<Resumption>, executed: seq<AnyExecutable>, dropped: seq<Resumption>)

  // One round: get_next_executable, then execute_any_executable. `arrived` is what other threads push
  // between its first look at the queue and its second, `meanwhile` what they push between the last
  // look and the execution; `stopped` says whether cancel comes there.
  datatype Event =
    | Push(r: Resumption)
    | Turn(tid: Thread, first: Offer, second: Offer, arrived: seq<Resumption>, cancelled: bool,
           meanwhile: seq<Resumption>, stopped: bool)
    | Change(tables: Tables)   // init or return of a coroutine

  function Executed(s: Spin, round: Round, arrived: seq<Resumption>, stopped: bool): Spin {
    var spinning := round.spinning && !stopped;
    Spin(round.tables, round.queue, spinning,
         if round.idle == None || round.idle == Some(Retire) then s.pushed else s.pushed + arrived,
         if spinning && round.x != Nothing then s.executed + [round.x] else s.executed,
         if !spinning && round.x.Coroutine? then s.dropped + [round.x.resumption] else s.dropped)
  }

  function Pushed(s: Spin, rs: seq<Resumption>): Spin {
    s.(queue := s.queue + rs, pushed := s.pushed + rs)
  }

  // The loop turns only while spinning.
  function Step(s: Spin, e: Event): Spin {
    match e
    case Push(r) => Pushed(s, [r])
    case Change(tables) => s.(tables := tables)
    case Turn(tid, first, second, arrived, cancelled, meanwhile, stopped) =>
      if !s.spinning || (OwnsFront(s.tables, tid) && s.tables.queue[0].1 >= |s.tables.ready|) then s else
      Pushed(Chosen(s, e), meanwhile)
  }

  // A turn but for what is pushed after its last look at the queue.
  function Chosen(s: Spin, e: Event): Spin
    requires e.Turn? && (OwnsFront(s.tables, e.tid) ==> s.tables.queue[0].1 < |s.tables.ready|)
  {
    Executed(s, NextExecutable(s.tables, s.queue, s.spinning, e.tid, e.first, e.second, e.arrived, e.cancelled),
             e.arrived, e.stopped)
  }

  function Run(events: seq<Event>): Spin {
    if events == [] then Spin(Tables([], [], []), [], true, [], [], [])
    else Step(Run(events[..|events| - 1]), events[|events| - 1])
  }

  function Resumptions(xs: seq<AnyExecutable>): seq<Resumption> {
    if xs == [] then []
    else Resumptions(xs[..|xs| - 1]) + if xs[|xs| - 1].Coroutine? then [xs[|xs| - 1].resumption] else []
  }

  ghost predicate Conserved(s: Spin) {
    && s.pushed == Resumptions(s.executed) + s.dropped + s.queue
    && (s.spinning ==> s.dropped == [])
    && |s.dropped| <= 1
  }

  // One more executable run, given what is taken from the queue for it.
  lemma RanOneMore(executed: seq<AnyExecutable>, x: AnyExecutable, queue: seq<Resumption>, rest: seq<Resumption>)
    requires if x.Coroutine? then queue == [x.resumption] + rest else queue == rest
    ensures Resumptions(executed + [x]) + rest == Resumptions(executed) + queue
  {
    var more := executed + [x];
    assert more[..|more| - 1] == executed;
  }

  lemma Taken(queue: seq<Resumption>, suspended: seq<Sub>, offer: Offer)
    ensures var x := Choose(queue, suspended, offer);
      if x.Coroutine? then queue == [x.resumption] + (queue[1..]) else queue == []
  {
  }

  lemma FoundKeeps(s: Spin, t: Tables, queue: seq<Resumption>, offer: Offer, idle: Option<Idle>, arrived: seq<Resumption>, stopped: bool)
    requires s.spinning && s.dropped == []
    requires queue == if idle == None then s.queue else s.queue + arrived
    requires idle != Some(Retire)
    requires s.pushed == Resumptions(s.executed) + s.queue
    ensures Conserved(Executed(s, Found(t, queue, offer, idle, true), arrived, stopped))
  {
    var x := Choose(queue, t.suspended, offer);
    Taken(queue, t.suspended, offer);
    var rest := if x.Coroutine? then queue[1..] else queue;
    if idle != None { MoreBehind(Resumptions(s.executed), s.queue, arrived); }
    RanOneMore(s.executed, x, queue, rest);
    EndsConserved(s, Round(x, idle, t.(suspended := ListChosen(t.suspended, x)), rest, true), queue, arrived, stopped);
  }

  lemma EndsConserved(s: Spin, round: Round, queue: seq<Resumption>, arrived: seq<Resumption>, stopped: bool)
    requires s.spinning && s.dropped == [] && round.spinning && round.idle != Some(Retire)
    requires (if round.idle == None then s.pushed else s.pushed + arrived) == Resumptions(s.executed) + queue
    requires if round.x.Coroutine? then queue == [round.x.resumption] + round.queue else queue == round.queue
    requires Resumptions(s.executed + [round.x]) + round.queue == Resumptions(s.executed) + queue
    ensures Conserved(Executed(s, round, arrived, stopped))
  {
    var next, run := Executed(s, round, arrived, stopped), Resumptions(s.executed);
    if stopped && round.x.Coroutine? {
      assert next == Spin(round.tables, round.queue, false, run + queue, s.executed, [round.x.resumption]);
      OneBetween(run, round.x.resumption, round.queue);
    } else {
      assert next.pushed == run + queue && next.queue == round.queue && next.dropped == [];
      NoneBetween(Resumptions(next.executed), round.queue);
    }
  }

  lemma OneBetween(run: seq<Resumption>, r: Resumption, rest: seq<Resumption>)
    ensures run + [r] + rest == run + ([r] + rest)
  {
  }

  lemma NoneBetween(run: seq<Resumption>, rest: seq<Resumption>)
    ensures run + [] + rest == run + rest
  {
  }

  lemma PushKeeps(s: Spin, rs: seq<Resumption>)
    requires Conserved(s)
    ensures Conserved(Pushed(s, rs))
  {
    MoreBehind(Resumptions(s.executed) + s.dropped, s.queue, rs);
  }

  lemma MoreBehind(done: seq<Resumption>, queue: seq<Resumption>, rs: seq<Resumption>)
    ensures done + (queue + rs) == done + queue + rs
  {
  }

  lemma {:induction false} EverythingPushedIsRun(events: seq<Event>)
    ensures Conserved(Run(events))
  {
    if events != [] {
      var s, e := Run(events[..|events| - 1]), events[|events| - 1];
      EverythingPushedIsRun(events[..|events| - 1]);
      match e
      case Push(r) => PushKeeps(s, [r]);
      case Change(_) =>
      case Turn(tid, _, _, _, _, meanwhile, _) =>
        if s.spinning && (OwnsFront(s.tables, tid) ==> s.tables.queue[0].1 < |s.tables.ready|) {
          TurnKeeps(s, e);
          PushKeeps(Chosen(s, e), meanwhile);
        }
    }
  }

  lemma TurnKeeps(s: Spin, e: Event)
    requires Conserved(s) && s.spinning && e.Turn?
    requires OwnsFront(s.tables, e.tid) ==> s.tables.queue[0].1 < |s.tables.ready|
    ensures Conserved(Chosen(s, e))
  {
    NoneBetween(Resumptions(s.executed), s.queue);
    if Choose(s.queue, s.tables.suspended, e.first) != Nothing {
      FoundKeeps(s, s.tables, s.queue, e.first, None, e.arrived, e.stopped);
    } else if IdleAction(s.tables, e.tid) != Retire && !e.cancelled {
      FoundKeeps(s, s.tables, s.queue + e.arrived, e.second, Some(IdleAction(s.tables, e.tid)), e.arrived, e.stopped);
    }
  }

  // While spinning: everything pushed has been run, in order, or is still queued, in order.
  lemma {:induction false} PushedIsExecutedThenQueued(events: seq<Event>)
    requires Run(events).spinning
    ensures Run(events).pushed == Resumptions(Run(events).executed) + Run(events).queue
  {
    EverythingPushedIsRun(events);
  }

  // Does the thread find nothing ready in this turn, and idle?
  predicate Idles(s: Spin, e: Event) {
    && e.Turn? && s.spinning && (OwnsFront(s.tables, e.tid) ==> s.tables.queue[0].1 < |s.tables.ready|)
    && Choose(s.queue, s.tables.suspended, e.first) == Nothing
  }

  // x was run between s and t: it is the oldest resumption not run by then, or all that was pushed has
  // been run except what came after the last look; and it is no subscription that was listed.
  ghost predicate Ran(s: Spin, t: Spin, x: AnyExecutable, after: seq<Resumption>) {
    && t.executed == s.executed + [x]
    && (x.Coroutine? ==> Resumptions(s.executed) + [x.resumption] <= t.pushed)
    && (!x.Coroutine? ==> t.pushed == Resumptions(t.executed) + after)
    && (x.Subscription? ==> x.handle.sub !in s.tables.suspended)
  }

  lemma TurnRuns(s: Spin, e: Event) returns (x: AnyExecutable)
    requires Conserved(s) && s.spinning && e.Turn?
    requires OwnsFront(s.tables, e.tid) ==> s.tables.queue[0].1 < |s.tables.ready|
    requires Chosen(s, e).executed != s.executed
    ensures Ran(s, Pushed(Chosen(s, e), e.meanwhile), x, e.meanwhile)
  {
    TurnKeeps(s, e);
    var u := Chosen(s, e);
    x := u.executed[|s.executed|];
    assert u.executed == s.executed + [x] && u.spinning && u.dropped == [];
    assert !x.Coroutine? ==> u.queue == [];
    assert u.executed[..|s.executed|] == s.executed;
  }

  // In any run, what is executed next is the oldest resumption not yet run; anything else is executed
  // only if everything pushed up to the last look at the queue has been run; and a thread starts to
  // idle only if everything pushed up to its first look has.
  lemma {:induction false} ResumptionsComeFirst(events: seq<Event>, e: Event)
    ensures var s, t := Run(events), Run(events + [e]);
      t.executed == s.executed || (e.Turn? && exists x :: Ran(s, t, x, e.meanwhile))
    ensures Idles(Run(events), e) ==> Run(events).pushed == Resumptions(Run(events).executed)
  {
    var s := Run(events);
    assert (events + [e])[..|events + [e]| - 1] == events;
    EverythingPushedIsRun(events);
    if Step(s, e).executed != s.executed { var x := TurnRuns(s, e); }
  }

  // ---- what the turns list ----

  // What the turns have put on the list of suspended subscriptions, whatever has been erased since.
  function Listed(events: seq<Event>): seq<Sub> {
    if events == [] then []
    else
      var s, t := Run(events[..|events| - 1]).tables, Run(events).tables;
      Listed(events[..|events| - 1]) +
      if events[|events| - 1].Turn? && |s.suspended| <= |t.suspended| then t.suspended[|s.suspended|..] else []
  }

  // The subscriptions with coroutines among what was executed.
  function CoroutineSubs(xs: seq<AnyExecutable>): seq<Sub> {
    if xs == [] then []
    else
      var x := xs[|xs| - 1];
      CoroutineSubs(xs[..|xs| - 1]) + if x.Subscription? && x.handle.useCoroutine then [x.handle.sub] else []
  }

  // The subscription that the round chose and listed, if any.
  lemma TurnLists(s: Spin, e: Event) returns (sub: Option<Sub>)
    requires s.spinning && e.Turn?
    requires OwnsFront(s.tables, e.tid) ==> s.tables.queue[0].1 < |s.tables.ready|
    ensures var u, subs := Chosen(s, e), if sub == None then [] else [sub.value];
      && u.tables.suspended == s.tables.suspended + subs
      && CoroutineSubs(u.executed) == CoroutineSubs(s.executed) + if u.spinning then subs else []
  {
    var u := Chosen(s, e);
    var x := NextExecutable(s.tables, s.queue, s.spinning, e.tid, e.first, e.second, e.arrived, e.cancelled).x;
    sub := if x.Subscription? && x.handle.useCoroutine then Some(x.handle.sub) else None;
    if u.executed != s.executed {
      assert u.executed == s.executed + [x];
      assert u.executed[..|s.executed|] == s.executed;
    }
  }

  // In any run, the subscriptions with coroutines that were executed are those listed by the turns, in
  // order, but for the last one listed: it may be left out, and only after cancel.
  lemma {:induction false} ListedIsExecuted(events: seq<Event>)
    ensures var listed, executed := Listed(events), CoroutineSubs(Run(events).executed);
      if Run(events).spinning then executed == listed
      else executed == listed || (listed != [] && executed == listed[..|listed| - 1])
  {
    if events != [] {
      var s, e := Run(events[..|events| - 1]), events[|events| - 1];
      ListedIsExecuted(events[..|events| - 1]);
      if e.Turn? && s.spinning && (OwnsFront(s.tables, e.tid) ==> s.tables.queue[0].1 < |s.tables.ready|) {
        var sub := TurnLists(s, e);
        assert Run(events).tables == Chosen(s, e).tables && Run(events).executed == Chosen(s, e).executed;
      }
    }
  }

  // And it happens: 5 is listed with nothing run for it and no flag registered.
  lemma ListedButNotRun()
    ensures exists events :: Run(events).tables == Tables([], [], [5]) && Run(events).executed == []
  {
    var offer := Offer(None, [Handle(5, false, true)], None, None, None);
    var e := Turn(0, offer, offer, [], false, [], true);
    assert [e][..0] == [];
    assert NextSubscription(offer.subscriptions, []) == Some(Handle(5, false, true));
    assert Choose([], [], offer) == Subscription(Handle(5, false, true));
    var events := [e];
    assert Run(events) == Step(Run([]), e);
    assert Chosen(Run([]), e) == Spin(Tables([], [], [5]), [], false, [], [], []);
    assert Run(events).tables == Tables([], [], [5]) && Run(events).executed == [];
  }
}
