/**
 * Several idle threads beside one queue of entries: who retires what, and who may block.
 */
module CoroutineIdle {

  import opened Wrappers
  import opened CoroutineTables
  import opened CoroutineRun
  import opened CoroutineResults

  // The coroutine that registered the oldest entry.
  function Oldest(w: World): nat
    requires w.tables.queue != [] && w.tables.queue[0].1 < |w.owners|
  {
    w.owners[w.tables.queue[0].1]
  }

  // What an idle thread does depends on the coroutine of the oldest entry only: its own thread waits
  // for it as long as it is suspended, and retires the entry after; any other thread may block.
  lemma IdleTellsOldest(events: seq<Event>, tid: Thread)
    requires Run(events).tables.queue != []
    ensures var w := Run(events);
      && w.tables.queue[0].1 < |w.owners| == |w.tables.ready| && Oldest(w) in w.lives
      && var life := w.lives[Oldest(w)];
      && (IdleAction(w.tables, tid) == Poll <==> life.tid == tid && Suspended(w, Oldest(w)))
      && (IdleAction(w.tables, tid) == Retire <==> life.tid == tid && life.finished)
      && (IdleAction(w.tables, tid) == Block <==> life.tid != tid)
  {
    var w := RunKeeps(events);
    assert LifeMakesSense(w, Oldest(w));
  }

  // A thread may block beside a suspended coroutine of its own exactly if the oldest entry is another
  // thread's; that one was registered before, and may have returned long ago.
  lemma BlocksBesideItsOwn(events: seq<Event>, c: nat)
    requires Suspended(Run(events), c)
    ensures var w := Run(events);
      && w.tables.queue != [] && w.tables.queue[0].1 < |w.owners| == |w.tables.ready| && Oldest(w) in w.lives
      && (IdleAction(w.tables, w.lives[c].tid) == Block <==> w.lives[Oldest(w)].tid != w.lives[c].tid)
      && (IdleAction(w.tables, w.lives[c].tid) == Block ==>
            w.lives[Oldest(w)].promise.vecId < w.lives[c].promise.vecId)
  {
    var w := RunKeeps(events);
    SuspendedIsQueued(events, c);
    IdleTellsOldest(events, w.lives[c].tid);
    assert LifeMakesSense(w, c);
  }

  lemma Extend(events: seq<Event>, e: Event) returns (more: seq<Event>)
    ensures more == events + [e] && Run(more) == Step(Run(events), e)
  {
    more := events + [e];
    assert more[..|more| - 1] == events;
  }

  // Thread 0 dispatches coroutine 1, thread 1 coroutine 2, and 1 returns.
  lemma BothRegister() returns (events: seq<Event>)
    ensures Run(events) == World(Tables([true, true], [(0, 0), (1, 1)], [5, 6]),
                    map[1 := Life(Promise(false, true, 0, Some(5)), 0, 5, Some(false), true, false, false, false, false),
                        2 := Life(Promise(false, true, 1, None), 1, 6, Some(false), true, false, false, false, false)], [1, 2])
  {
    events := Extend([], Dispatch(1, 5, 0));
    events := Extend(events, InitLook(1));
    events := Extend(events, InitLocked(1));
    events := Extend(events, InitStore(1));
    events := Extend(events, Dispatch(2, 6, 1));
    events := Extend(events, InitLook(2));
    events := Extend(events, InitLocked(2));
  }

  lemma FirstIsOver() returns (events: seq<Event>)
    ensures Run(events) == World(Tables([false, true], [(0, 0), (1, 1)], [6]),
                    map[1 := Life(Promise(true, true, 0, Some(5)), 0, 5, Some(false), true, false, true, true, false),
                        2 := Life(Promise(false, true, 1, None), 1, 6, Some(false), true, false, false, false, false)], [1, 2])
  {
    events := BothRegister();
    events := Extend(events, SetReturned(1));
    assert Erase([5, 6], 5) == [6];
    events := Extend(events, ReturnErase(1));
    events := Extend(events, ReturnFlag(1));
  }

  // Nobody but coroutine 2 is suspended, and yet its thread blocks, until thread 0 retires the entry
  // of the coroutine that has returned.
  lemma OwnCoroutineDoesNotKeepAwake()
    ensures exists events :: var w := Run(events);
      && Suspended(w, 2) && (forall c :: Suspended(w, c) ==> c == 2)
      && QueueIsTail(w.tables) && IdleAction(w.tables, w.lives[2].tid) == Block
  {
    var events := FirstIsOver();
    assert Suspended(Run(events), 2);
  }

  // ---- idle calls of several threads ----

  function Threads(queue: seq<(Thread, nat)>): (tids: seq<Thread>)
    ensures |tids| == |queue| && forall k :: 0 <= k < |queue| ==> tids[k] == queue[k].0
  {
    seq(|queue|, k requires 0 <= k < |queue| => queue[k].0)
  }

  predicate Subsequence(xs: seq<Thread>, ys: seq<Thread>) {
    xs == [] ||
    (ys != [] && ((xs[0] == ys[0] && Subsequence(xs[1..], ys[1..])) || Subsequence(xs, ys[1..])))
  }

  lemma {:induction false} WithoutTheFirst(xs: seq<Thread>, ys: seq<Thread>)
    requires xs != [] && Subsequence(xs, ys)
    ensures Subsequence(xs[1..], ys)
  {
    if xs[0] == ys[0] && Subsequence(xs[1..], ys[1..]) {
      if |xs| > 1 { WithoutTheFirst(xs[1..], ys[1..]); SkipOne(xs[1..], ys); }
    } else {
      WithoutTheFirst(xs, ys[1..]);
    }
  }

  lemma SkipOne(xs: seq<Thread>, ys: seq<Thread>)
    requires ys != [] && Subsequence(xs, ys[1..])
    ensures Subsequence(xs, ys)
  {
  }

  // The threads of `tids` idle in turn.
  function IdleCalls(t: Tables, tids: seq<Thread>): Tables
    requires QueueIsTail(t)
    decreases |tids|
  {
    if tids == [] then t else IdleCalls(AfterIdle(t, tids[0]), tids[1..])
  }

  // The first n entries can be retired by these calls: their coroutines have returned, and their
  // threads call in this order.
  predicate Retirable(t: Tables, n: nat, tids: seq<Thread>)
    requires QueueIsTail(t) && n <= |t.queue|
  {
    Subsequence(Threads(t.queue)[..n], tids) && forall k :: 0 <= k < n ==> !t.ready[t.queue[k].1]
  }

  // These calls retire the first n entries, and could retire no more.
  ghost predicate RetireMost(t: Tables, tids: seq<Thread>, n: nat)
    requires QueueIsTail(t)
  {
    && n <= |t.queue| && IdleCalls(t, tids) == t.(queue := t.queue[n..])
    && forall m: nat :: m <= |t.queue| ==> (Retirable(t, m, tids) <==> m <= n)
  }

  // Whoever idles in whichever order: the entries retired are the most that these calls can retire.
  lemma {:induction false} IdleCallsRetire(t: Tables, tids: seq<Thread>)
    requires QueueIsTail(t)
    ensures exists n :: RetireMost(t, tids, n)
    decreases |tids|
  {
    if tids == [] {
      assert RetireMost(t, tids, 0);
    } else {
      var t' := AfterIdle(t, tids[0]);
      IdleCallsRetire(t', tids[1..]);
      var n' :| RetireMost(t', tids[1..], n');
      var n := if IdleAction(t, tids[0]) == Retire then n' + 1 else n';
      forall m: nat | m <= |t.queue| ensures Retirable(t, m, tids) <==> m <= n {
        OneCall(t, tids, m, n');
      }
      assert RetireMost(t, tids, n);
    }
  }

  lemma OneCall(t: Tables, tids: seq<Thread>, m: nat, n': nat)
    requires QueueIsTail(t) && tids != [] && m <= |t.queue|
    requires var t' := AfterIdle(t, tids[0]);
      n' <= |t'.queue| && forall k: nat :: k <= |t'.queue| ==> (Retirable(t', k, tids[1..]) <==> k <= n')
    ensures Retirable(t, m, tids) <==> m <= if IdleAction(t, tids[0]) == Retire then n' + 1 else n'
  {
    var t' := AfterIdle(t, tids[0]);
    if m > 0 {
      var xs := Threads(t.queue)[..m];
      if IdleAction(t, tids[0]) == Retire {
        assert Threads(t'.queue)[..m - 1] == xs[1..];
        if Subsequence(xs, tids[1..]) { WithoutTheFirst(xs, tids[1..]); }
        assert Retirable(t', m - 1, tids[1..]) <==> Retirable(t, m, tids);
      } else if t.queue[0].0 == tids[0] {
        assert !Retirable(t, m, tids);
        assert !Retirable(t', m, tids[1..]);
      } else {
        assert Retirable(t', m, tids[1..]) <==> Retirable(t, m, tids);
      }
    }
  }
}
