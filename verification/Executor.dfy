/**
 * Executor and TaskPromise as they are written, as far as coroutines go.
 */
module Executor {

  import opened Wrappers
  import opened CoroutineTables
  import opened SpinSpec

  class Executor {
    var hasReadyCoroutineVec: seq<bool>
    var freeThreadPidQueue: seq<(Thread, nat)>
    var suspendCoroutineList: seq<Sub>
    var coroutineQueue: seq<Resumption>
    var spinning: bool
    var executed: seq<AnyExecutable>   // what has been run, in order

    function State(): Tables
      reads this
    {
      Tables(hasReadyCoroutineVec, freeThreadPidQueue, suspendCoroutineList)
    }

    // What a coroutine's init and return leave alone.
    function Others(): (seq<Resumption>, bool, seq<AnyExecutable>)
      reads this
    {
      (coroutineQueue, spinning, executed)
    }

    constructor ()
      ensures State() == Tables([], [], []) && coroutineQueue == [] && executed == [] && !spinning
    {
      hasReadyCoroutineVec, freeThreadPidQueue, suspendCoroutineList := [], [], [];
      coroutineQueue, executed, spinning := [], [], false;
    }

    // RosCoExecutor::re_execute
    method ReExecute(r: Resumption)
      modifies `coroutineQueue
      ensures coroutineQueue == old(coroutineQueue) + [r]
    {
      coroutineQueue := coroutineQueue + [r];
    }

    // The erase loop of return_value and promise_executor_init.
    method EraseSuspended(s: Sub)
      modifies `suspendCoroutineList
      ensures suspendCoroutineList == Erase(old(suspendCoroutineList), s)
    {
      var it := 0;
      while it != |suspendCoroutineList|
        invariant it <= |suspendCoroutineList|
        invariant EraseFrom(suspendCoroutineList, it, s) == Erase(old(suspendCoroutineList), s)
        decreases |suspendCoroutineList|, |suspendCoroutineList| - it
      {
        if suspendCoroutineList[it] == s {
          suspendCoroutineList := suspendCoroutineList[..it] + suspendCoroutineList[it + 1..];
        }
        // One step on; a step off the end goes through the list's sentinel to the beginning.
        it := if it == |suspendCoroutineList| then 0 else it + 1;
      }
    }

    method GetRestCoroutine() returns (r: Option<Resumption>)
      modifies `coroutineQueue
      ensures old(coroutineQueue) == [] ==> r == None && coroutineQueue == []
      ensures old(coroutineQueue) != [] ==>
                r == Some(old(coroutineQueue)[0]) && coroutineQueue == old(coroutineQueue)[1..]
    {
      r := None;
      if coroutineQueue != [] {
        r := Some(coroutineQueue[0]);
        coroutineQueue := coroutineQueue[1..];
      }
    }

    method GetNextSubscription(handles: seq<Handle>) returns (h: Option<Handle>)
      ensures h == NextSubscription(handles, suspendCoroutineList)
    {
      var it := 0;
      while it < |handles|
        invariant it <= |handles|
        invariant NextSubscription(handles[it..], suspendCoroutineList) == NextSubscription(handles, suspendCoroutineList)
      {
        if handles[it].sub !in suspendCoroutineList {
          return Some(handles[it]);
        }
        it := it + 1;
      }
      h := None;
    }

    method GetNextReadyExecutable(offer: Offer) returns (x: AnyExecutable)
      modifies `coroutineQueue, `suspendCoroutineList
      ensures x == Choose(old(coroutineQueue), old(suspendCoroutineList), offer)
      ensures coroutineQueue == if x.Coroutine? then old(coroutineQueue)[1..] else old(coroutineQueue)
      ensures suspendCoroutineList == ListChosen(old(suspendCoroutineList), x)
    {
      var r := GetRestCoroutine();
      if r.Some? {
        return Coroutine(r.value);
      }
      if offer.timer.Some? {
        return Timer(offer.timer.value);
      }
      var h := GetNextSubscription(offer.subscriptions);
      if h.Some? {
        if h.value.useCoroutine {
          suspendCoroutineList := suspendCoroutineList + [h.value.sub];
        }
        return Subscription(h.value);
      }
      if offer.service.Some? {
        return Service(offer.service.value);
      }
      if offer.client.Some? {
        return Client(offer.client.value);
      }
      if offer.waitable.Some? {
        return Waitable(offer.waitable.value);
      }
      x := Nothing;
    }

    method GetNextExecutable(tid: Thread, first: Offer, second: Offer, arrived: seq<Resumption>, cancelled: bool)
        returns (x: AnyExecutable, idle: Option<Idle>)
      requires OwnsFront(State(), tid) ==> freeThreadPidQueue[0].1 < |hasReadyCoroutineVec|
      modifies `coroutineQueue, `suspendCoroutineList, `freeThreadPidQueue, `spinning
      ensures Round(x, idle, State(), coroutineQueue, spinning) ==
              NextExecutable(old(State()), old(coroutineQueue), old(spinning), tid, first, second, arrived, cancelled)
    {
      idle := None;
      x := GetNextReadyExecutable(first);
      if x != Nothing {
        return;
      }
      if freeThreadPidQueue != [] && freeThreadPidQueue[0].0 == tid {
        if hasReadyCoroutineVec[freeThreadPidQueue[0].1] {
          // wait_free_wfk: a short sleep
          idle := Some(Poll);
          Wait(arrived, cancelled);
          if !spinning {
            return;
          }
          x := GetNextReadyExecutable(second);
        } else {
          idle := Some(Retire);
          freeThreadPidQueue := freeThreadPidQueue[1..];
        }
      } else {
        // wait_for_work: rcl_wait
        idle := Some(Block);
        Wait(arrived, cancelled);
        if !spinning {
          return;
        }
        x := GetNextReadyExecutable(second);
      }
    }

    // What other threads do to this executor while it waits.
    method Wait(arrived: seq<Resumption>, cancelled: bool)
      modifies `coroutineQueue, `spinning
      ensures coroutineQueue == old(coroutineQueue) + arrived && spinning == (old(spinning) && !cancelled)
    {
      coroutineQueue := coroutineQueue + arrived;
      spinning := spinning && !cancelled;
    }

    method ExecuteAnyExecutable(x: AnyExecutable)
      modifies `executed
      ensures executed == if spinning && x != Nothing then old(executed) + [x] else old(executed)
    {
      if !spinning {
        return;
      }
      if x != Nothing {
        executed := executed + [x];
      }
    }
  }

  class TaskPromise<R> {
    var result: Option<R>
    var executor: Executor?
    var hasReturned: bool
    var hasReadyCoroutineVecId: int
    var subNode: Option<Sub>

    function State(): Promise
      reads this
    {
      Promise(hasReturned, executor != null, hasReadyCoroutineVecId, subNode)
    }

    constructor ()
      ensures State() == NewPromise() && result == None && executor == null
    {
      result, executor, hasReturned, hasReadyCoroutineVecId, subNode := None, null, false, -1, None;
    }

    // promise_executor_init under executer_ptr_lock, on thread tid
    method InitLocked(e: Executor, tid: Thread)
      modifies `executor, `hasReadyCoroutineVecId, e`freeThreadPidQueue, e`hasReadyCoroutineVec
      ensures executor == e
      ensures (e.State(), State()) == Register(old(e.State()), old(State()), old(hasReturned), tid)
    {
      executor := e;
      if !hasReturned {
        hasReadyCoroutineVecId := |e.hasReadyCoroutineVec|;
        e.freeThreadPidQueue := e.freeThreadPidQueue + [(tid, |e.hasReadyCoroutineVec|)];
        e.hasReadyCoroutineVec := e.hasReadyCoroutineVec + [true];
      }
    }

    // then, with no lock, the subscription
    method InitStore(s: Sub)
      modifies `subNode
      ensures State() == StoreSub(old(State()), s)
    {
      subNode := Some(s);
    }

    // and at the end, the look at has_returned and the erasure under the list's lock
    method InitErase()
      modifies executor
      ensures executor != null ==> executor.Others() == old(executor.Others())
      ensures executor != null ==> executor.State() == EraseIfReturned(old(executor.State()), State())
    {
      if executor != null && hasReturned && subNode.Some? {
        executor.EraseSuspended(subNode.value);
      }
    }

    method PromiseExecutorInit(e: Executor, s: Sub, tid: Thread)
      modifies `executor, `hasReadyCoroutineVecId, `subNode, e
      ensures executor == e && e.Others() == old(e.Others())
      ensures var (t, p) := Register(old(e.State()), old(State()), old(hasReturned), tid);
              State() == StoreSub(p, s) && e.State() == EraseIfReturned(t, State())
    {
      InitLocked(e, tid);
      InitStore(s);
      InitErase();
    }

    // return_value before executer_ptr_lock
    method SetReturned(value: R)
      modifies `hasReturned, `result
      ensures State() == MarkReturned(old(State())) && result == Some(value)
    {
      hasReturned := true;
      result := Some(value);
    }

    // return_value under executer_ptr_lock, the part under the list's lock
    method ReturnErase()
      modifies executor
      ensures executor != null ==> executor.Others() == old(executor.Others())
      ensures executor != null ==> executor.State() == Unlist(old(executor.State()), State())
    {
      if executor != null && subNode.Some? {
        executor.EraseSuspended(subNode.value);
      }
    }

    // and the part under co_vec_mutex_. `astray` says that the flag written is not there; what that
    // write then hits is outside of the model. CoroutineResults.AstrayExactly says when.
    method ReturnFlag() returns (astray: bool)
      modifies executor
      ensures executor != null ==> executor.Others() == old(executor.Others())
      ensures executor == null ==> !astray
      ensures executor != null ==>
        && astray == !InBounds(old(executor.State()), State())
        && executor.State() == if astray then old(executor.State()) else LowerFlag(old(executor.State()), State())
    {
      astray := false;
      if executor != null {
        if 0 <= hasReadyCoroutineVecId < |executor.hasReadyCoroutineVec| {
          executor.hasReadyCoroutineVec := executor.hasReadyCoroutineVec[hasReadyCoroutineVecId := false];
        } else {
          astray := true;
        }
      }
    }

    method ReturnLocked() returns (astray: bool)
      modifies executor
      ensures executor != null ==> executor.Others() == old(executor.Others())
      ensures executor == null ==> !astray
      ensures executor != null ==>
        && astray == !InBounds(old(executor.State()), State())
        && var t := Unlist(old(executor.State()), State());
        && executor.State() == if astray then t else LowerFlag(t, State())
    {
      ReturnErase();
      astray := ReturnFlag();
    }

    method ReturnValue(value: R) returns (astray: bool)
      modifies `hasReturned, `result, executor
      ensures executor != null ==> executor.Others() == old(executor.Others())
      ensures State() == MarkReturned(old(State())) && result == Some(value)
      ensures executor == null ==> !astray
      ensures executor != null ==>
        && astray == !InBounds(old(executor.State()), State())
        && var t := Unlist(old(executor.State()), State());
        && executor.State() == if astray then t else LowerFlag(t, State())
    {
      SetReturned(value);
      astray := ReturnLocked();
    }
  }
}
