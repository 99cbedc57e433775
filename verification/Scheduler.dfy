/**
 * The scheduler as it is written, each method under its lock.
 */
module Scheduler {

  import opened HeapSpec
  import opened SchedulerSpec

  class PriorityQueue {
    var heap: Heap

    constructor ()
      ensures heap == []
    {
      heap := [];
    }

    method Push(x: DelayedExecutable)
      modifies this
      ensures heap == HeapSpec.Push(old(heap), x)
    {
      heap := heap + [x];
      var i := |heap| - 1;
      while i > 0 && Below(heap[Parent(i)], heap[i])
        invariant 0 <= i < |heap|
        invariant SiftUp(heap, i) == HeapSpec.Push(old(heap), x)
      {
        heap := Swap(heap, i, Parent(i));
        i := Parent(i);
      }
    }

    method Pop()
      requires heap != []
      modifies this
      ensures heap == HeapSpec.Pop(old(heap))
    {
      var last := |heap| - 1;
      if last == 0 {
        heap := [];
        return;
      }
      heap := heap[..last][0 := heap[last]];
      var i := 0;
      while 2 * i + 1 < |heap| && Below(heap[i], heap[UpperChild(heap, i)])
        invariant 0 <= i < |heap|
        invariant SiftDown(heap, i) == HeapSpec.Pop(old(heap))
        decreases |heap| - i
      {
        var c := UpperChild(heap, i);
        heap := Swap(heap, i, c);
        i := c;
      }
    }
  }

  // How a turn of the worker under the lock ends.
  datatype Decision = Sleep | WaitFor(copy: DelayedExecutable, delay: int) | Run(executable: DelayedExecutable)

  predicate Sorted(xs: seq<DelayedExecutable>) {
    forall i, j :: 0 <= i < j < |xs| ==> xs[i].scheduledTime <= xs[j].scheduledTime
  }

  class Scheduler {
    const executableQueue: PriorityQueue
    var isActive: bool

    constructor ()
      ensures isActive && executableQueue.heap == [] && fresh(executableQueue)
    {
      executableQueue := new PriorityQueue();
      isActive := true;
    }

    // Says whether notify_one comes after the lock is released. `now` and `then_` are the two
    // readings of the clock.
    method Execute(id: nat, delay: int, now: int, then_: int) returns (needNotify: bool)
      modifies executableQueue
      ensures !isActive ==> !needNotify && executableQueue.heap == old(executableQueue.heap)
      ensures isActive ==>
        && needNotify == NeedNotify(old(executableQueue.heap), now, NotNegative(delay))
        && executableQueue.heap == HeapSpec.Push(old(executableQueue.heap), DelayedExecutable(id, then_ + NotNegative(delay)))
    {
      var atLeast0 := if delay < 0 then 0 else delay;
      if isActive {
        needNotify := executableQueue.heap == [] || executableQueue.heap[0].scheduledTime - now > atLeast0;
        executableQueue.Push(DelayedExecutable(id, then_ + atLeast0));
      } else {
        needNotify := false;
      }
    }

    method Shutdown(waitForComplete: bool)
      modifies this, executableQueue
      ensures !isActive
      ensures executableQueue.heap == if waitForComplete then old(executableQueue.heap) else []
    {
      isActive := false;
      if !waitForComplete { executableQueue.heap := []; }
    }

    // From taking the lock to the wait, or to the call.
    method Decide(now: int) returns (d: Decision)
      modifies executableQueue
      ensures old(executableQueue.heap) == [] ==> d == Sleep && executableQueue.heap == []
      ensures old(executableQueue.heap) != [] ==>
        var top := old(executableQueue.heap)[0];
        if top.scheduledTime > now
        then d == WaitFor(top, top.scheduledTime - now) && executableQueue.heap == old(executableQueue.heap)
        else d == Run(top) && executableQueue.heap == HeapSpec.Pop(old(executableQueue.heap))
    {
      if executableQueue.heap == [] { return Sleep; }
      var executable := executableQueue.heap[0];
      var delay := executable.scheduledTime - now;
      if delay > 0 { return WaitFor(executable, delay); }
      executableQueue.Pop();
      return Run(executable);
    }

    // run_loop once the scheduler is inactive and no other thread uses it: it calls everything that
    // is left, earliest first, none before its time, and ends. `late` is by how much each wait
    // overruns.
    method RunLoop(start: int, late: nat -> nat) returns (called: seq<DelayedExecutable>, at: seq<int>)
      requires !isActive && IsHeap(executableQueue.heap)
      modifies executableQueue
      ensures executableQueue.heap == []
      ensures multiset(called) == multiset(old(executableQueue.heap)) && Sorted(called)
      ensures OnTime(called, at)
    {
      var now := start;
      called, at := [], [];
      while executableQueue.heap != []
        invariant Going(called, executableQueue.heap, multiset(old(executableQueue.heap)))
        invariant OnTime(called, at)
        decreases |executableQueue.heap|
      {
        ghost var was := executableQueue.heap;
        OneMoreCalled(called, was, multiset(old(executableQueue.heap)));
        var d := Decide(now);
        var x := if d.Run? then d.executable else d.copy;
        if d.WaitFor? {
          now := now + d.delay + late(|called|);
          executableQueue.Pop();
        }
        called, at := called + [x], at + [now];
      }
    }
  }

  ghost predicate Going(called: seq<DelayedExecutable>, h: Heap, all: multiset<DelayedExecutable>) {
    && IsHeap(h) && Sorted(called)
    && multiset(called) + multiset(h) == all
    && forall k :: 0 <= k < |called| ==> Before(called[k], h)
  }

  ghost predicate OnTime(called: seq<DelayedExecutable>, at: seq<int>) {
    |at| == |called| && forall k :: 0 <= k < |at| ==> at[k] >= called[k].scheduledTime
  }

  lemma OneMoreCalled(called: seq<DelayedExecutable>, h: Heap, all: multiset<DelayedExecutable>)
    requires Going(called, h, all) && h != []
    ensures Going(called + [h[0]], Pop(h), all) && |Pop(h)| < |h|
  {
    PopKeepsHeap(h);
    TakenComesBefore(h);
    assert h[0] in multiset(h);
    assert |multiset(Pop(h))| < |multiset(h)|;
    var more := called + [h[0]];
    forall k | 0 <= k < |called| ensures called[k].scheduledTime <= h[0].scheduledTime && Before(called[k], Pop(h)) {
      assert Before(called[k], h);
      StillBefore(called[k], h);
    }
  }

  ghost predicate Before(x: DelayedExecutable, h: Heap) {
    forall k :: 0 <= k < |h| ==> x.scheduledTime <= h[k].scheduledTime
  }

  lemma TakenComesBefore(h: Heap)
    requires IsHeap(h) && h != []
    ensures Before(h[0], Pop(h))
  {
    forall k | 0 <= k < |h| ensures h[0].scheduledTime <= h[k].scheduledTime { TopIsEarliest(h, k); }
    StillBefore(h[0], h);
  }

  lemma StillBefore(x: DelayedExecutable, h: Heap)
    requires IsHeap(h) && h != [] && Before(x, h)
    ensures Before(x, Pop(h))
  {
    PopKeepsHeap(h);
    var rest := Pop(h);
    forall k | 0 <= k < |rest| ensures x.scheduledTime <= rest[k].scheduledTime {
      assert rest[k] in multiset(rest);
      assert rest[k] in multiset(h);
      var j :| 0 <= j < |h| && h[j] == rest[k];
    }
  }
}
