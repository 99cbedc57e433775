/**
 * The executor's coroutine tables and what TaskPromise does to them, on values.
 *
 * A flag for each coroutine that was ever registered says whether it is still to return. A queue
 * holds, in the order of registration, the threads that dispatched them, each with the index of its
 * flag, until an idle call of that thread finds the flag down. A list holds the subscriptions that
 * have a coroutine suspended and are not to be dispatched.
 */
module CoroutineTables {

  import opened Wrappers

  type Sub = nat      // the address of a subscription
  type Thread = int

  datatype Tables = Tables(
    ready: seq<bool>,                   // has_ready_coroutine_vec_
    queue: seq<(Thread, nat)>,          // free_thread_pid_queue_
    suspended: seq<Sub>)                // suspend_coroutine_list_

  // `sub` is None until promise_executor_init has stored it.
  datatype Promise = Promise(returned: bool, linked: bool, vecId: int, sub: Option<Sub>)

  function NewPromise(): Promise {
    Promise(false, false, -1, None)
  }

  // The erase loop from position `at`. After an erase the iterator is stepped once more than the
  // list; stepping it off the end leads, through the list's sentinel, back to the beginning.
  function EraseFrom(list: seq<Sub>, at: nat, s: Sub): seq<Sub>
    requires at <= |list|
    decreases |list|, |list| - at
  {
    if at == |list| then list
    else if list[at] != s then EraseFrom(list, at + 1, s)
    else
      var rest := list[..at] + list[at + 1..];
      if at == |rest| then EraseFrom(rest, 0, s) else EraseFrom(rest, at + 1, s)
  }

  function Erase(list: seq<Sub>, s: Sub): seq<Sub> {
    EraseFrom(list, 0, s)
  }

  // promise_executor_init, the part under executer_ptr_lock, given what it saw of has_returned.
  function Register(t: Tables, p: Promise, seen: bool, tid: Thread): (Tables, Promise) {
    if seen then (t, p.(linked := true))
    else
      (t.(queue := t.queue + [(tid, |t.ready|)], ready := t.ready + [true]),
       p.(linked := true, vecId := |t.ready|))
  }

  // Then the subscription is stored, with no lock.
  function StoreSub(p: Promise, s: Sub): Promise {
    p.(sub := Some(s))
  }

  // return_value under executer_ptr_lock, the part under the list's lock: the subscription, if it is
  // stored, is erased.
  function Unlist(t: Tables, p: Promise): Tables {
    if p.linked && p.sub.Some? then t.(suspended := Erase(t.suspended, p.sub.value)) else t
  }

  // The end of promise_executor_init: has_returned is looked at with no lock, and if it is set the
  // subscription is erased under the list's. It stays set, so that the look and the erasure are one.
  function EraseIfReturned(t: Tables, p: Promise): Tables {
    if p.linked && p.returned then Unlist(t, p) else t
  }

  // return_value, before any lock.
  function MarkReturned(p: Promise): Promise {
    p.(returned := true)
  }

  // The index return_value is about to write, if it writes one, is an index.
  predicate InBounds(t: Tables, p: Promise) {
    p.linked ==> 0 <= p.vecId < |t.ready|
  }

  // Still under executer_ptr_lock: the part under co_vec_mutex_.
  function LowerFlag(t: Tables, p: Promise): Tables
    requires InBounds(t, p)
  {
    if p.linked then t.(ready := t.ready[p.vecId := false]) else t
  }

  // What a thread does when it found nothing to run.
  datatype Idle = Poll | Retire | Block

  predicate OwnsFront(t: Tables, tid: Thread) {
    t.queue != [] && t.queue[0].0 == tid
  }

  function IdleAction(t: Tables, tid: Thread): Idle
    requires OwnsFront(t, tid) ==> t.queue[0].1 < |t.ready|
  {
    if OwnsFront(t, tid) then (if t.ready[t.queue[0].1] then Poll else Retire) else Block
  }

  function AfterIdle(t: Tables, tid: Thread): Tables
    requires OwnsFront(t, tid) ==> t.queue[0].1 < |t.ready|
  {
    if IdleAction(t, tid) == Retire then t.(queue := t.queue[1..]) else t
  }

  // --- the erase loop on a list without repetitions ---

  ghost predicate Distinct(list: seq<Sub>) {
    forall i, j :: 0 <= i < j < |list| ==> list[i] != list[j]
  }

  // The list without s, the others in their order.
  function Without(list: seq<Sub>, s: Sub): seq<Sub> {
    if list == [] then []
    else if list[0] == s then Without(list[1..], s)
    else [list[0]] + Without(list[1..], s)
  }

  lemma {:induction false} EraseNothing(list: seq<Sub>, at: nat, s: Sub)
    requires at <= |list| && s !in list
    ensures EraseFrom(list, at, s) == list
    decreases |list| - at
  {
    if at < |list| { EraseNothing(list, at + 1, s); }
  }

  lemma {:induction false} EraseTheOne(list: seq<Sub>, at: nat, k: nat, s: Sub)
    requires at <= k < |list| && list[k] == s && Distinct(list)
    ensures EraseFrom(list, at, s) == list[..k] + list[k + 1..]
    decreases k - at
  {
    if at < k {
      EraseTheOne(list, at + 1, k, s);
    } else {
      var rest := list[..k] + list[k + 1..];
      EraseNothing(rest, if k == |rest| then 0 else k + 1, s);
    }
  }

  lemma {:induction false} WithoutNothing(list: seq<Sub>, s: Sub)
    requires s !in list
    ensures Without(list, s) == list
  {
    if list != [] { WithoutNothing(list[1..], s); }
  }

  lemma {:induction false} WithoutTheOne(list: seq<Sub>, k: nat, s: Sub)
    requires k < |list| && list[k] == s && Distinct(list)
    ensures Without(list, s) == list[..k] + list[k + 1..]
  {
    if k == 0 {
      WithoutNothing(list[1..], s);
    } else {
      assert list[1..][k - 1] == s;
      WithoutTheOne(list[1..], k - 1, s);
      assert list[..k] + list[k + 1..] == [list[0]] + (list[1..][..k - 1] + list[1..][k..]);
    }
  }

  // The loop ends, wherever the match is, with s gone and the other entries in their order.
  lemma EraseIsWithout(list: seq<Sub>, s: Sub)
    requires Distinct(list)
    ensures Erase(list, s) == Without(list, s)
    ensures Distinct(Erase(list, s)) && s !in Erase(list, s)
    ensures forall x :: x in Erase(list, s) <==> x in list && x != s
  {
    if s in list {
      var k :| 0 <= k < |list| && list[k] == s;
      EraseTheOne(list, 0, k, s);
      WithoutTheOne(list, k, s);
      var rest := list[..k] + list[k + 1..];
      forall x ensures x in rest <==> x in list && x != s {
        if x in list && x != s {
          var i :| 0 <= i < |list| && list[i] == x;
          assert rest[if i < k then i else i - 1] == x;
        }
      }
    } else {
      EraseNothing(list, 0, s);
      WithoutNothing(list, s);
    }
  }
}
