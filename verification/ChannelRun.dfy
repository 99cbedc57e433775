/**
 * Runs of a channel: any interleaving of its locked sections with the unlocked step of close.
 *
 * Beside the channel, a run remembers who was accepted, in order, who was destroyed while suspended,
 * and what the clean-up gave up. The list of resumptions is read in four ways: the values delivered,
 * the readers served, the readers abandoned, and the writers completed. The lemmas here say how these
 * readings, and the lists without the destroyed awaiters, go with appending and removing.
 */
module ChannelRun {

  import opened Wrappers
  import opened ChannelSpec

  datatype Phase = Open | Closing | Closed

  // Beside the channel, what the run has seen: the writers and readers accepted, in order; those
  // cancelled while they were suspended; and the values given up when the channel was cleaned up.
  datatype World<V> = World(
    chan: Chan<V>,
    phase: Phase,
    written: seq<Writer<V>>,
    asked: seq<nat>,
    cancelledWriters: set<nat>,
    cancelledReaders: set<nat>,
    dropped: seq<V>)

  datatype Event<V> =
    | Write(writer: Writer<V>)
    | Read(reader: nat)
    | DestroyWriter(id: nat)
    | DestroyReader(id: nat)
    | CloseFlag
    | CloseCleanUp

  function Ids<V>(ws: seq<Writer<V>>): (ids: seq<nat>)
    ensures |ids| == |ws| && forall i :: 0 <= i < |ws| ==> ids[i] == ws[i].id
  {
    seq(|ws|, i requires 0 <= i < |ws| => ws[i].id)
  }

  function Values<V>(ws: seq<Writer<V>>): (vs: seq<V>)
    ensures |vs| == |ws| && forall i :: 0 <= i < |ws| ==> vs[i] == ws[i].value
  {
    seq(|ws|, i requires 0 <= i < |ws| => ws[i].value)
  }

  function Start<V>(capacity: Capacity): World<V> {
    World(New(capacity), Open, [], [], {}, {}, [])
  }

  // An awaiter is suspended once; a second suspension under the same name does not happen. A push
  // on a closed channel throws, and nothing is queued.
  function Step<V>(w: World<V>, e: Event<V>): (w': World<V>)
    ensures w'.chan.capacity == w.chan.capacity
  {
    match e
    case Write(writer) =>
      if !w.chan.active || writer.id in Ids(w.written) then w else
      w.(chan := PushWriter(w.chan, writer), written := w.written + [writer])
    case Read(reader) =>
      if !w.chan.active || reader in w.asked then w else
      w.(chan := PushReader(w.chan, reader), asked := w.asked + [reader])
    case DestroyWriter(id) =>
      w.(chan := w.chan.(writers := WithoutWriter(w.chan.writers, id)),
         cancelledWriters := if id in Ids(w.chan.writers) then w.cancelledWriters + {id} else w.cancelledWriters)
    case DestroyReader(id) =>
      w.(chan := w.chan.(readers := WithoutReader(w.chan.readers, id)),
         cancelledReaders := if id in w.chan.readers then w.cancelledReaders + {id} else w.cancelledReaders)
    case CloseFlag =>
      if !w.chan.active then w else w.(chan := w.chan.(active := false), phase := Closing)
    case CloseCleanUp =>
      if w.phase != Closing then w else
      w.(chan := CleanUp(w.chan), phase := Closed, dropped := w.chan.buffer + Values(w.chan.writers))
  }

  function Run<V>(capacity: Capacity, events: seq<Event<V>>): (w: World<V>)
    ensures w.chan.capacity == capacity
  {
    if events == [] then Start(capacity)
    else Step(Run(capacity, events[..|events| - 1]), events[|events| - 1])
  }

  // --- reading the history ---

  function WithoutWriters<V>(ws: seq<Writer<V>>, ids: set<nat>): seq<Writer<V>> {
    if ws == [] then []
    else if ws[0].id in ids then WithoutWriters(ws[1..], ids)
    else [ws[0]] + WithoutWriters(ws[1..], ids)
  }

  function WithoutReaders(rs: seq<nat>, ids: set<nat>): seq<nat> {
    if rs == [] then []
    else if rs[0] in ids then WithoutReaders(rs[1..], ids)
    else [rs[0]] + WithoutReaders(rs[1..], ids)
  }

  // The values handed to readers, in order.
  function Delivered<V>(rs: seq<Resumption<V>>): seq<V> {
    if rs == [] then []
    else Delivered(rs[..|rs| - 1]) + if rs[|rs| - 1].Deliver? then [rs[|rs| - 1].value] else []
  }

  // The readers they were handed to.
  function Served<V>(rs: seq<Resumption<V>>): seq<nat> {
    if rs == [] then []
    else Served(rs[..|rs| - 1]) + if rs[|rs| - 1].Deliver? then [rs[|rs| - 1].reader] else []
  }

  // The readers resumed with no value.
  function Abandoned<V>(rs: seq<Resumption<V>>): seq<nat> {
    if rs == [] then []
    else Abandoned(rs[..|rs| - 1]) + if rs[|rs| - 1].Abandon? then [rs[|rs| - 1].reader] else []
  }

  // The writers resumed.
  function Completed<V>(rs: seq<Resumption<V>>): seq<nat> {
    if rs == [] then []
    else Completed(rs[..|rs| - 1]) + if rs[|rs| - 1].Complete? then [rs[|rs| - 1].writer] else []
  }

  lemma {:induction false} ReadAppend<V>(rs: seq<Resumption<V>>, more: seq<Resumption<V>>)
    ensures Delivered(rs + more) == Delivered(rs) + Delivered(more)
    ensures Served(rs + more) == Served(rs) + Served(more)
    ensures Abandoned(rs + more) == Abandoned(rs) + Abandoned(more)
    ensures Completed(rs + more) == Completed(rs) + Completed(more)
  {
    if more == [] {
      assert rs + more == rs;
    } else {
      assert (rs + more)[..|rs + more| - 1] == rs + more[..|more| - 1];
      ReadAppend(rs, more[..|more| - 1]);
    }
  }

  lemma {:induction false} ReadCompletions<V>(ws: seq<Writer<V>>)
    ensures Delivered(Completions(ws)) == [] && Served(Completions(ws)) == [] && Abandoned(Completions(ws)) == []
    ensures Completed(Completions(ws)) == Ids(ws)
  {
    if ws != [] {
      var rs := Completions(ws);
      assert rs[..|rs| - 1] == Completions(ws[..|ws| - 1]);
      ReadCompletions(ws[..|ws| - 1]);
    }
  }

  lemma {:induction false} ReadAbandons<V>(readers: seq<nat>)
    ensures Delivered<V>(Abandons(readers)) == [] && Served<V>(Abandons(readers)) == []
    ensures Completed<V>(Abandons(readers)) == [] && Abandoned<V>(Abandons(readers)) == readers
  {
    if readers != [] {
      var rs: seq<Resumption<V>> := Abandons(readers);
      assert rs[..|rs| - 1] == Abandons(readers[..|readers| - 1]);
      ReadAbandons<V>(readers[..|readers| - 1]);
    }
  }

  // --- filters ---

  lemma {:induction false} WithoutWritersAppend<V>(ws: seq<Writer<V>>, w: Writer<V>, ids: set<nat>)
    ensures WithoutWriters(ws + [w], ids) == WithoutWriters(ws, ids) + if w.id in ids then [] else [w]
  {
    if ws == [] {
      assert (ws + [w])[1..] == [];
    } else {
      assert (ws + [w])[1..] == ws[1..] + [w];
      WithoutWritersAppend(ws[1..], w, ids);
    }
  }

  lemma {:induction false} WithoutReadersAppend(rs: seq<nat>, r: nat, ids: set<nat>)
    ensures WithoutReaders(rs + [r], ids) == WithoutReaders(rs, ids) + if r in ids then [] else [r]
  {
    if rs == [] {
      assert (rs + [r])[1..] == [];
    } else {
      assert (rs + [r])[1..] == rs[1..] + [r];
      WithoutReadersAppend(rs[1..], r, ids);
    }
  }

  lemma {:induction false} OneMoreWriterOut<V>(ws: seq<Writer<V>>, ids: set<nat>, id: nat)
    ensures WithoutWriters(ws, ids + {id}) == WithoutWriter(WithoutWriters(ws, ids), id)
  {
    if ws != [] { OneMoreWriterOut(ws[1..], ids, id); }
  }

  lemma {:induction false} OneMoreReaderOut(rs: seq<nat>, ids: set<nat>, id: nat)
    ensures WithoutReaders(rs, ids + {id}) == WithoutReader(WithoutReaders(rs, ids), id)
  {
    if rs != [] { OneMoreReaderOut(rs[1..], ids, id); }
  }

  lemma {:induction false} RemoveFromSuffix<V>(a: seq<Writer<V>>, b: seq<Writer<V>>, id: nat)
    requires id !in Ids(a)
    ensures WithoutWriter(a + b, id) == a + WithoutWriter(b, id)
  {
    if a == [] {
      assert a + b == b;
    } else {
      assert (a + b)[1..] == a[1..] + b;
      assert Ids(a)[0] == a[0].id;
      assert Ids(a[1..]) == Ids(a)[1..];
      RemoveFromSuffix(a[1..], b, id);
    }
  }

  lemma {:induction false} RemoveReaderFromSuffix(a: seq<nat>, b: seq<nat>, id: nat)
    requires id !in a
    ensures WithoutReader(a + b, id) == a + WithoutReader(b, id)
  {
    if a == [] {
      assert a + b == b;
    } else {
      assert (a + b)[1..] == a[1..] + b;
      RemoveReaderFromSuffix(a[1..], b, id);
    }
  }

  ghost predicate Distinct(ids: seq<nat>) {
    forall i, j :: 0 <= i < j < |ids| ==> ids[i] != ids[j]
  }

  // A filter keeps names distinct, and it keeps exactly the names it should.
  lemma {:induction false} FilteredReaders(rs: seq<nat>, ids: set<nat>)
    requires Distinct(rs)
    ensures Distinct(WithoutReaders(rs, ids))
    ensures forall id :: id in WithoutReaders(rs, ids) <==> id in rs && id !in ids
  {
    if rs != [] {
      FilteredReaders(rs[1..], ids);
      assert rs == [rs[0]] + rs[1..];
      assert rs[0] !in rs[1..];
    }
  }

  lemma {:induction false} FilteredIds<V>(ws: seq<Writer<V>>, ids: set<nat>)
    ensures Ids(WithoutWriters(ws, ids)) == WithoutReaders(Ids(ws), ids)
  {
    if ws != [] {
      assert Ids(ws)[1..] == Ids(ws[1..]);
      FilteredIds(ws[1..], ids);
    }
  }
}
