/**
 * A channel is one queue, readers are served in order, and no awaiter is lost or resumed twice.
 */
module ChannelFifo {

  import opened Wrappers
  import opened ChannelSpec
  import opened ChannelRun
  import opened ChannelInvariant

  // The buffer never exceeds the capacity; writers wait only on a full buffer; readers wait only
  // when there is nothing to read and nobody writing.
  lemma {:induction false} WaitersAndBuffer<V>(capacity: Capacity, events: seq<Event<V>>)
    ensures var c := Run(capacity, events).chan;
      && |c.buffer| <= Limit(capacity)
      && (c.writers != [] ==> |c.buffer| == Limit(capacity))
      && (c.readers != [] ==> c.buffer == [] && c.writers == [])
  {
    var w := RunKeeps(capacity, events);
  }

  // One queue: the values of the writers accepted and not cancelled are those delivered, then the
  // buffer, then those of the suspended writers, then, after the clean-up, those dropped by it.
  lemma OneQueue<V>(capacity: Capacity, events: seq<Event<V>>)
    ensures var w := Run(capacity, events);
      Values(Kept(w)) == Delivered(w.chan.resumed) + w.chan.buffer + Values(w.chan.writers) + w.dropped
  {
    var w := RunKeeps(capacity, events);
    QueueOf(w);
  }

  lemma QueueOf<V>(w: World<V>)
    requires Shape(w) && Fifo(w)
    ensures Values(Kept(w)) == Delivered(w.chan.resumed) + w.chan.buffer + Values(w.chan.writers) + w.dropped
  {
  }

  // The k-th reader served is the k-th that asked and was not cancelled, and what it gets is the
  // value of the k-th writer accepted and not cancelled.
  lemma KthReadGetsKthWrite<V>(capacity: Capacity, events: seq<Event<V>>, k: nat)
    requires k < |Served(Run(capacity, events).chan.resumed)|
    ensures var w := Run(capacity, events);
      && |Served(w.chan.resumed)| == |Delivered(w.chan.resumed)|
      && k < |KeptReaders(w)| && k < |Kept(w)|
      && Served(w.chan.resumed)[k] == KeptReaders(w)[k]
      && Delivered(w.chan.resumed)[k] == Kept(w)[k].value
  {
    var w := RunKeeps(capacity, events);
    SameLength(w.chan.resumed);
    assert Values(Kept(w))[k] == Kept(w)[k].value;
  }

  lemma {:induction false} SameLength<V>(rs: seq<Resumption<V>>)
    ensures |Served(rs)| == |Delivered(rs)|
  {
    if rs != [] { SameLength(rs[..|rs| - 1]); }
  }

  // No writer is stranded or resumed twice: one that was accepted is cancelled, or else is exactly
  // one of suspended and resumed, once. After the clean-up it is not suspended.
  lemma WritersAccountedFor<V>(capacity: Capacity, events: seq<Event<V>>)
    ensures var w := Run(capacity, events);
      && Distinct(Completed(w.chan.resumed) + Ids(w.chan.writers))
      && (forall id :: id in Completed(w.chan.resumed) + Ids(w.chan.writers) <==>
                       id in Ids(w.written) && id !in w.cancelledWriters)
      && (w.phase == Closed ==> w.chan.writers == [])
  {
    var w := RunKeeps(capacity, events);
    FilteredIds(w.written, w.cancelledWriters);
    FilteredReaders(Ids(w.written), w.cancelledWriters);
  }

  // Likewise for readers, whose resumption is with a value, or without one by the clean-up.
  lemma ReadersAccountedFor<V>(capacity: Capacity, events: seq<Event<V>>)
    ensures var w := Run(capacity, events);
      var all := Served(w.chan.resumed) + (Abandoned(w.chan.resumed) + w.chan.readers);
      && Distinct(all)
      && (forall id :: id in all <==> id in w.asked && id !in w.cancelledReaders)
      && (w.phase == Closed ==> w.chan.readers == [])
  {
    var w := RunKeeps(capacity, events);
    FilteredReaders(w.asked, w.cancelledReaders);
  }

  // A reader resumed without a value always finds the channel closed, so its empty result is never read.
  lemma AbandonedSeeClosed<V>(capacity: Capacity, events: seq<Event<V>>)
    ensures var w := Run(capacity, events); Abandoned(w.chan.resumed) != [] ==> !w.chan.active
  {
    var w := RunKeeps(capacity, events);
  }

  lemma ClosedStaysClosed<V>(w: World<V>, e: Event<V>)
    requires Inv(w) && w.phase == Closed
    ensures var w' := Step(w, e);
      && w'.phase == Closed
      && w'.chan.buffer == [] && w'.chan.writers == [] && w'.chan.readers == []
      && w'.chan.resumed == w.chan.resumed
  {
  }

  // After the clean-up the channel stays empty and resumes nobody, whatever follows.
  lemma {:induction false} ClosedForever<V>(capacity: Capacity, events: seq<Event<V>>, more: seq<Event<V>>)
    requires Run(capacity, events).phase == Closed
    ensures var w := Run(capacity, events + more);
      && w.phase == Closed
      && w.chan.buffer == [] && w.chan.writers == [] && w.chan.readers == []
      && w.chan.resumed == Run(capacity, events).chan.resumed
    decreases |more|
  {
    var all := events + more;
    if more == [] {
      assert all == events;
      var w := RunKeeps(capacity, events);
    } else {
      assert all[..|all| - 1] == events + more[..|more| - 1];
      ClosedForever(capacity, events, more[..|more| - 1]);
      var w := RunKeeps(capacity, all[..|all| - 1]);
      ClosedStaysClosed(w, all[|all| - 1]);
    }
  }
}
