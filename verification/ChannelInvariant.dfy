/**
 * What every step of a channel keeps.
 *
 * The invariant has two queues, of the writers accepted and of the readers accepted, each without
 * those destroyed while suspended: who was resumed, then what is buffered, then who is suspended. The
 * lemmas on sequences come first, one for each way in which an element goes from one part of a queue
 * to the next; then the lemmas on worlds, one for each branch of a step; and then the runs.
 */
module ChannelInvariant {

  import opened Wrappers
  import opened ChannelSpec
  import opened ChannelRun

  // --- the invariant ---

  function Kept<V>(w: World<V>): seq<Writer<V>> {
    WithoutWriters(w.written, w.cancelledWriters)
  }

  function KeptReaders<V>(w: World<V>): seq<nat> {
    WithoutReaders(w.asked, w.cancelledReaders)
  }

  ghost predicate Shape<V>(w: World<V>) {
    var c := w.chan;
    && (w.phase == Open <==> c.active)
    && |c.buffer| <= Limit(c.capacity)
    && (c.writers != [] ==> |c.buffer| == Limit(c.capacity))
    && (c.readers != [] ==> c.buffer == [] && c.writers == [])
    && (w.phase == Closed ==> c.buffer == [] && c.writers == [] && c.readers == [])
    && (w.phase != Closed ==> w.dropped == [] && Abandoned(c.resumed) == [])
  }

  ghost predicate Names<V>(w: World<V>) {
    && Distinct(Ids(w.written)) && Distinct(w.asked)
    && (forall id :: id in w.cancelledWriters ==> id in Ids(w.written))
    && (forall id :: id in w.cancelledReaders ==> id in w.asked)
  }

  // Until the clean-up nothing is dropped; after it nothing is buffered or suspended.
  ghost predicate Fifo<V>(w: World<V>) {
    var c := w.chan;
    if w.phase == Closed then Values(Kept(w)) == Delivered(c.resumed) + w.dropped
    else Queue(Kept(w), c.resumed, c.buffer, c.writers)
  }

  ghost predicate Queue<V>(kept: seq<Writer<V>>, resumed: seq<Resumption<V>>, buffer: seq<V>, writers: seq<Writer<V>>) {
    Values(kept) == Delivered(resumed) + (buffer + Values(writers))
  }

  // The writers accepted were resumed in order, and the others are suspended, in order.
  ghost predicate InOrder<V>(kept: seq<Writer<V>>, resumed: seq<Resumption<V>>, writers: seq<Writer<V>>) {
    Ids(kept) == Completed(resumed) + Ids(writers)
  }

  // The readers accepted were served in order, then those given up, then those suspended.
  ghost predicate Asked<V>(kept: seq<nat>, resumed: seq<Resumption<V>>, readers: seq<nat>) {
    kept == Served(resumed) + (Abandoned(resumed) + readers)
  }

  ghost predicate Inv<V>(w: World<V>) {
    && Shape(w) && Names(w) && Fifo(w)
    && InOrder(Kept(w), w.chan.resumed, w.chan.writers)
    && Asked(KeptReaders(w), w.chan.resumed, w.chan.readers)
  }

  // --- small steps of the history ---

  lemma ReadLast<V>(rs: seq<Resumption<V>>, r: Resumption<V>)
    ensures Delivered(rs + [r]) == Delivered(rs) + if r.Deliver? then [r.value] else []
    ensures Served(rs + [r]) == Served(rs) + if r.Deliver? then [r.reader] else []
    ensures Abandoned(rs + [r]) == Abandoned(rs) + if r.Abandon? then [r.reader] else []
    ensures Completed(rs + [r]) == Completed(rs) + if r.Complete? then [r.writer] else []
  {
    assert (rs + [r])[..|rs|] == rs;
  }

  // A delivery and a completion, in either order.
  lemma ReadPair<V>(rs: seq<Resumption<V>>, pair: seq<Resumption<V>>, reader: nat, value: V, writer: nat)
    requires pair == [Deliver(reader, value), Complete(writer)] || pair == [Complete(writer), Deliver(reader, value)]
    ensures Delivered(rs + pair) == Delivered(rs) + [value]
    ensures Served(rs + pair) == Served(rs) + [reader]
    ensures Abandoned(rs + pair) == Abandoned(rs)
    ensures Completed(rs + pair) == Completed(rs) + [writer]
  {
    assert rs + pair == (rs + [pair[0]]) + [pair[1]];
    ReadLast(rs, pair[0]);
    ReadLast(rs + [pair[0]], pair[1]);
  }

  lemma AcceptWriter<V>(w: World<V>, writer: Writer<V>)
    requires Names(w) && writer.id !in Ids(w.written)
    ensures WithoutWriters(w.written + [writer], w.cancelledWriters) == Kept(w) + [writer]
    ensures Distinct(Ids(w.written + [writer]))
    ensures forall id :: id in Ids(w.written) ==> id in Ids(w.written + [writer])
  {
    WithoutWritersAppend(w.written, writer, w.cancelledWriters);
    assert Ids(w.written + [writer]) == Ids(w.written) + [writer.id];
  }

  // --- what an event does to the three orders ---

  lemma MoveHead<T>(before: seq<T>, x: T, rest: seq<T>)
    ensures before + ([x] + rest) == (before + [x]) + rest
  {
  }

  // The first of the waiting has been done.
  lemma Advance<T>(all: seq<T>, done: seq<T>, waiting: seq<T>, x: T, rest: seq<T>, done': seq<T>)
    requires all == done + waiting && waiting == [x] + rest && done' == done + [x]
    ensures all == done' + rest
  {
  }

  lemma FirstId<V>(writers: seq<Writer<V>>)
    requires writers != []
    ensures Ids(writers) == [writers[0].id] + Ids(writers[1..])
  {
    assert forall i :: 0 <= i < |writers| - 1 ==> writers[1..][i] == writers[i + 1];
  }

  lemma FirstValue<V>(writers: seq<Writer<V>>)
    requires writers != []
    ensures Values(writers) == [writers[0].value] + Values(writers[1..])
  {
    assert forall i :: 0 <= i < |writers| - 1 ==> writers[1..][i] == writers[i + 1];
  }

  lemma FirstWriter<V>(writers: seq<Writer<V>>)
    requires writers != []
    ensures Ids(writers) == [writers[0].id] + Ids(writers[1..])
    ensures Values(writers) == [writers[0].value] + Values(writers[1..])
  {
    FirstId(writers);
    FirstValue(writers);
  }

  lemma LastWriter<V>(writers: seq<Writer<V>>, w: Writer<V>)
    ensures Ids(writers + [w]) == Ids(writers) + [w.id]
    ensures Values(writers + [w]) == Values(writers) + [w.value]
  {
  }

  // A writer is accepted and its value goes straight to a reader.
  lemma HandOver<V>(kept: seq<Writer<V>>, asked: seq<nat>, resumed: seq<Resumption<V>>, w: Writer<V>, readers: seq<nat>)
    requires Queue(kept, resumed, [], []) && InOrder(kept, resumed, []) && Asked(asked, resumed, readers)
    requires readers != [] && Abandoned(resumed) == []
    ensures var resumed' := resumed + [Deliver(readers[0], w.value), Complete(w.id)];
      && Queue(kept + [w], resumed', [], []) && InOrder(kept + [w], resumed', [])
      && Asked(asked, resumed', readers[1..]) && Abandoned(resumed') == []
  {
    ReadPair(resumed, [Deliver(readers[0], w.value), Complete(w.id)], readers[0], w.value, w.id);
    LastWriter(kept, w);
    assert readers == [readers[0]] + readers[1..];
    MoveHead(Served(resumed), readers[0], readers[1..]);
  }

  // A writer is accepted and its value is buffered.
  lemma Enqueue<V>(kept: seq<Writer<V>>, asked: seq<nat>, resumed: seq<Resumption<V>>, w: Writer<V>, buffer: seq<V>)
    requires Queue(kept, resumed, buffer, []) && InOrder(kept, resumed, []) && Asked(asked, resumed, [])
    ensures var resumed' := resumed + [Complete(w.id)];
      && Queue(kept + [w], resumed', buffer + [w.value], []) && InOrder(kept + [w], resumed', [])
      && Asked(asked, resumed', []) && Abandoned(resumed') == Abandoned(resumed)
  {
    ReadLast(resumed, Complete(w.id));
    LastWriter(kept, w);
  }

  // A writer is accepted and suspended.
  lemma Suspend<V>(kept: seq<Writer<V>>, resumed: seq<Resumption<V>>, w: Writer<V>, buffer: seq<V>, writers: seq<Writer<V>>)
    requires Queue(kept, resumed, buffer, writers) && InOrder(kept, resumed, writers)
    ensures Queue(kept + [w], resumed, buffer, writers + [w]) && InOrder(kept + [w], resumed, writers + [w])
  {
    LastWriter(kept, w);
    LastWriter(writers, w);
  }

  // A reader takes the head of the buffer, and the first suspended writer fills the place.
  lemma Refill<V>(kept: seq<Writer<V>>, asked: seq<nat>, resumed: seq<Resumption<V>>, r: nat,
                  buffer: seq<V>, writers: seq<Writer<V>>)
    requires Queue(kept, resumed, buffer, writers) && InOrder(kept, resumed, writers) && Asked(asked, resumed, [])
    requires buffer != [] && writers != [] && Abandoned(resumed) == []
    ensures var resumed' := resumed + [Complete(writers[0].id), Deliver(r, buffer[0])];
      && Queue(kept, resumed', buffer[1..] + [writers[0].value], writers[1..])
      && InOrder(kept, resumed', writers[1..])
      && Asked(asked + [r], resumed', []) && Abandoned(resumed') == []
  {
    var resumed' := resumed + [Complete(writers[0].id), Deliver(r, buffer[0])];
    ReadPair(resumed, [Complete(writers[0].id), Deliver(r, buffer[0])], r, buffer[0], writers[0].id);
    FirstWriter(writers);
    RefilledBuffer(buffer, writers[0].value, Values(writers[1..]));
    Advance(Values(kept), Delivered(resumed), buffer + Values(writers), buffer[0],
            (buffer[1..] + [writers[0].value]) + Values(writers[1..]), Delivered(resumed'));
    Advance(Ids(kept), Completed(resumed), Ids(writers), writers[0].id, Ids(writers[1..]), Completed(resumed'));
  }

  lemma RefilledBuffer<V>(buffer: seq<V>, value: V, rest: seq<V>)
    requires buffer != []
    ensures buffer + ([value] + rest) == [buffer[0]] + ((buffer[1..] + [value]) + rest)
  {
  }

  // A reader takes the head of the buffer.
  lemma Dequeue<V>(kept: seq<Writer<V>>, asked: seq<nat>, resumed: seq<Resumption<V>>, r: nat, buffer: seq<V>)
    requires Queue(kept, resumed, buffer, []) && InOrder(kept, resumed, []) && Asked(asked, resumed, [])
    requires buffer != [] && Abandoned(resumed) == []
    ensures var resumed' := resumed + [Deliver(r, buffer[0])];
      && Queue(kept, resumed', buffer[1..], []) && InOrder(kept, resumed', [])
      && Asked(asked + [r], resumed', []) && Abandoned(resumed') == []
  {
    ReadLast(resumed, Deliver(r, buffer[0]));
    assert buffer + [] == [buffer[0]] + (buffer[1..] + []);
    MoveHead(Delivered(resumed), buffer[0], buffer[1..] + []);
  }

  // A reader takes the value of the first suspended writer.
  lemma Meet<V>(kept: seq<Writer<V>>, asked: seq<nat>, resumed: seq<Resumption<V>>, r: nat, writers: seq<Writer<V>>)
    requires Queue(kept, resumed, [], writers) && InOrder(kept, resumed, writers) && Asked(asked, resumed, [])
    requires writers != [] && Abandoned(resumed) == []
    ensures var resumed' := resumed + [Deliver(r, writers[0].value), Complete(writers[0].id)];
      && Queue(kept, resumed', [], writers[1..]) && InOrder(kept, resumed', writers[1..])
      && Asked(asked + [r], resumed', []) && Abandoned(resumed') == []
  {
    var resumed' := resumed + [Deliver(r, writers[0].value), Complete(writers[0].id)];
    ReadPair(resumed, [Deliver(r, writers[0].value), Complete(writers[0].id)], r, writers[0].value, writers[0].id);
    FirstWriter(writers);
    EmptyBuffer(Values(writers));
    EmptyBuffer(Values(writers[1..]));
    Advance(Values(kept), Delivered(resumed), Values(writers), writers[0].value, Values(writers[1..]), Delivered(resumed'));
    Advance(Ids(kept), Completed(resumed), Ids(writers), writers[0].id, Ids(writers[1..]), Completed(resumed'));
  }

  lemma EmptyBuffer<V>(values: seq<V>)
    ensures [] + values == values
  {
  }

  // --- one lemma per event ---

  lemma WriteKeeps<V>(w: World<V>, writer: Writer<V>)
    requires Inv(w) && w.chan.active && writer.id !in Ids(w.written)
    ensures Inv(Step(w, Write(writer)))
  {
    var c := w.chan;
    AcceptWriter(w, writer);
    if c.readers != [] {
      HandOver(Kept(w), KeptReaders(w), c.resumed, writer, c.readers);
    } else if |c.buffer| < Limit(c.capacity) {
      Enqueue(Kept(w), KeptReaders(w), c.resumed, writer, c.buffer);
    } else {
      Suspend(Kept(w), c.resumed, writer, c.buffer, c.writers);
    }
  }

  lemma AcceptReader<V>(w: World<V>, r: nat)
    requires Names(w) && r !in w.asked
    ensures WithoutReaders(w.asked + [r], w.cancelledReaders) == KeptReaders(w) + [r]
    ensures Distinct(w.asked + [r])
  {
    WithoutReadersAppend(w.asked, r, w.cancelledReaders);
  }

  lemma ReadBufferedKeeps<V>(w: World<V>, r: nat)
    requires Inv(w) && w.chan.active && r !in w.asked && w.chan.buffer != []
    ensures Inv(Step(w, Read(r)))
  {
    var c := w.chan;
    AcceptReader(w, r);
    if c.writers != [] {
      Refill(Kept(w), KeptReaders(w), c.resumed, r, c.buffer, c.writers);
    } else {
      Dequeue(Kept(w), KeptReaders(w), c.resumed, r, c.buffer);
    }
  }

  lemma ReadFromWriterKeeps<V>(w: World<V>, r: nat)
    requires Inv(w) && w.chan.active && r !in w.asked && w.chan.buffer == [] && w.chan.writers != []
    ensures Inv(Step(w, Read(r)))
  {
    var c := w.chan;
    AcceptReader(w, r);
    Meet(Kept(w), KeptReaders(w), c.resumed, r, c.writers);
  }

  lemma LineUp<V>(kept: seq<nat>, resumed: seq<Resumption<V>>, readers: seq<nat>, r: nat)
    requires Asked(kept, resumed, readers)
    ensures Asked(kept + [r], resumed, readers + [r])
  {
    var served, abandoned := Served(resumed), Abandoned(resumed);
    assert served + (abandoned + readers) + [r] == served + (abandoned + (readers + [r]));
  }

  lemma ReadSuspendsKeeps<V>(w: World<V>, r: nat)
    requires Inv(w) && w.chan.active && r !in w.asked && w.chan.buffer == [] && w.chan.writers == []
    ensures Inv(Step(w, Read(r)))
  {
    AcceptReader(w, r);
    LineUp(KeptReaders(w), w.chan.resumed, w.chan.readers, r);
  }

  // Before the clean-up, the writers kept are the done ones and then the suspended ones.
  lemma SuspendedAreLast<V>(kept: seq<Writer<V>>, resumed: seq<Resumption<V>>, buffer: seq<V>, writers: seq<Writer<V>>)
      returns (done: seq<Writer<V>>)
    requires Queue(kept, resumed, buffer, writers) && InOrder(kept, resumed, writers)
    ensures kept == done + writers
    ensures Ids(done) == Completed(resumed) && Values(done) == Delivered(resumed) + buffer
  {
    var n := |kept| - |writers|;
    done := kept[..n];
    forall i | n <= i < |kept| ensures kept[i] == writers[i - n] {
      assert kept[i].id == Ids(kept)[i] == Ids(writers)[i - n];
      assert kept[i].value == Values(kept)[i] == Values(writers)[i - n];
    }
    assert Values(done) == Values(kept)[..n];
  }

  lemma SplitParts<V>(a: seq<Writer<V>>, b: seq<Writer<V>>)
    ensures Ids(a + b) == Ids(a) + Ids(b) && Values(a + b) == Values(a) + Values(b)
  {
  }

  lemma OnlyOnce(a: seq<nat>, b: seq<nat>, id: nat)
    requires Distinct(a + b) && id in b
    ensures id !in a
  {
    var j :| 0 <= j < |b| && b[j] == id;
    assert (a + b)[|a| + j] == id;
    forall i | 0 <= i < |a| ensures a[i] != id { assert (a + b)[i] == a[i]; }
  }

  // The clauses again, from the writers that are done and those that are suspended.
  lemma JoinParts<V>(done: seq<Writer<V>>, resumed: seq<Resumption<V>>, buffer: seq<V>, writers: seq<Writer<V>>)
    requires Ids(done) == Completed(resumed) && Values(done) == Delivered(resumed) + buffer
    ensures Queue(done + writers, resumed, buffer, writers) && InOrder(done + writers, resumed, writers)
  {
    SplitParts(done, writers);
  }

  lemma CancelWriter<V>(kept: seq<Writer<V>>, resumed: seq<Resumption<V>>, buffer: seq<V>, writers: seq<Writer<V>>, id: nat)
    requires Queue(kept, resumed, buffer, writers) && InOrder(kept, resumed, writers)
    requires Distinct(Ids(kept)) && id in Ids(writers)
    ensures var kept', writers' := WithoutWriter(kept, id), WithoutWriter(writers, id);
      Queue(kept', resumed, buffer, writers') && InOrder(kept', resumed, writers')
  {
    var done := SuspendedAreLast(kept, resumed, buffer, writers);
    SplitParts(done, writers);
    OnlyOnce(Ids(done), Ids(writers), id);
    RemoveFromSuffix(done, writers, id);
    JoinParts(done, resumed, buffer, WithoutWriter(writers, id));
  }

  lemma {:induction false} NothingToRemove<V>(ws: seq<Writer<V>>, id: nat)
    requires id !in Ids(ws)
    ensures WithoutWriter(ws, id) == ws
  {
    RemoveFromSuffix(ws, [], id);
    assert ws + [] == ws;
  }

  lemma DestroyWriterKeeps<V>(w: World<V>, id: nat)
    requires Inv(w)
    ensures Inv(Step(w, DestroyWriter(id)))
  {
    var c := w.chan;
    FilteredIds(w.written, w.cancelledWriters);
    FilteredReaders(Ids(w.written), w.cancelledWriters);
    if id in Ids(c.writers) {
      assert id in Ids(Kept(w));
      OneMoreWriterOut(w.written, w.cancelledWriters, id);
      CancelWriter(Kept(w), c.resumed, c.buffer, c.writers, id);
    } else {
      NothingToRemove(c.writers, id);
    }
  }

  lemma CancelReader<V>(kept: seq<nat>, resumed: seq<Resumption<V>>, readers: seq<nat>, id: nat)
    requires Asked(kept, resumed, readers) && Distinct(kept) && id in readers
    ensures Asked(WithoutReader(kept, id), resumed, WithoutReader(readers, id))
  {
    var before := Served(resumed) + Abandoned(resumed);
    assert kept == before + readers;
    OnlyOnce(before, readers, id);
    RemoveReaderFromSuffix(before, readers, id);
  }

  lemma DestroyReaderKeeps<V>(w: World<V>, id: nat)
    requires Inv(w)
    ensures Inv(Step(w, DestroyReader(id)))
  {
    if id in w.chan.readers { DestroyWaitingReaderKeeps(w, id); } else { DestroyOtherReaderKeeps(w, id); }
  }

  lemma DestroyWaitingReaderKeeps<V>(w: World<V>, id: nat)
    requires Inv(w) && id in w.chan.readers
    ensures Inv(Step(w, DestroyReader(id)))
  {
    var c := w.chan;
    FilteredReaders(w.asked, w.cancelledReaders);
    assert id in KeptReaders(w);
    OneMoreReaderOut(w.asked, w.cancelledReaders, id);
    CancelReader(KeptReaders(w), c.resumed, c.readers, id);
  }

  lemma DestroyOtherReaderKeeps<V>(w: World<V>, id: nat)
    requires Inv(w) && id !in w.chan.readers
    ensures Step(w, DestroyReader(id)) == w
  {
    var readers := w.chan.readers;
    RemoveReaderFromSuffix(readers, [], id);
    assert readers + [] == readers;
  }

  lemma ReadCompleted<V>(rs: seq<Resumption<V>>, ws: seq<Writer<V>>)
    ensures var rs' := rs + Completions(ws);
      && Delivered(rs') == Delivered(rs) && Served(rs') == Served(rs) && Abandoned(rs') == Abandoned(rs)
      && Completed(rs') == Completed(rs) + Ids(ws)
  {
    ReadAppend(rs, Completions(ws));
    ReadCompletions(ws);
    var delivered, served, abandoned := Delivered(rs), Served(rs), Abandoned(rs);
    assert delivered + [] == delivered && served + [] == served && abandoned + [] == abandoned;
  }

  lemma ReadAbandoned<V>(rs: seq<Resumption<V>>, readers: seq<nat>)
    ensures var rs' := rs + Abandons<V>(readers);
      && Delivered(rs') == Delivered(rs) && Served(rs') == Served(rs) && Completed(rs') == Completed(rs)
      && Abandoned(rs') == Abandoned(rs) + readers
  {
    ReadAppend(rs, Abandons<V>(readers));
    ReadAbandons<V>(readers);
    var delivered, served, completed := Delivered(rs), Served(rs), Completed(rs);
    assert delivered + [] == delivered && served + [] == served && completed + [] == completed;
  }

  // What the clean-up adds to the history.
  lemma ReadCleanUp<V>(c: Chan<V>)
    ensures var resumed' := CleanUp(c).resumed;
      && Delivered(resumed') == Delivered(c.resumed)
      && Served(resumed') == Served(c.resumed)
      && Abandoned(resumed') == Abandoned(c.resumed) + c.readers
      && Completed(resumed') == Completed(c.resumed) + Ids(c.writers)
  {
    ReadCompleted(c.resumed, c.writers);
    ReadAbandoned(c.resumed + Completions(c.writers), c.readers);
  }

  lemma CleanUpKeeps<V>(w: World<V>)
    requires Inv(w) && w.phase == Closing
    ensures Inv(Step(w, CloseCleanUp))
  {
    ReadCleanUp(w.chan);
  }

  lemma StepKeeps<V>(w: World<V>, e: Event<V>)
    requires Inv(w)
    ensures Inv(Step(w, e))
  {
    match e {
      case Write(writer) => if w.chan.active && writer.id !in Ids(w.written) { WriteKeeps(w, writer); }
      case Read(r) =>
        if w.chan.active && r !in w.asked {
          if w.chan.buffer != [] {
            ReadBufferedKeeps(w, r);
          } else if w.chan.writers != [] {
            ReadFromWriterKeeps(w, r);
          } else {
            ReadSuspendsKeeps(w, r);
          }
        }
      case DestroyWriter(id) => DestroyWriterKeeps(w, id);
      case DestroyReader(id) => DestroyReaderKeeps(w, id);
      case CloseFlag =>
      case CloseCleanUp => if w.phase == Closing { CleanUpKeeps(w); }
    }
  }

  lemma StartKeeps<V>(capacity: Capacity)
    ensures Inv<V>(Start(capacity))
  {
  }

  lemma {:induction false} RunKeeps<V>(capacity: Capacity, events: seq<Event<V>>) returns (w: World<V>)
    ensures w == Run(capacity, events) && Inv(w)
  {
    if events == [] {
      StartKeeps<V>(capacity);
      w := Start(capacity);
    } else {
      var before := RunKeeps(capacity, events[..|events| - 1]);
      StepKeeps(before, events[|events| - 1]);
      w := Step(before, events[|events| - 1]);
    }
  }
}
