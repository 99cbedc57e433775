/**
 * What each locked section of Channel does, on values. Awaiters are named by numbers; resuming one
 * hands it to its executor, which is recorded as a resumption.
 */
module ChannelSpec {

  import opened Wrappers

  datatype Writer<V> = Writer(id: nat, value: V)

  datatype Resumption<V> =
    | Deliver(reader: nat, value: V)   // reader->resume(value)
    | Complete(writer: nat)            // writer->resume()
    | Abandon(reader: nat)             // reader->resume_unsafe(): no value

  datatype ChannelClosed = ChannelClosed

  // C++'s int.
  type Capacity = c: int | -0x8000_0000 <= c < 0x8000_0000

  datatype Chan<V> = Chan(
    capacity: Capacity,
    buffer: seq<V>,
    writers: seq<Writer<V>>,
    readers: seq<nat>,
    active: bool,
    resumed: seq<Resumption<V>>)

  // The buffer's size is unsigned, so a negative capacity is compared as if 2^64 were added to it.
  function Limit(capacity: Capacity): nat {
    if capacity >= 0 then capacity else capacity + 0x1_0000_0000_0000_0000
  }

  function New<V>(capacity: Capacity): Chan<V> {
    Chan(capacity, [], [], [], true, [])
  }

  function PushReader<V>(c: Chan<V>, r: nat): Chan<V>
    requires c.active
  {
    if c.buffer != [] then
      if c.writers != [] then
        c.(buffer := c.buffer[1..] + [c.writers[0].value],
           writers := c.writers[1..],
           resumed := c.resumed + [Complete(c.writers[0].id), Deliver(r, c.buffer[0])])
      else
        c.(buffer := c.buffer[1..], resumed := c.resumed + [Deliver(r, c.buffer[0])])
    else if c.writers != [] then
      c.(writers := c.writers[1..],
         resumed := c.resumed + [Deliver(r, c.writers[0].value), Complete(c.writers[0].id)])
    else
      c.(readers := c.readers + [r])
  }

  function PushWriter<V>(c: Chan<V>, w: Writer<V>): Chan<V>
    requires c.active
  {
    if c.readers != [] then
      c.(readers := c.readers[1..],
         resumed := c.resumed + [Deliver(c.readers[0], w.value), Complete(w.id)])
    else if |c.buffer| < Limit(c.capacity) then
      c.(buffer := c.buffer + [w.value], resumed := c.resumed + [Complete(w.id)])
    else
      c.(writers := c.writers + [w])
  }

  // list::remove takes out every occurrence.
  function WithoutWriter<V>(ws: seq<Writer<V>>, id: nat): seq<Writer<V>> {
    if ws == [] then []
    else if ws[0].id == id then WithoutWriter(ws[1..], id)
    else [ws[0]] + WithoutWriter(ws[1..], id)
  }

  function WithoutReader(rs: seq<nat>, id: nat): seq<nat> {
    if rs == [] then []
    else if rs[0] == id then WithoutReader(rs[1..], id)
    else [rs[0]] + WithoutReader(rs[1..], id)
  }

  // `at` are the places, in order, of the elements of `list` that are not gone, and `rest` is what is there.
  ghost predicate Rest<T>(list: seq<T>, gone: T -> bool, rest: seq<T>, at: seq<nat>) {
    && |at| == |rest|
    && (forall k :: 0 <= k < |at| ==> at[k] < |list| && rest[k] == list[at[k]])
    && (forall j, k :: 0 <= j < k < |at| ==> at[j] < at[k])
    && (forall i :: 0 <= i < |list| ==> (i in at <==> !gone(list[i])))
  }

  // Every element that is gone has left the list, and the others keep their order.
  ghost predicate Purged<T>(list: seq<T>, gone: T -> bool, rest: seq<T>) {
    exists at :: Rest(list, gone, rest, at)
  }

  function IsWriter<V>(id: nat): Writer<V> -> bool {
    (w: Writer<V>) => w.id == id
  }

  function IsReader(id: nat): nat -> bool {
    r => r == id
  }

  // Places of a tail, as places of the whole.
  function Later(at: seq<nat>): (later: seq<nat>)
    ensures |later| == |at| && forall k :: 0 <= k < |at| ==> later[k] == at[k] + 1
    ensures forall i: nat :: i in later <==> i > 0 && i - 1 in at
  {
    if at == [] then [] else [at[0] + 1] + Later(at[1..])
  }

  // From the tail of a list to the whole of it.
  lemma PurgedBefore<T>(list: seq<T>, gone: T -> bool, rest: seq<T>)
    requires list != [] && Purged(list[1..], gone, rest)
    ensures Purged(list, gone, if gone(list[0]) then rest else [list[0]] + rest)
  {
    var at :| Rest(list[1..], gone, rest, at);
    if gone(list[0]) { GoneBefore(list, gone, rest, at); } else { KeptBefore(list, gone, rest, at); }
  }

  lemma GoneBefore<T>(list: seq<T>, gone: T -> bool, rest: seq<T>, at: seq<nat>)
    requires list != [] && Rest(list[1..], gone, rest, at) && gone(list[0])
    ensures Rest(list, gone, rest, Later(at))
  {
  }

  lemma KeptBefore<T>(list: seq<T>, gone: T -> bool, rest: seq<T>, at: seq<nat>)
    requires list != [] && Rest(list[1..], gone, rest, at) && !gone(list[0])
    ensures Rest(list, gone, [list[0]] + rest, [0] + Later(at))
  {
  }

  lemma {:induction false} WithoutWriterIsPurged<V>(ws: seq<Writer<V>>, id: nat)
    ensures Purged(ws, IsWriter(id), WithoutWriter(ws, id))
  {
    if ws == [] {
      assert Rest(ws, IsWriter(id), [], []);
    } else {
      WithoutWriterIsPurged(ws[1..], id);
      PurgedBefore(ws, IsWriter(id), WithoutWriter(ws[1..], id));
    }
  }

  lemma {:induction false} WithoutReaderIsPurged(rs: seq<nat>, id: nat)
    ensures Purged(rs, IsReader(id), WithoutReader(rs, id))
  {
    if rs == [] {
      assert Rest(rs, IsReader(id), [], []);
    } else {
      WithoutReaderIsPurged(rs[1..], id);
      PurgedBefore(rs, IsReader(id), WithoutReader(rs[1..], id));
    }
  }

  function Completions<V>(ws: seq<Writer<V>>): (rs: seq<Resumption<V>>)
    ensures |rs| == |ws|
    ensures forall i :: 0 <= i < |ws| ==> rs[i] == Complete(ws[i].id)
  {
    seq(|ws|, i requires 0 <= i < |ws| => Complete(ws[i].id))
  }

  function Abandons<V>(readers: seq<nat>): (rs: seq<Resumption<V>>)
    ensures |rs| == |readers|
    ensures forall i :: 0 <= i < |readers| ==> rs[i] == Abandon(readers[i])
  {
    seq(|readers|, i requires 0 <= i < |readers| => Abandon(readers[i]))
  }

  function CleanUp<V>(c: Chan<V>): Chan<V> {
    c.(buffer := [], writers := [], readers := [],
       resumed := c.resumed + Completions(c.writers) + Abandons(c.readers))
  }
}
