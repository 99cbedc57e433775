/**
 * Channel and its awaiters as they are written.
 */
module Channel {

  import opened Wrappers
  import opened ChannelSpec

  // A list cut at an element that is passed over or erased.
  lemma Head<T>(kept: seq<T>, todo: seq<T>)
    requires todo != []
    ensures (kept + todo)[|kept|] == todo[0]
    ensures (kept + todo)[..|kept|] == kept && (kept + todo)[|kept| + 1..] == todo[1..]
    ensures kept + todo == (kept + [todo[0]]) + todo[1..]
  {
  }

  lemma Regroup<T>(kept: seq<T>, x: T, rest: seq<T>)
    ensures kept + ([x] + rest) == (kept + [x]) + rest
  {
  }

  class Channel<V> {
    const bufferCapacity: Capacity
    var buffer: seq<V>
    var writerList: seq<Writer<V>>
    var readerList: seq<nat>
    var isActive: bool
    var executor: seq<Resumption<V>>   // what has been handed to the awaiters' executors

    function State(): Chan<V>
      reads this
    {
      Chan(bufferCapacity, buffer, writerList, readerList, isActive, executor)
    }

    constructor (capacity: Capacity)
      ensures State() == New(capacity)
    {
      bufferCapacity := capacity;
      buffer, writerList, readerList, executor := [], [], [], [];
      isActive := true;
    }

    method Execute(r: Resumption<V>)
      modifies `executor
      ensures executor == old(executor) + [r]
    {
      executor := executor + [r];
    }

    method TryPushReader(reader: nat) returns (done: Result<(), ChannelClosed>)
      modifies this
      ensures !old(isActive) ==> done == Err(ChannelClosed) && State() == old(State())
      ensures old(isActive) ==> done == Ok(()) && State() == PushReader(old(State()), reader)
    {
      if !isActive {
        return Err(ChannelClosed);
      }
      done := Ok(());
      if buffer != [] {
        var value := buffer[0];
        buffer := buffer[1..];
        if writerList != [] {
          var writer := writerList[0];
          writerList := writerList[1..];
          buffer := buffer + [writer.value];
          Execute(Complete(writer.id));
        }
        Execute(Deliver(reader, value));
        return;
      }
      if writerList != [] {
        var writer := writerList[0];
        writerList := writerList[1..];
        Execute(Deliver(reader, writer.value));
        Execute(Complete(writer.id));
        return;
      }
      readerList := readerList + [reader];
    }

    method TryPushWriter(writer: Writer<V>) returns (done: Result<(), ChannelClosed>)
      modifies this
      ensures !old(isActive) ==> done == Err(ChannelClosed) && State() == old(State())
      ensures old(isActive) ==> done == Ok(()) && State() == PushWriter(old(State()), writer)
    {
      if !isActive {
        return Err(ChannelClosed);
      }
      done := Ok(());
      if readerList != [] {
        var reader := readerList[0];
        readerList := readerList[1..];
        Execute(Deliver(reader, writer.value));
        Execute(Complete(writer.id));
        return;
      }
      if |buffer| < Limit(bufferCapacity) {
        buffer := buffer + [writer.value];
        Execute(Complete(writer.id));
        return;
      }
      writerList := writerList + [writer];
    }

    method RemoveWriter(id: nat)
      modifies `writerList
      ensures State() == old(State()).(writers := WithoutWriter(old(writerList), id))
      ensures Purged(old(writerList), IsWriter(id), writerList)
    {
      ghost var kept, todo := [], writerList;
      var i := 0;
      while i < |writerList|
        invariant i == |kept| && writerList == kept + todo
        invariant kept + WithoutWriter(todo, id) == WithoutWriter(old(writerList), id)
        decreases |todo|
      {
        Head(kept, todo);
        if writerList[i].id == id {
          writerList := writerList[..i] + writerList[i + 1..];
        } else {
          Regroup(kept, todo[0], WithoutWriter(todo[1..], id));
          kept := kept + [todo[0]];
          i := i + 1;
        }
        todo := todo[1..];
      }
      WithoutWriterIsPurged(old(writerList), id);
    }

    method RemoveReader(id: nat)
      modifies `readerList
      ensures State() == old(State()).(readers := WithoutReader(old(readerList), id))
      ensures Purged(old(readerList), IsReader(id), readerList)
    {
      ghost var kept, todo := [], readerList;
      var i := 0;
      while i < |readerList|
        invariant i == |kept| && readerList == kept + todo
        invariant kept + WithoutReader(todo, id) == WithoutReader(old(readerList), id)
        decreases |todo|
      {
        Head(kept, todo);
        if readerList[i] == id {
          readerList := readerList[..i] + readerList[i + 1..];
        } else {
          Regroup(kept, todo[0], WithoutReader(todo[1..], id));
          kept := kept + [todo[0]];
          i := i + 1;
        }
        todo := todo[1..];
      }
      WithoutReaderIsPurged(old(readerList), id);
    }

    // write and read refuse a closed channel before there is anything to suspend.
    method Write(id: nat, value: V) returns (awaiter: Result<WriterAwaiter<V>, ChannelClosed>)
      ensures !isActive ==> awaiter == Err(ChannelClosed)
      ensures isActive ==>
                awaiter.Ok? && fresh(awaiter.value) && awaiter.value.channel == this
                && awaiter.value.id == id && awaiter.value.value == value
    {
      if !isActive {
        return Err(ChannelClosed);
      }
      var w := new WriterAwaiter(id, this, value);
      awaiter := Ok(w);
    }

    method Read(id: nat) returns (awaiter: Result<ReaderAwaiter<V>, ChannelClosed>)
      ensures !isActive ==> awaiter == Err(ChannelClosed)
      ensures isActive ==>
                awaiter.Ok? && fresh(awaiter.value) && awaiter.value.channel == this && awaiter.value.id == id
                && awaiter.value.result == None && awaiter.value.pValue == null
    {
      if !isActive {
        return Err(ChannelClosed);
      }
      var r := new ReaderAwaiter(id, this);
      awaiter := Ok(r);
    }

    // operator>>: the value read will also be written to a place of the caller's.
    method ReadInto(id: nat, place: Cell<V>) returns (awaiter: Result<ReaderAwaiter<V>, ChannelClosed>)
      ensures !isActive ==> awaiter == Err(ChannelClosed)
      ensures isActive ==>
                awaiter.Ok? && fresh(awaiter.value) && awaiter.value.channel == this && awaiter.value.id == id
                && awaiter.value.result == None && awaiter.value.pValue == place
    {
      awaiter := Read(id);
      if awaiter.Ok? {
        awaiter.value.pValue := place;
      }
    }

    // The first, unlocked, step of close: exactly one caller finds the flag still set.
    method CompareExchange() returns (won: bool)
      modifies `isActive
      ensures won == old(isActive) && State() == old(State()).(active := false)
    {
      won := isActive;
      isActive := false;
    }

    // The second, locked, step.
    method CleanUp()
      modifies this
      ensures State() == ChannelSpec.CleanUp(old(State()))
    {
      for i := 0 to |writerList|
        invariant writerList == old(writerList)
        invariant State() == old(State()).(resumed := old(executor) + Completions(writerList[..i]))
      {
        assert Completions(writerList[..i + 1]) == Completions(writerList[..i]) + [Complete(writerList[i].id)];
        Execute(Complete(writerList[i].id));
      }
      assert writerList[..|writerList|] == writerList;
      writerList := [];
      ghost var completed := executor;
      for i := 0 to |readerList|
        invariant readerList == old(readerList)
        invariant State() == old(State()).(writers := [], resumed := completed + Abandons(readerList[..i]))
      {
        assert Abandons<V>(readerList[..i + 1]) == Abandons(readerList[..i]) + [Abandon(readerList[i])];
        Execute(Abandon(readerList[i]));
      }
      assert readerList[..|readerList|] == readerList;
      readerList := [];
      buffer := [];
    }

    method Close()
      modifies this
      ensures State() == if old(isActive) then ChannelSpec.CleanUp(old(State()).(active := false)) else old(State())
    {
      var won := CompareExchange();
      if won {
        CleanUp();
      }
    }
  }

  // A variable of the coroutine that reads.
  class Cell<V> {
    var value: V

    constructor (value: V)
      ensures this.value == value
    {
      this.value := value;
    }
  }

  class WriterAwaiter<V> {
    const id: nat
    const value: V
    var channel: Channel?<V>

    constructor (id: nat, channel: Channel<V>, value: V)
      ensures this.id == id && this.value == value && this.channel == channel
    {
      this.id, this.value, this.channel := id, value, channel;
    }

    method AfterSuspend() returns (done: Result<(), ChannelClosed>)
      requires channel != null
      modifies channel
      ensures !old(channel.isActive) ==> done == Err(ChannelClosed) && channel.State() == old(channel.State())
      ensures old(channel.isActive) ==>
                done == Ok(()) && channel.State() == PushWriter(old(channel.State()), Writer(id, value))
    {
      done := channel.TryPushWriter(Writer(id, value));
    }

    // await_resume: a channel closed in the meantime shows as an exception, and keeps the link.
    method AwaitResume() returns (done: Result<(), ChannelClosed>)
      requires channel != null
      modifies this
      ensures old(channel).isActive ==> done == Ok(()) && channel == null
      ensures !old(channel).isActive ==> done == Err(ChannelClosed) && channel == old(channel)
    {
      if !channel.isActive {
        return Err(ChannelClosed);
      }
      channel := null;
      done := Ok(());
    }

    // The destructor: an awaiter that still has its channel takes itself off the list.
    method Destroy()
      modifies channel
      ensures channel != null ==>
                channel.State() == old(channel.State()).(writers := WithoutWriter(old(channel.writerList), id))
    {
      if channel != null {
        channel.RemoveWriter(id);
      }
    }
  }

  class ReaderAwaiter<V> {
    const id: nat
    var channel: Channel?<V>
    var result: Option<V>
    var pValue: Cell?<V>

    constructor (id: nat, channel: Channel<V>)
      ensures this.id == id && this.channel == channel && result == None && pValue == null
    {
      this.id, this.channel, result, pValue := id, channel, None, null;
    }

    method AfterSuspend() returns (done: Result<(), ChannelClosed>)
      requires channel != null
      modifies channel
      ensures !old(channel.isActive) ==> done == Err(ChannelClosed) && channel.State() == old(channel.State())
      ensures old(channel.isActive) ==> done == Ok(()) && channel.State() == PushReader(old(channel.State()), id)
    {
      done := channel.TryPushReader(id);
    }

    // What the executor runs for a resumption of this reader, up to the coroutine itself.
    method Dispatched(r: Resumption<V>)
      requires r.Deliver? || r.Abandon?
      modifies `result
      ensures r.Deliver? ==> result == Some(r.value)
      ensures r.Abandon? ==> result == old(result)
    {
      if r.Deliver? {
        result := Some(r.value);
      }
    }

    // The result is read only if the channel is active; ChannelFifo.AbandonedSeeClosed is why it is
    // there then.
    method AwaitResume() returns (value: Result<V, ChannelClosed>)
      requires channel != null
      requires channel.isActive ==> result.Some?
      modifies `channel, pValue
      ensures old(channel).isActive ==>
                && value == Ok(result.value) && channel == null
                && (pValue != null ==> pValue.value == result.value)
      ensures !old(channel).isActive ==>
                && value == Err(ChannelClosed) && channel == old(channel)
                && (pValue != null ==> pValue.value == old(pValue.value))
    {
      if !channel.isActive {
        return Err(ChannelClosed);
      }
      if pValue != null {
        pValue.value := result.value;
      }
      channel := null;
      value := Ok(result.value);
    }

    method Destroy()
      modifies channel
      ensures channel != null ==>
                channel.State() == old(channel.State()).(readers := WithoutReader(old(channel.readerList), id))
    {
      if channel != null {
        channel.RemoveReader(id);
      }
    }
  }
}
