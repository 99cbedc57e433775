/**
 * A promise's result and callbacks as they are written, one thread at a time.
 */
module Completion {

  import opened Wrappers

  class Promise<R> {
    var result: Option<R>
    var completionCallbacks: seq<nat>
    var called: seq<(nat, R)>   // every call of a callback, in order

    constructor ()
      ensures result == None && completionCallbacks == [] && called == []
    {
      result, completionCallbacks, called := None, [], [];
    }

    method OnCompleted(func: nat)
      modifies this
      ensures result == old(result)
      ensures result.Some? ==> called == old(called) + [(func, result.value)] && completionCallbacks == old(completionCallbacks)
      ensures result.None? ==> called == old(called) && completionCallbacks == old(completionCallbacks) + [func]
    {
      if result.Some? {
        var value := result.value;
        called := called + [(func, value)];
      } else {
        completionCallbacks := completionCallbacks + [func];
      }
    }

    method NotifyCallbacks()
      requires result.Some?
      modifies `called, `completionCallbacks
      ensures completionCallbacks == []
      ensures called == old(called) + WithValue(old(completionCallbacks), result.value)
    {
      var value := result.value;
      for i := 0 to |completionCallbacks|
        invariant completionCallbacks == old(completionCallbacks)
        invariant called == old(called) + WithValue(completionCallbacks[..i], value)
      {
        assert completionCallbacks[..i + 1] == completionCallbacks[..i] + [completionCallbacks[i]];
        called := called + [(completionCallbacks[i], value)];
      }
      assert completionCallbacks[..|completionCallbacks|] == completionCallbacks;
      completionCallbacks := [];
    }

    method Return(value: R)
      modifies this
      ensures result == Some(value) && completionCallbacks == []
      ensures called == old(called) + WithValue(old(completionCallbacks), value)
    {
      result := Some(value);
      NotifyCallbacks();
    }
  }

  function WithValue<R>(callbacks: seq<nat>, value: R): (r: seq<(nat, R)>)
    ensures |r| == |callbacks|
  {
    seq(|callbacks|, k requires 0 <= k < |callbacks| => (callbacks[k], value))
  }
}
