/**
 * The generator object: its state changes whenever it is asked.
 */
module Generator {

  import opened Wrappers
  import G = GeneratorSpec

  function FoldLeft<R, T>(acc: R, xs: seq<T>, f: (R, T) -> R): R {
    if xs == [] then acc else FoldLeft(f(acc, xs[0]), xs[1..], f)
  }

  class Generator<T(!new)> {
    var state: G.Gen<T>

    ghost predicate Valid()
      reads this
    {
      G.Valid(state)
    }

    // The values it has yet to give.
    ghost function Left(): seq<T>
      requires Valid()
      reads this
    {
      G.Meaning(state)
    }

    constructor (state: G.Gen<T>)
      requires G.Valid(state)
      ensures Valid() && this.state == state
    {
      this.state := state;
    }

    method HasNext() returns (yes: bool)
      requires Valid()
      modifies this
      ensures Valid() && (state, yes) == G.HasNext(old(state))
      ensures Left() == old(Left()) && (yes <==> Left() != [])
    {
      if state.done { return false; }
      if !state.ready { state := G.Resume(state); }
      return !state.done;
    }

    // None is the exception of an exhausted generator.
    method Next() returns (v: Option<T>)
      requires Valid()
      modifies this
      ensures Valid() && (state, v) == G.Next(old(state))
      ensures old(Left()) == [] ==> v == None && Left() == []
      ensures old(Left()) != [] ==> v == Some(old(Left())[0]) && Left() == old(Left())[1..]
    {
      var yes := HasNext();
      if yes {
        v := state.value;
        state := state.(ready := false);
      } else {
        v := None;
      }
    }

    // `told` is what f was called with, in order.
    method ForEach() returns (told: seq<T>)
      requires Valid()
      modifies this
      ensures Valid() && told == old(Left()) && Left() == []
    {
      told := [];
      var more := HasNext();
      while more
        invariant Valid() && told + Left() == old(Left())
        invariant more <==> Left() != []
        decreases |Left()|
      {
        ghost var left := Left();
        var v := Next();
        OneMoreTold(told, left);
        told := told + [v.value];
        more := HasNext();
      }
    }

    method Fold<R>(initial: R, f: (R, T) -> R) returns (acc: R)
      requires Valid()
      modifies this
      ensures Valid() && acc == FoldLeft(initial, old(Left()), f) && Left() == []
    {
      acc := initial;
      var more := HasNext();
      while more
        invariant Valid() && FoldLeft(acc, Left(), f) == FoldLeft(initial, old(Left()), f)
        invariant more <==> Left() != []
        decreases |Left()|
      {
        var v := Next();
        acc := f(acc, v.value);
        more := HasNext();
      }
    }
  }

  lemma OneMoreTold<T>(told: seq<T>, left: seq<T>)
    requires left != []
    ensures told + left == told + [left[0]] + left[1..]
  {
  }
}
