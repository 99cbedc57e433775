/**
 * MappedRingBuffer as it is written: an array of slots and a head, changed in place.
 */
module MappedRingBuffer {

  import opened Wrappers
  import opened RingSpec

  // The allocator the buffers copy messages with: every object ever constructed, in order.
  class Memory<T> {
    var cells: seq<T>

    constructor ()
      ensures cells == []
    {
      cells := [];
    }

    method Construct(message: T) returns (o: Obj)
      modifies this
      ensures o == |old(cells)| && cells == old(cells) + [message]
    {
      o := |cells|;
      cells := cells + [message];
    }
  }

  datatype Failure = SizeMustBePositive

  class MappedRingBuffer<T> {
    const elements: array<Element>
    var head: nat
    const allocator: Memory<T>

    ghost function Model(): Ring
      reads this, elements
    {
      Ring(elements[..], head)
    }

    ghost predicate Valid()
      reads this, elements, allocator
    {
      Model().Shaped() && Model().Within(|allocator.cells|)
    }

    // What a get or a pop promises about the buffer and the memory.
    ghost predicate Does(o: Outcome<T>)
      reads this, elements, allocator
    {
      && Valid()
      && Model() == o.ring
      && allocator.cells == o.heap
    }

    constructor (size: nat, allocator: Memory<T>)
      requires size > 0
      ensures Valid() && this.allocator == allocator && fresh(elements)
      ensures Model() == Empty(size)
    {
      elements := new Element[size](_ => FREE);
      head := 0;
      this.allocator := allocator;
      new;
      assert elements[..] == Empty(size).elements;
    }

    // The constructor refuses a size of zero.
    static method Make(size: nat, allocator: Memory<T>) returns (made: Result<MappedRingBuffer<T>, Failure>)
      ensures size == 0 <==> made == Err(SizeMustBePositive)
      ensures size > 0 ==> made.Ok? && fresh(made.value) && fresh(made.value.elements)
      ensures size > 0 ==> made.value.Valid() && made.value.allocator == allocator
      ensures size > 0 ==> made.value.Model() == Empty(size)
    {
      if size == 0 {
        return Err(SizeMustBePositive);
      }
      var b := new MappedRingBuffer(size, allocator);
      made := Ok(b);
    }

    lemma FirstIsIndexOf(es: seq<Element>, key: nat, k: nat)
      requires k <= |es| && (k < |es| ==> Matches(es[k], key))
      requires forall i :: 0 <= i < k ==> !Matches(es[i], key)
      ensures k == IndexOf(es, key)
    {
    }

    method GetIteratorOfKey(key: nat) returns (k: nat)
      ensures k == IndexOf(elements[..], key)
    {
      k := 0;
      while k < elements.Length
        invariant k <= elements.Length
        invariant forall i :: 0 <= i < k ==> !Matches(elements[i], key)
      {
        if elements[k].key == key && elements[k].inUse { break; }
        k := k + 1;
      }
      FirstIsIndexOf(elements[..], key, k);
    }

    method HasKey(key: nat) returns (has: bool)
      ensures has == Found(Model(), key)
    {
      var k := GetIteratorOfKey(key);
      has := k != elements.Length;
    }

    method GetUnique(key: nat) returns (value: Result<Option<Obj>, RingError>)
      requires Valid()
      modifies allocator
      ensures var o := RingSpec.GetUnique(old(Model()), old(allocator.cells), key); Does(o) && value == o.value
    {
      var k := GetIteratorOfKey(key);
      value := Ok(None);
      if k != elements.Length && elements[k].inUse {
        assert elements[k].Within(|allocator.cells|);
        if elements[k].unique.Some? {
          var o := allocator.Construct(allocator.cells[elements[k].unique.value]);
          value := Ok(Some(o));
        } else if elements[k].shared.Some? {
          var o := allocator.Construct(allocator.cells[elements[k].shared.value]);
          value := Ok(Some(o));
        } else {
          value := Err(UnexpectedEmptyElement);
        }
      }
    }

    method GetShared(key: nat) returns (value: Result<Option<Obj>, RingError>)
      requires Valid()
      modifies elements
      ensures var o := RingSpec.GetShared(old(Model()), old(allocator.cells), key); Does(o) && value == o.value
    {
      var k := GetIteratorOfKey(key);
      value := Ok(None);
      if k != elements.Length && elements[k].inUse {
        if elements[k].shared.None? {
          // The unique pointer is upgraded to a shared one.
          if elements[k].unique.None? {
            return Err(UnexpectedEmptyElement);
          }
          elements[k] := elements[k].(unique := None, shared := elements[k].unique);
        }
        value := Ok(elements[k].shared);
      }
    }

    method PopUnique(key: nat) returns (value: Result<Option<Obj>, RingError>)
      requires Valid()
      modifies elements, allocator
      ensures var o := RingSpec.PopUnique(old(Model()), old(allocator.cells), key); Does(o) && value == o.value
    {
      var k := GetIteratorOfKey(key);
      value := Ok(None);
      if k != elements.Length && elements[k].inUse {
        assert elements[k].Within(|allocator.cells|);
        if elements[k].unique.Some? {
          value := Ok(elements[k].unique);
          elements[k] := elements[k].(unique := None);
        } else if elements[k].shared.Some? {
          var o := allocator.Construct(allocator.cells[elements[k].shared.value]);
          value := Ok(Some(o));
          elements[k] := elements[k].(shared := None);
        } else {
          return Err(UnexpectedEmptyElement);
        }
        elements[k] := elements[k].(inUse := false);
      }
    }

    // The caller's pointer is not reset first: a key that is not found leaves it alone.
    method PopShared(key: nat, before: Option<Obj>) returns (value: Result<Option<Obj>, RingError>)
      requires Valid()
      modifies elements
      ensures var o := RingSpec.PopShared(old(Model()), old(allocator.cells), key, before);
              Does(o) && value == o.value
    {
      var k := GetIteratorOfKey(key);
      value := Ok(before);
      if k != elements.Length && elements[k].inUse {
        if elements[k].shared.Some? {
          value := Ok(elements[k].shared);
          elements[k] := elements[k].(shared := None);
        } else if elements[k].unique.Some? {
          value := Ok(elements[k].unique);
          elements[k] := elements[k].(unique := None);
        } else {
          return Err(UnexpectedEmptyElement);
        }
        elements[k] := elements[k].(inUse := false);
      }
    }

    method PushAndReplaceUnique(key: nat, value: Option<Obj>) returns (didReplace: bool)
      requires Valid() && (value.Some? ==> value.value < |allocator.cells|)
      modifies elements, `head
      ensures Valid()
      ensures Model() == Push(old(Model()), key, value, None)
      ensures didReplace == Displaces(old(Model()))
    {
      didReplace := elements[head].inUse;
      elements[head] := elements[head].(key := key, unique := None, shared := None);
      elements[head] := elements[head].(unique := value, inUse := true);
      head := (head + 1) % elements.Length;
    }

    method PushAndReplaceShared(key: nat, value: Option<Obj>) returns (didReplace: bool)
      requires Valid() && (value.Some? ==> value.value < |allocator.cells|)
      modifies elements, `head
      ensures Valid()
      ensures Model() == Push(old(Model()), key, None, value)
      ensures didReplace == Displaces(old(Model()))
    {
      didReplace := elements[head].inUse;
      elements[head] := elements[head].(key := key, unique := None, shared := None);
      elements[head] := elements[head].(shared := value, inUse := true);
      head := (head + 1) % elements.Length;
    }
  }
}
