/**
 * What MappedRingBuffer computes, on values.
 *
 * An object is named by its position in the list of cells the allocator has handed out, so
 * `heap[o]` is the message object `o` holds and `|heap|` is the next fresh object. A slot may hold
 * an object through a `unique_ptr` or through a `shared_ptr`.
 */
module RingSpec {

  import opened Wrappers

  type Obj = nat

  datatype RingError = UnexpectedEmptyElement

  datatype Element = Element(key: nat, unique: Option<Obj>, shared: Option<Obj>, inUse: bool)
  {
    // The pointers of the slot, if any, lead into a heap of `n` cells.
    predicate Within(n: nat) {
      && (unique.Some? ==> unique.value < n)
      && (shared.Some? ==> shared.value < n)
    }

    // Exactly one of the two pointers is set.
    predicate HoldsOne() {
      unique.Some? != shared.Some?
    }

    function Object(): Obj
      requires HoldsOne()
    {
      if unique.Some? then unique.value else shared.value
    }
  }

  datatype Ring = Ring(elements: seq<Element>, head: nat)
  {
    // A positive size and a head inside it: what the constructor establishes.
    predicate Shaped() {
      head < |elements|
    }

    predicate Within(n: nat) {
      forall i :: 0 <= i < |elements| ==> elements[i].Within(n)
    }
  }

  // What an operation leaves behind: the ring, the heap, and the pointer (or error) it hands out.
  datatype Outcome<T> = Outcome(ring: Ring, heap: seq<T>, value: Result<Option<Obj>, RingError>)

  // A get or a pop moves no head, makes no slot, changes no cell, and keeps every pointer in bounds.
  ghost predicate SameFrame<T>(r: Ring, heap: seq<T>, o: Outcome<T>) {
    && o.ring.head == r.head
    && |o.ring.elements| == |r.elements|
    && heap <= o.heap
    && o.ring.Within(|o.heap|)
  }

  const FREE := Element(0, None, None, false)

  function Empty(size: nat): (r: Ring)
    ensures r.Within(0)
  {
    Ring(seq(size, _ => FREE), 0)
  }

  predicate Matches(e: Element, key: nat) {
    e.key == key && e.inUse
  }

  // The first slot in use with the key; the size when there is none.
  function IndexOf(es: seq<Element>, key: nat): (k: nat)
    ensures k <= |es|
    ensures k < |es| ==> Matches(es[k], key)
    ensures forall i :: 0 <= i < k ==> !Matches(es[i], key)
  {
    if es == [] then 0
    else if Matches(es[0], key) then 0
    else 1 + IndexOf(es[1..], key)
  }

  predicate Found(r: Ring, key: nat) {
    IndexOf(r.elements, key) < |r.elements|
  }

  // A fresh object holding a copy of what `o` holds.
  function Copy<T>(r: Ring, heap: seq<T>, o: Obj): Outcome<T>
    requires o < |heap|
  {
    Outcome(r, heap + [heap[o]], Ok(Some(|heap|)))
  }

  function GetUnique<T>(r: Ring, heap: seq<T>, key: nat): (o: Outcome<T>)
    requires r.Within(|heap|)
    ensures SameFrame(r, heap, o)
  {
    if !Found(r, key) then Outcome(r, heap, Ok(None)) else
    var e := r.elements[IndexOf(r.elements, key)];
    match (e.unique, e.shared)
    case (Some(o), _) => Copy(r, heap, o)
    case (None, Some(o)) => Copy(r, heap, o)
    case (None, None) => Outcome(r, heap, Err(UnexpectedEmptyElement))
  }

  function GetShared<T>(r: Ring, heap: seq<T>, key: nat): (o: Outcome<T>)
    requires r.Within(|heap|)
    ensures SameFrame(r, heap, o)
  {
    if !Found(r, key) then Outcome(r, heap, Ok(None)) else
    var k := IndexOf(r.elements, key);
    var e := r.elements[k];
    match (e.shared, e.unique)
    case (Some(o), _) => Outcome(r, heap, Ok(Some(o)))
    case (None, Some(o)) =>
      var upgraded := e.(unique := None, shared := Some(o));
      Outcome(r.(elements := r.elements[k := upgraded]), heap, Ok(Some(o)))
    case (None, None) => Outcome(r, heap, Err(UnexpectedEmptyElement))
  }

  function Release(r: Ring, k: nat): Ring
    requires k < |r.elements|
  {
    r.(elements := r.elements[k := r.elements[k].(unique := None, shared := None, inUse := false)])
  }

  // The shared pointer, if the slot has both, is left in the slot; only the unique one is moved out.
  function PopUnique<T>(r: Ring, heap: seq<T>, key: nat): (o: Outcome<T>)
    requires r.Within(|heap|)
    ensures SameFrame(r, heap, o)
  {
    if !Found(r, key) then Outcome(r, heap, Ok(None)) else
    var k := IndexOf(r.elements, key);
    var e := r.elements[k];
    match (e.unique, e.shared)
    case (Some(o), _) =>
      Outcome(r.(elements := r.elements[k := e.(unique := None, inUse := false)]), heap, Ok(Some(o)))
    case (None, Some(o)) => Copy(Release(r, k), heap, o)
    case (None, None) => Outcome(r, heap, Err(UnexpectedEmptyElement))
  }

  // A key that is not found leaves the caller's pointer as it was.
  function PopShared<T>(r: Ring, heap: seq<T>, key: nat, before: Option<Obj>): (o: Outcome<T>)
    requires r.Within(|heap|)
    ensures SameFrame(r, heap, o)
  {
    if !Found(r, key) then Outcome(r, heap, Ok(before)) else
    var k := IndexOf(r.elements, key);
    var e := r.elements[k];
    match (e.shared, e.unique)
    case (Some(o), _) =>
      Outcome(r.(elements := r.elements[k := e.(shared := None, inUse := false)]), heap, Ok(Some(o)))
    case (None, Some(o)) => Outcome(Release(r, k), heap, Ok(Some(o)))
    case (None, None) => Outcome(r, heap, Err(UnexpectedEmptyElement))
  }

  function Next(head: nat, size: nat): (next: nat)
    requires head < size
    ensures next == if head + 1 == size then 0 else head + 1
  {
    (head + 1) % size
  }

  function Push(r: Ring, key: nat, unique: Option<Obj>, shared: Option<Obj>): (r': Ring)
    requires r.Shaped()
    ensures r'.Shaped() && |r'.elements| == |r.elements|
  {
    Ring(r.elements[r.head := Element(key, unique, shared, true)], Next(r.head, |r.elements|))
  }

  function Displaces(r: Ring): bool
    requires r.Shaped()
  {
    r.elements[r.head].inUse
  }
}
