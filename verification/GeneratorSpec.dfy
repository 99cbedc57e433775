/**
 * Lazy generators: coroutines that are resumed only when a value is asked for.
 */
module GeneratorSpec {

  import opened Wrappers

  // A generator's promise (value, is_ready), whether the coroutine is done, and where it stands.
  // `rank` is above the ranks of the generators in it. It is an ordinal, so the nesting is
  // well-founded, but the generators a flat_map's f gives need not be bounded in their depth.
  datatype Gen<!T> = Gen(rank: ORDINAL, body: Body<T>, ready: bool, value: Option<T>, done: bool)

  // Where a coroutine is suspended, with its local variables.
  datatype Body<!T> =
    | Values(rest: seq<T>)                                   // from: still to be yielded
    | Take(src: Gen<T>, n: int, i: int)
    | TakeWhile(src: Gen<T>, p: T -> bool)
    | Map(src: Gen<T>, h: T -> T)
    | FlatMap(src: Gen<T>, f: T -> Gen<T>, inner: Option<Gen<T>>)

  function Fresh<T>(rank: ORDINAL, body: Body<T>): Gen<T> {
    Gen(rank, body, false, None, false)
  }

  // Generators are nested by rank, and a value that is ready is there.
  ghost predicate Valid<T(!new)>(g: Gen<T>)
    decreases g.rank
  {
    && (g.ready ==> g.value.Some?)
    && match g.body
       case Values(_) => true
       case Take(src, _, _) => src.rank < g.rank && Valid(src)
       case TakeWhile(src, _) => src.rank < g.rank && Valid(src)
       case Map(src, _) => src.rank < g.rank && Valid(src)
       case FlatMap(src, f, inner) =>
         && src.rank < g.rank && Valid(src)
         && (inner.Some? ==> inner.value.rank < g.rank && Valid(inner.value))
         && forall v :: f(v).rank < g.rank && Valid(f(v))
  }

  // ---- list functions ----

  function TakeList<T>(xs: seq<T>, n: int): seq<T> {
    if n <= 0 then [] else if n < |xs| then xs[..n] else xs
  }

  function TakeWhileList<T>(xs: seq<T>, p: T -> bool): (r: seq<T>)
    ensures r <= xs && forall v :: v in r ==> p(v)
    ensures r == xs || !p(xs[|r|])
  {
    if xs == [] || !p(xs[0]) then [] else [xs[0]] + TakeWhileList(xs[1..], p)
  }

  function MapList<T, U>(xs: seq<T>, h: T -> U): (r: seq<U>)
    ensures |r| == |xs| && forall k :: 0 <= k < |xs| ==> r[k] == h(xs[k])
  {
    if xs == [] then [] else [h(xs[0])] + MapList(xs[1..], h)
  }

  // ---- the list a generator stands for ----

  ghost function Meaning<T(!new)>(g: Gen<T>): seq<T>
    requires Valid(g)
    decreases g.rank, 3, 0
  {
    if g.done then [] else if g.ready then [g.value.value] + Rest(g) else Rest(g)
  }

  // What it would yield from where it is suspended.
  ghost function Rest<T(!new)>(g: Gen<T>): seq<T>
    requires Valid(g)
    decreases g.rank, 2, 0
  {
    match g.body
    case Values(rest) => rest
    case Take(src, n, i) => TakeList(Meaning(src), n - i)
    case TakeWhile(src, p) => TakeWhileList(Meaning(src), p)
    case Map(src, h) => MapList(Meaning(src), h)
    case FlatMap(src, f, inner) =>
      (if inner.Some? then Meaning(inner.value) else []) + FlatMapList(Meaning(src), f, g.rank)
  }

  ghost function FlatMapList<T(!new)>(xs: seq<T>, f: T -> Gen<T>, rank: ORDINAL): seq<T>
    requires forall v :: f(v).rank < rank && Valid(f(v))
    decreases rank, 1, |xs|
  {
    if xs == [] then [] else Meaning(f(xs[0])) + FlatMapList(xs[1..], f, rank)
  }

  // ---- has_next, next, resume ----

  function HasNext<T(!new)>(g: Gen<T>): (r: (Gen<T>, bool))
    requires Valid(g)
    ensures Valid(r.0) && r.0.rank == g.rank && Meaning(r.0) == Meaning(g)
    ensures r.1 <==> Meaning(g) != []
    ensures r.1 ==> r.0.ready && !r.0.done && r.0.value == Some(Meaning(g)[0])
    ensures !r.1 ==> r.0.done
    decreases g.rank, 2, 0, 0
  {
    if g.done then (g, false)
    else
      var r := if !g.ready then Resume(g) else g;
      (r, !r.done)
  }

  // None is the exception of an exhausted generator.
  function Next<T(!new)>(g: Gen<T>): (r: (Gen<T>, Option<T>))
    requires Valid(g)
    ensures Valid(r.0) && r.0.rank == g.rank
    ensures Meaning(g) == [] ==> r.1 == None && Meaning(r.0) == []
    ensures Meaning(g) != [] ==> r.1 == Some(Meaning(g)[0]) && Meaning(r.0) == Meaning(g)[1..] && !r.0.ready
    decreases g.rank, 3, 0, 0
  {
    var (h, yes) := HasNext(g);
    if yes then
      Consumed(h);
      (h.(ready := false), h.value)
    else (h, None)
  }

  lemma Consumed<T(!new)>(g: Gen<T>)
    requires Valid(g) && g.ready && !g.done
    ensures Valid(g.(ready := false)) && Meaning(g.(ready := false)) == Meaning(g)[1..]
    decreases g.rank, 2, 0, 0
  {
  }

  // has_next and then next.
  function Pull<T(!new)>(g: Gen<T>): (r: (Gen<T>, Option<T>))
    requires Valid(g)
    ensures Valid(r.0) && r.0.rank == g.rank
    ensures Meaning(g) == [] ==> r.1 == None && Meaning(r.0) == []
    ensures Meaning(g) != [] ==> r.1 == Some(Meaning(g)[0]) && Meaning(r.0) == Meaning(g)[1..] && !r.0.ready
    decreases g.rank, 4, 0, 0
  {
    var (h, yes) := HasNext(g);
    if yes then Next(h) else (h, None)
  }

  function Yield<T>(g: Gen<T>, body: Body<T>, v: T): Gen<T> {
    g.(body := body, ready := true, value := Some(v))
  }

  function Finish<T>(g: Gen<T>, body: Body<T>): Gen<T> {
    g.(body := body, done := true)
  }

  ghost function SourceLeft<T(!new)>(g: Gen<T>): nat
    requires Valid(g)
  {
    if g.body.FlatMap? then |Meaning(g.body.src)| else 0
  }

  // What resuming comes to: a value is ready and the rest follows, or the coroutine is done.
  ghost predicate Resumed<T(!new)>(g: Gen<T>, r: Gen<T>)
    requires Valid(g)
  {
    && Valid(r) && r.rank == g.rank && Meaning(r) == Rest(g)
    && (r.done <==> Rest(g) == []) && (r.ready <==> !r.done)
  }

  // Runs the coroutine up to its next co_yield or its end.
  function Resume<T(!new)>(g: Gen<T>): (r: Gen<T>)
    requires Valid(g) && !g.done && !g.ready
    ensures Resumed(g, r)
    decreases g.rank, 1, SourceLeft(g), if g.body.FlatMap? && g.body.inner.Some? then 1 else 0
  {
    match g.body
    case Values(rest) => ResumeValues(g, rest)
    case Take(src, n, i) => ResumeTake(g, src, n, i)
    case TakeWhile(src, p) => ResumeTakeWhile(g, src, p)
    case Map(src, h) => ResumeMap(g, src, h)
    case FlatMap(src, f, None) =>
      var (t, v) := Pull(src);
      if v.Some? then
        Resume(g.(body := FlatMap(t, f, Some(f(v.value)))))
      else
        Finish(g, FlatMap(t, f, None))
    case FlatMap(src, f, Some(inner)) =>
      var (t, v) := Pull(inner);
      if v.Some? then
        InnerYields(g, src, f, inner, t, v.value);
        Yield(g, FlatMap(src, f, Some(t)), v.value)
      else
        Resume(g.(body := FlatMap(src, f, None)))
  }

  function ResumeValues<T(!new)>(g: Gen<T>, rest: seq<T>): (r: Gen<T>)
    requires Valid(g) && !g.done && !g.ready && g.body == Values(rest)
    ensures Resumed(g, r)
    decreases g.rank, 0, 0, 0
  {
    if rest == [] then Finish(g, g.body) else Yield(g, Values(rest[1..]), rest[0])
  }

  function ResumeTake<T(!new)>(g: Gen<T>, src: Gen<T>, n: int, i: int): (r: Gen<T>)
    requires Valid(g) && !g.done && !g.ready && g.body == Take(src, n, i)
    ensures Resumed(g, r)
    decreases g.rank, 0, 0, 0
  {
    if i < n then
      var (t, v) := Pull(src);
      if v.Some? then Yield(g, Take(t, n, i + 1), v.value) else Finish(g, Take(t, n, i + 1))
    else Finish(g, Take(src, n, i + 1))
  }

  function ResumeTakeWhile<T(!new)>(g: Gen<T>, src: Gen<T>, p: T -> bool): (r: Gen<T>)
    requires Valid(g) && !g.done && !g.ready && g.body == TakeWhile(src, p)
    ensures Resumed(g, r)
    decreases g.rank, 0, 0, 0
  {
    var (t, v) := Pull(src);
    if v.Some? && p(v.value) then Yield(g, TakeWhile(t, p), v.value) else Finish(g, TakeWhile(t, p))
  }

  function ResumeMap<T(!new)>(g: Gen<T>, src: Gen<T>, h: T -> T): (r: Gen<T>)
    requires Valid(g) && !g.done && !g.ready && g.body == Map(src, h)
    ensures Resumed(g, r)
    decreases g.rank, 0, 0, 0
  {
    var (t, v) := Pull(src);
    if v.Some? then Yield(g, Map(t, h), h(v.value)) else Finish(g, Map(t, h))
  }

  lemma InnerYields<T(!new)>(g: Gen<T>, src: Gen<T>, f: T -> Gen<T>, inner: Gen<T>, t: Gen<T>, v: T)
    requires Valid(g) && !g.done && g.body == FlatMap(src, f, Some(inner)) && Meaning(inner) != [] && v == Meaning(inner)[0]
    requires t.rank == inner.rank && Valid(t) && Meaning(t) == Meaning(inner)[1..]
    ensures Resumed(g, Yield(g, FlatMap(src, f, Some(t)), v))
  {
    var body := FlatMap(src, f, Some(t));
    assert Valid(Yield(g, body, v));
    var after := InnerFirst(g, src, f, inner);
    var rest := InnerFirst(Yield(g, body, v), src, f, t);
    FirstThenRest(Meaning(inner), after);
  }

  lemma InnerFirst<T(!new)>(g: Gen<T>, src: Gen<T>, f: T -> Gen<T>, inner: Gen<T>) returns (after: seq<T>)
    requires Valid(g) && g.body == FlatMap(src, f, Some(inner))
    ensures Valid(src) && (forall v :: f(v).rank < g.rank && Valid(f(v))) && after == FlatMapList(Meaning(src), f, g.rank)
    ensures Valid(inner) && Rest(g) == Meaning(inner) + after
  {
    after := FlatMapList(Meaning(src), f, g.rank);
  }

  lemma FirstThenRest<T>(xs: seq<T>, after: seq<T>)
    requires xs != []
    ensures xs + after == [xs[0]] + (xs[1..] + after)
  {
  }
}
