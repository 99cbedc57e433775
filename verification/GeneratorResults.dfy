/**
 * Draining lazy generators gives the list functions, and how much of its source each one consumes.
 */
module GeneratorResults {

  import opened Wrappers
  import opened GeneratorSpec

  // Asks for values until there are none: what is left of the generator, and the values.
  function Drain<T(!new)>(g: Gen<T>): (r: (Gen<T>, seq<T>))
    requires Valid(g)
    ensures r.1 == Meaning(g)
    decreases |Meaning(g)|
  {
    var (t, v) := Pull(g);
    if v.None? then (t, [])
    else
      var (u, rest) := Drain(t);
      (u, [v.value] + rest)
  }

  // has_next may be asked any number of times: it resumes the coroutine at most once a value.
  lemma {:induction false} HasNextIsIdempotent<T(!new)>(g: Gen<T>)
    requires Valid(g)
    ensures HasNext(HasNext(g).0) == HasNext(g)
  {
  }

  // ---- operators are list functions ----

  lemma {:induction false} TakeDrains<T(!new)>(src: Gen<T>, rank: ORDINAL, n: int)
    requires Valid(src) && src.rank < rank
    ensures Drain(Fresh(rank, Take(src, n, 0))).1 == TakeList(Drain(src).1, n)
  {
    assert Rest(Fresh(rank, Take(src, n, 0))) == TakeList(Meaning(src), n);
  }

  lemma {:induction false} TakeWhileDrains<T(!new)>(src: Gen<T>, rank: ORDINAL, p: T -> bool)
    requires Valid(src) && src.rank < rank
    ensures Drain(Fresh(rank, TakeWhile(src, p))).1 == TakeWhileList(Drain(src).1, p)
  {
    assert Rest(Fresh(rank, TakeWhile(src, p))) == TakeWhileList(Meaning(src), p);
  }

  lemma {:induction false} MapDrains<T(!new)>(src: Gen<T>, rank: ORDINAL, h: T -> T)
    requires Valid(src) && src.rank < rank
    ensures Drain(Fresh(rank, Map(src, h))).1 == MapList(Drain(src).1, h)
  {
    assert Rest(Fresh(rank, Map(src, h))) == MapList(Meaning(src), h);
  }

  function Flatten<T>(xss: seq<seq<T>>): seq<T> {
    if xss == [] then [] else xss[0] + Flatten(xss[1..])
  }

  ghost function InnerLists<T(!new), U(!new)>(xs: seq<T>, f: T -> Gen<U>): (r: seq<seq<U>>)
    requires forall v :: Valid(f(v))
  {
    seq(|xs|, k requires 0 <= k < |xs| => Drain(f(xs[k])).1)
  }

  // The inner generators' lists, one after the other, in the order of the source.
  lemma {:induction false} FlatMapDrains<T(!new)>(src: Gen<T>, rank: ORDINAL, f: T -> Gen<T>)
    requires Valid(src) && src.rank < rank
    requires forall v :: f(v).rank < rank && Valid(f(v))
    ensures Drain(Fresh(rank, FlatMap(src, f, None))).1 == Flatten(InnerLists(Drain(src).1, f))
  {
    var g := Fresh(rank, FlatMap(src, f, None));
    var list := FlatMapList(Meaning(src), f, rank);
    assert Rest(g) == [] + list;
    FlatMapFlattens(Meaning(src), f, rank);
  }

  lemma {:induction false} FlatMapFlattens<T(!new)>(xs: seq<T>, f: T -> Gen<T>, rank: ORDINAL)
    requires forall v :: f(v).rank < rank && Valid(f(v))
    ensures FlatMapList(xs, f, rank) == Flatten(InnerLists(xs, f))
  {
    var all := InnerLists(xs, f);
    if xs != [] {
      FlatMapFlattens(xs[1..], f, rank);
      assert all[1..] == InnerLists(xs[1..], f);
      assert all[0] == Meaning(f(xs[0]));
    }
  }

  // ---- how much of the source is consumed ----

  predicate AtYield<T>(g: Gen<T>) {
    !g.ready && !g.done
  }

  // The first value of a suspended generator comes from resuming it once.
  lemma PullResumes<T(!new)>(g: Gen<T>)
    requires Valid(g) && AtYield(g)
    ensures var r := Resume(g);
      Pull(g) == if r.done then (r, None) else (r.(ready := false), r.value)
  {
    var r := Resume(g);
    assert HasNext(g) == (r, !r.done);
    if !r.done {
      assert HasNext(r) == (r, true);
      assert Next(r) == (r.(ready := false), r.value);
    }
  }

  lemma PullTake<T(!new)>(g: Gen<T>)
    requires Valid(g) && AtYield(g) && g.body.Take?
    ensures var (t, v) := Pull(g);
      var n, i, src := g.body.n, g.body.i, g.body.src;
      && (i >= n ==> v == None && t.body == Take(src, n, i + 1))
      && (i < n ==> t.body == Take(Pull(src).0, n, i + 1) && v == Pull(src).1)
      && (v.Some? ==> AtYield(t))
  {
    PullResumes(g);
    assert Resume(g) == ResumeTake(g, g.body.src, g.body.n, g.body.i);
  }

  // One value given by take is one value of its source.
  lemma TakeStep<T(!new)>(g: Gen<T>)
    requires Valid(g) && AtYield(g) && g.body.Take? && Pull(g).1.Some?
    ensures var t := Pull(g).0;
      && Valid(t) && AtYield(t) && t.body.Take? && t.body.n == g.body.n && t.body.i == g.body.i + 1 && t.body.i <= g.body.n
      && |Meaning(t)| + 1 == |Meaning(g)| && Valid(t.body.src) && t.body.src.rank == g.body.src.rank
      && Meaning(g.body.src) != [] && Meaning(t.body.src) == Meaning(g.body.src)[1..] && !t.body.src.ready
      && Drain(g).0 == Drain(t).0
  {
    PullTake(g);
  }

  // Draining take(n) leaves the source exactly the values that it did not give, and has not even
  // resumed it for the one after the last.
  lemma {:induction false} TakeLeavesTheRest<T(!new)>(g: Gen<T>)
    requires Valid(g) && AtYield(g) && g.body.Take?
    ensures var end, xs := Drain(g).0, Meaning(g.body.src);
      && |Meaning(g)| <= |xs| && end.body.Take? && end.body.src.rank == g.body.src.rank && Valid(end.body.src)
      && Meaning(end.body.src) == xs[|Meaning(g)|..]
      && (g.body.n <= g.body.i ==> end.body.src == g.body.src)
      && (0 < g.body.n - g.body.i <= |xs| ==> !end.body.src.ready)
    decreases |Meaning(g)|
  {
    var (t, v) := Pull(g);
    if v.Some? {
      TakeStep(g);
      TakeLeavesTheRest(t);
      Later(Meaning(g.body.src), |Meaning(t)|);
    } else {
      PullTake(g);
    }
  }

  lemma Later<T>(xs: seq<T>, n: nat)
    requires xs != [] && n < |xs|
    ensures xs[1..][n..] == xs[n + 1..]
  {
  }

  lemma TakeNLeavesTheRest<T(!new)>(src: Gen<T>, rank: ORDINAL, n: int)
    requires Valid(src) && src.rank < rank
    ensures var end, xs := Drain(Fresh(rank, Take(src, n, 0))).0, Meaning(src);
      && end.body.Take? && Valid(end.body.src)
      && Meaning(end.body.src) == xs[|TakeList(xs, n)|..]
      && (0 < n <= |xs| ==> !end.body.src.ready)
  {
    var g := Fresh(rank, Take(src, n, 0));
    assert Meaning(g) == TakeList(Meaning(src), n) by { assert Rest(g) == TakeList(Meaning(src), n); }
    TakeLeavesTheRest(g);
  }

  lemma PullTakeWhile<T(!new)>(g: Gen<T>)
    requires Valid(g) && AtYield(g) && g.body.TakeWhile?
    ensures var (t, v) := Pull(g);
      var p, src := g.body.p, g.body.src;
      && t.body == TakeWhile(Pull(src).0, p)
      && (v.Some? <==> Pull(src).1.Some? && p(Pull(src).1.value))
      && (v.Some? ==> AtYield(t))
  {
    PullResumes(g);
    assert Resume(g) == ResumeTakeWhile(g, g.body.src, g.body.p);
  }

  // Draining take_while consumes the prefix and the first value after it, which is lost.
  lemma {:induction false} TakeWhileLeavesTheRest<T(!new)>(g: Gen<T>)
    requires Valid(g) && AtYield(g) && g.body.TakeWhile?
    ensures var end, xs, n := Drain(g).0, Meaning(g.body.src), |Meaning(g)|;
      && end.body.TakeWhile? && end.body.src.rank == g.body.src.rank && Valid(end.body.src)
      && Meaning(end.body.src) == if n < |xs| then xs[n + 1..] else []
    decreases |Meaning(g)|
  {
    PullTakeWhile(g);
    var (t, v) := Pull(g);
    if v.Some? {
      TakeWhileLeavesTheRest(t);
      assert Drain(g).0 == Drain(t).0;
    }
  }

  lemma TakeWhilePLeavesTheRest<T(!new)>(src: Gen<T>, rank: ORDINAL, p: T -> bool)
    requires Valid(src) && src.rank < rank
    ensures var end, xs := Drain(Fresh(rank, TakeWhile(src, p))).0, Meaning(src);
      var n := |TakeWhileList(xs, p)|;
      && end.body.TakeWhile? && Valid(end.body.src)
      && Meaning(end.body.src) == if n < |xs| then xs[n + 1..] else []
  {
    var g := Fresh(rank, TakeWhile(src, p));
    assert Meaning(g) == TakeWhileList(Meaning(src), p) by { assert Rest(g) == TakeWhileList(Meaning(src), p); }
    TakeWhileLeavesTheRest(g);
  }
}
