/**
 * Generators whose functions change the type of the values, carried over to one larger type.
 */
module GeneratorTypes {

  import opened Wrappers
  import opened GeneratorSpec
  import opened GeneratorResults

  datatype Either<T, U> = Left(left: T) | Right(right: U)

  // T seen inside of V: every T is a V, and `out` recognises those that are.
  datatype View<!T(!new), !V> = View(inj: T -> V, out: V -> Option<T>) {
    ghost predicate Valid() { forall t :: out(inj(t)) == Some(t) }
  }

  function AsLeft<T(!new), U>(): (v: View<T, Either<T, U>>)
    ensures v.Valid()
  {
    View(t => Left(t), (e: Either<T, U>) => if e.Left? then Some(e.left) else None)
  }

  function AsRight<T, U(!new)>(): (v: View<U, Either<T, U>>)
    ensures v.Valid()
  {
    View(u => Right(u), (e: Either<T, U>) => if e.Right? then Some(e.right) else None)
  }

  // The functions given to the operators, on the larger type.
  function OnPredicate<T(!new), V>(view: View<T, V>, p: T -> bool): V -> bool {
    v => var t := view.out(v); t.Some? && p(t.value)
  }

  function OnFunction<T(!new), U(!new), V>(source: View<T, V>, target: View<U, V>, h: T -> U): V -> V {
    v => var t := source.out(v); if t.Some? then target.inj(h(t.value)) else v
  }

  function OnGenerator<T(!new), U(!new), V>(source: View<T, V>, target: View<U, V>, f: T -> Gen<U>): V -> Gen<V>
    requires forall t :: Valid(f(t))
  {
    v => var t := source.out(v); if t.Some? then Embed(f(t.value), target) else Fresh(0, Values([]))
  }

  // The generator, on the larger type.
  function Embed<T(!new), V>(g: Gen<T>, view: View<T, V>): (e: Gen<V>)
    requires Valid(g)
    ensures e.rank == g.rank
    decreases g.rank
  {
    Gen(g.rank,
        match g.body
        case Values(rest) => Values(MapList(rest, view.inj))
        case Take(src, n, i) => Take(Embed(src, view), n, i)
        case TakeWhile(src, p) => TakeWhile(Embed(src, view), OnPredicate(view, p))
        case Map(src, h) => Map(Embed(src, view), OnFunction(view, view, h))
        case FlatMap(src, f, inner) =>
          FlatMap(Embed(src, view),
                  v => var t := view.out(v); if t.Some? then Embed(f(t.value), view) else Fresh(0, Values([])),
                  if inner.Some? then Some(Embed(inner.value, view)) else None),
        g.ready,
        if g.value.Some? then Some(view.inj(g.value.value)) else None,
        g.done)
  }

  // ---- the list functions on the larger type ----

  lemma {:induction false} TakeWhileEmbeds<T(!new), V>(xs: seq<T>, p: T -> bool, view: View<T, V>)
    requires view.Valid()
    ensures TakeWhileList(MapList(xs, view.inj), OnPredicate(view, p)) == MapList(TakeWhileList(xs, p), view.inj)
  {
    if xs != [] { TakeWhileEmbeds(xs[1..], p, view); }
  }

  lemma MapEmbeds<T(!new), U(!new), V>(xs: seq<T>, h: T -> U, source: View<T, V>, target: View<U, V>)
    requires source.Valid()
    ensures MapList(MapList(xs, source.inj), OnFunction(source, target, h)) == MapList(MapList(xs, h), target.inj)
  {
  }

  lemma MapOfConcat<T, V>(xs: seq<T>, ys: seq<T>, inj: T -> V)
    ensures MapList(xs + ys, inj) == MapList(xs, inj) + MapList(ys, inj)
  {
  }

  // k gives for every T what f gives, on the larger type.
  ghost predicate Matches<T(!new), U(!new), V(!new)>(k: V -> Gen<V>, f: T -> Gen<U>, source: View<T, V>, target: View<U, V>)
  {
    && (forall v :: Valid(k(v)))
    && forall t :: Valid(f(t)) && Meaning(k(source.inj(t))) == MapList(Meaning(f(t)), target.inj)
  }

  lemma {:induction false} FlatMapEmbeds<T(!new), U(!new), V(!new)>(xs: seq<T>, f: T -> Gen<U>, k: V -> Gen<V>,
                                                                     source: View<T, V>, target: View<U, V>)
    requires Matches(k, f, source, target)
    ensures Flatten(InnerLists(MapList(xs, source.inj), k)) == MapList(Flatten(InnerLists(xs, f)), target.inj)
  {
    if xs != [] {
      var ys := MapList(xs, source.inj);
      FlatMapEmbeds(xs[1..], f, k, source, target);
      assert InnerLists(ys, k)[1..] == InnerLists(ys[1..], k);
      assert InnerLists(xs, f)[1..] == InnerLists(xs[1..], f);
      MapOfConcat(Meaning(f(xs[0])), Flatten(InnerLists(xs[1..], f)), target.inj);
    }
  }

  // ---- the embedded generator ----

  lemma EmbedMeans<T(!new), V(!new)>(g: Gen<T>, view: View<T, V>)
    requires Valid(g) && view.Valid()
    ensures Valid(Embed(g, view)) && Meaning(Embed(g, view)) == MapList(Meaning(g), view.inj)
    decreases g.rank, 2
  {
    EmbedRest(g, view);
  }

  lemma EmbedRest<T(!new), V(!new)>(g: Gen<T>, view: View<T, V>)
    requires Valid(g) && view.Valid()
    ensures Valid(Embed(g, view)) && Rest(Embed(g, view)) == MapList(Rest(g), view.inj)
    decreases g.rank, 1
  {
    match g.body
    case Values(_) =>
    case Take(src, n, i) =>
      EmbedMeans(src, view);
    case TakeWhile(src, p) =>
      EmbedMeans(src, view);
      TakeWhileEmbeds(Meaning(src), p, view);
    case Map(src, h) =>
      EmbedMeans(src, view);
      MapEmbeds(Meaning(src), h, view, view);
    case FlatMap(src, f, inner) =>
      EmbedFlatMap(g, view, src, f, inner);
  }

  lemma EmbedFlatMap<T(!new), V(!new)>(g: Gen<T>, view: View<T, V>, src: Gen<T>, f: T -> Gen<T>, inner: Option<Gen<T>>)
    requires Valid(g) && view.Valid() && g.body == FlatMap(src, f, inner)
    ensures Valid(Embed(g, view)) && Rest(Embed(g, view)) == MapList(Rest(g), view.inj)
    decreases g.rank, 0
  {
    var k := Embed(g, view).body.f;
    EmbedMeans(src, view);
    forall t ensures Valid(k(view.inj(t))) && Meaning(k(view.inj(t))) == MapList(Meaning(f(t)), view.inj) {
      EmbedMeans(f(t), view);
    }
    forall v ensures k(v).rank < g.rank && Valid(k(v)) {
      var t := view.out(v);
      if t.Some? { EmbedMeans(f(t.value), view); }
    }
    FlatMapEmbeds(Meaning(src), f, k, view, view);
    FlatMapFlattens(Meaning(src), f, g.rank);
    FlatMapFlattens(MapList(Meaning(src), view.inj), k, g.rank);
    var first := if inner.Some? then Meaning(inner.value) else [];
    if inner.Some? { EmbedMeans(inner.value, view); }
    MapOfConcat(first, FlatMapList(Meaning(src), f, g.rank), view.inj);
  }

  // ---- map and flat_map to another type ----

  // For any generator of T and any h from T to U: draining map(h) gives h of every value, in order.
  lemma {:induction false} MapAcross<T(!new), U(!new)>(src: Gen<T>, rank: ORDINAL, h: T -> U)
    requires Valid(src) && src.rank < rank
    ensures var l, r := AsLeft<T, U>(), AsRight<T, U>();
      && Valid(Fresh(rank, Map(Embed(src, l), OnFunction(l, r, h))))
      && Drain(Fresh(rank, Map(Embed(src, l), OnFunction(l, r, h)))).1 == MapList(MapList(Drain(src).1, h), r.inj)
  {
    var l, r := AsLeft<T, U>(), AsRight<T, U>();
    EmbedMeans(src, l);
    MapEmbeds(Meaning(src), h, l, r);
    MapDrains(Embed(src, l), rank, OnFunction(l, r, h));
  }

  // For any f from T to generators of U: draining flat_map(f) gives the lists of f of every value, one
  // after the other.
  lemma {:induction false} FlatMapAcross<T(!new), U(!new)>(src: Gen<T>, rank: ORDINAL, f: T -> Gen<U>)
    requires Valid(src) && src.rank < rank
    requires forall v :: f(v).rank < rank && Valid(f(v))
    ensures var l, r := AsLeft<T, U>(), AsRight<T, U>();
      && Valid(Fresh(rank, FlatMap(Embed(src, l), OnGenerator(l, r, f), None)))
      && Drain(Fresh(rank, FlatMap(Embed(src, l), OnGenerator(l, r, f), None))).1
         == MapList(Flatten(InnerLists(Drain(src).1, f)), r.inj)
  {
    var l, r := AsLeft<T, U>(), AsRight<T, U>();
    var k := OnGenerator(l, r, f);
    EmbedMeans(src, l);
    forall v ensures k(v).rank < rank && Valid(k(v)) {
      var t := l.out(v);
      if t.Some? { EmbedMeans(f(t.value), r); }
    }
    forall t ensures Meaning(k(l.inj(t))) == MapList(Meaning(f(t)), r.inj) {
      EmbedMeans(f(t), r);
    }
    FlatMapEmbeds(Meaning(src), f, k, l, r);
    FlatMapDrains(Embed(src, l), rank, k);
  }
}
