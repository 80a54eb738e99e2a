/** The array loops of index.js read as operations on sequences: `map`
    (one pushed item per element), `filter` (the elements a test keeps) and
    their combination (zero or one pushed item per element). */
module Sequences {

  /** `f` applied to every element of `xs`, in order. */
  function Map<A, B>(f: A -> B, xs: seq<A>): (r: seq<B>)
    ensures |r| == |xs|
  {
    if xs == [] then [] else Map(f, xs[..|xs| - 1]) + [f(xs[|xs| - 1])]
  }

  /** Position `k` of the mapped sequence holds `f` of element `k`. */
  lemma {:induction false} MapAt<A, B>(f: A -> B, xs: seq<A>, k: nat)
    requires k < |xs|
    ensures Map(f, xs)[k] == f(xs[k])
  {
    var init := xs[..|xs| - 1];
    if k < |init| {
      MapAt(f, init, k);
      assert init[k] == xs[k];
    }
  }

  /** One more element adds its image after the earlier ones. */
  lemma {:induction false} MapStep<A, B>(f: A -> B, xs: seq<A>, i: nat)
    requires i < |xs|
    ensures Map(f, xs[..i + 1]) == Map(f, xs[..i]) + [f(xs[i])]
  {
    assert xs[..i + 1][..i] == xs[..i];
  }

  lemma {:induction false} AppendEmpty<T>(s: seq<T>)
    ensures [] + s == s
  {
  }

  lemma {:induction false} AppendAssoc<T>(a: seq<T>, b: seq<T>, c: seq<T>)
    ensures (a + b) + c == a + (b + c)
  {
  }

  /** Mapping a concatenation maps each part. */
  lemma {:induction false} MapAppend<A, B>(f: A -> B, a: seq<A>, b: seq<A>)
    ensures Map(f, a + b) == Map(f, a) + Map(f, b)
    decreases |b|
  {
    if b == [] {
      assert a + b == a;
    } else {
      var b' := b[..|b| - 1];
      assert (a + b)[..|a + b| - 1] == a + b';
      assert (a + b)[|a + b| - 1] == b[|b| - 1];
      MapAppend(f, a, b');
      AppendAssoc(Map(f, a), Map(f, b'), [f(b[|b| - 1])]);
    }
  }

  /** Mapping `h` is mapping `g` and then `f` when `h` is `f` after `g`. */
  lemma {:induction false} MapCompose<A, B, C>(f: B -> C, g: A -> B, h: A -> C, xs: seq<A>)
    requires forall a :: h(a) == f(g(a))
    ensures Map(h, xs) == Map(f, Map(g, xs))
  {
    if xs != [] {
      var init := xs[..|xs| - 1];
      MapCompose(f, g, h, init);
      assert Map(g, xs)[..|xs| - 1] == Map(g, init);
    }
  }

  /** The elements of `xs` that pass `p`, in order. */
  function Filter<A>(p: A -> bool, xs: seq<A>): (r: seq<A>)
    ensures |r| <= |xs|
  {
    if xs == [] then []
    else Filter(p, xs[..|xs| - 1]) + (if p(xs[|xs| - 1]) then [xs[|xs| - 1]] else [])
  }

  /** Every element kept passes the test and comes from `xs`, and an
      element that passes the test is kept. */
  lemma {:induction false} FilterSpec<A>(p: A -> bool, xs: seq<A>)
    ensures forall i :: 0 <= i < |Filter(p, xs)| ==> p(Filter(p, xs)[i]) && Filter(p, xs)[i] in xs
    ensures forall i :: 0 <= i < |xs| && p(xs[i]) ==> xs[i] in Filter(p, xs)
  {
    if xs != [] {
      var init := xs[..|xs| - 1];
      FilterSpec(p, init);
      var r := Filter(p, xs);
      assert r[..|Filter(p, init)|] == Filter(p, init);
      assert forall i :: 0 <= i < |Filter(p, init)| ==> r[i] == Filter(p, init)[i];
      assert forall x :: x in init ==> x in xs;
      assert forall i :: 0 <= i < |init| ==> xs[i] == init[i];
    }
  }

  /** The items `f` yields for every element of `xs`, in order. */
  function FlatMap<A, B>(f: A -> seq<B>, xs: seq<A>): seq<B> {
    if xs == [] then [] else FlatMap(f, xs[..|xs| - 1]) + f(xs[|xs| - 1])
  }

  /** One more element adds its items after the earlier ones. */
  lemma {:induction false} FlatMapStep<A, B>(f: A -> seq<B>, xs: seq<A>, i: nat)
    requires i < |xs|
    ensures FlatMap(f, xs[..i + 1]) == FlatMap(f, xs[..i]) + f(xs[i])
  {
    assert xs[..i + 1][..i] == xs[..i];
  }

  /** The items of a concatenation are the items of each part. */
  lemma {:induction false} FlatMapAppend<A, B>(f: A -> seq<B>, a: seq<A>, b: seq<A>)
    ensures FlatMap(f, a + b) == FlatMap(f, a) + FlatMap(f, b)
    decreases |b|
  {
    if b == [] {
      assert a + b == a;
    } else {
      var b' := b[..|b| - 1];
      assert (a + b)[..|a + b| - 1] == a + b';
      assert (a + b)[|a + b| - 1] == b[|b| - 1];
      FlatMapAppend(f, a, b');
      AppendAssoc(FlatMap(f, a), FlatMap(f, b'), f(b[|b| - 1]));
    }
  }

  /** When `f` yields one item `g(a)` for the elements passing `p` and none
      for the others, its items are `g` mapped over the elements kept. */
  lemma {:induction false} FlatMapFilter<A, B>(f: A -> seq<B>, g: A -> B, p: A -> bool, xs: seq<A>)
    requires forall a :: f(a) == if p(a) then [g(a)] else []
    ensures FlatMap(f, xs) == Map(g, Filter(p, xs))
  {
    if xs != [] {
      var init := xs[..|xs| - 1];
      var last := xs[|xs| - 1];
      FlatMapFilter(f, g, p, init);
      MapAppend(g, Filter(p, init), if p(last) then [last] else []);
      assert Map(g, [last]) == [g(last)] by {
        assert [last][..0] == [];
      }
    }
  }
}
