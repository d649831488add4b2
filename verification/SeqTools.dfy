/** Sequence vocabulary shared by the models. */
module SeqTools {

  datatype Option<+T> = None | Some(value: T)

  /** JavaScript's `xs.slice(-n)` for a positive n. */
  function LastN<T>(xs: seq<T>, n: nat): seq<T> {
    if |xs| <= n then xs else xs[|xs| - n..]
  }

  /** Keeping the last n before and after appending keeps the last n of the whole. */
  lemma {:induction false} LastNAppend<T>(xs: seq<T>, ys: seq<T>, n: nat)
    ensures LastN(LastN(xs, n) + ys, n) == LastN(xs + ys, n)
  {
  }

  function FlatMap<A, B>(f: A -> seq<B>, xs: seq<A>): seq<B> {
    if xs == [] then [] else f(xs[0]) + FlatMap(f, xs[1..])
  }

  lemma {:induction false} FlatMapAppend<A, B>(f: A -> seq<B>, xs: seq<A>, ys: seq<A>)
    ensures FlatMap(f, xs + ys) == FlatMap(f, xs) + FlatMap(f, ys)
  {
    if xs == [] {
      assert xs + ys == ys;
    } else {
      FlatMapAppend(f, xs[1..], ys);
      var zs := xs + ys;
      assert zs[0] == xs[0] && zs[1..] == xs[1..] + ys;
      var a, b, c := f(xs[0]), FlatMap(f, xs[1..]), FlatMap(f, ys);
      assert a + (b + c) == a + b + c;
    }
  }

  lemma {:induction false} FlatMapSnoc<A, B>(f: A -> seq<B>, xs: seq<A>, x: A)
    ensures FlatMap(f, xs + [x]) == FlatMap(f, xs) + f(x)
  {
    FlatMapAppend(f, xs, [x]);
    assert FlatMap(f, [x]) == f(x) + FlatMap(f, []);
  }

  lemma {:induction false} FlatMapOrigin<A, B>(f: A -> seq<B>, xs: seq<A>, y: B) returns (x: A)
    requires y in FlatMap(f, xs)
    ensures x in xs && y in f(x)
  {
    if y in f(xs[0]) { x := xs[0]; } else { x := FlatMapOrigin(f, xs[1..], y); }
  }

  lemma {:induction false} FlatMapSingles<A, B>(f: A -> seq<B>, xs: seq<A>, ys: seq<B>)
    requires |xs| == |ys| && forall i :: 0 <= i < |xs| ==> f(xs[i]) == [ys[i]]
    ensures FlatMap(f, xs) == ys
  {
    if xs != [] { FlatMapSingles(f, xs[1..], ys[1..]); }
  }

  lemma {:induction false} FlatMapNothing<A, B>(f: A -> seq<B>, xs: seq<A>)
    requires forall x <- xs :: f(x) == []
    ensures FlatMap(f, xs) == []
  {
    if xs != [] { FlatMapNothing(f, xs[1..]); }
  }

  lemma {:induction false} FlatMapUpdate<A, B>(f: A -> seq<B>, xs: seq<A>, i: nat, x: A)
    requires i < |xs|
    ensures FlatMap(f, xs[i := x]) == FlatMap(f, xs[..i]) + f(x) + FlatMap(f, xs[i + 1..])
  {
    assert xs[i := x] == xs[..i] + [x] + xs[i + 1..];
    FlatMapAppend(f, xs[..i] + [x], xs[i + 1..]);
    FlatMapSnoc(f, xs[..i], x);
  }

  lemma {:induction false} FlatMapNext<A, B>(f: A -> seq<B>, xs: seq<A>, n: nat)
    requires n < |xs|
    ensures FlatMap(f, xs[..n + 1]) == FlatMap(f, xs[..n]) + f(xs[n])
  {
    FlatMapSnoc(f, xs[..n], xs[n]);
    assert xs[..n + 1] == xs[..n] + [xs[n]];
  }

  lemma {:induction false} SubsetSize<T>(a: set<T>, b: set<T>)
    requires a <= b
    ensures |a| <= |b|
    ensures a != b ==> |a| < |b|
  {
    assert b == a + (b - a) && a !! (b - a);
  }
}
