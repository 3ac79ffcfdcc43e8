/** Small containers and sequence helpers shared by the whole model. */
module Basics {

  datatype Option<+T> = None | Some(value: T)

  datatype Result<+T, +E> = Success(value: T) | Failure(error: E) {
    predicate IsFailure() {
      Failure?
    }

    function PropagateFailure<U>(): Result<U, E>
      requires Failure?
    {
      Failure(error)
    }

    function Extract(): T
      requires Success?
    {
      value
    }
  }

  /** Elements of `xs` on which `p` holds, in order. */
  function Filter<T>(p: T -> bool, xs: seq<T>): (r: seq<T>)
    ensures forall x | x in r :: x in xs && p(x)
    ensures forall x | x in xs :: p(x) ==> x in r
  {
    if xs == [] then []
    else if p(xs[0]) then [xs[0]] + Filter(p, xs[1..])
    else Filter(p, xs[1..])
  }

  lemma {:induction false} FilterAppend<T>(p: T -> bool, xs: seq<T>, ys: seq<T>)
    ensures Filter(p, xs + ys) == Filter(p, xs) + Filter(p, ys)
  {
    if xs == [] {
      assert xs + ys == ys;
    } else {
      assert (xs + ys)[1..] == xs[1..] + ys;
      FilterAppend(p, xs[1..], ys);
    }
  }

  function Map<T, U>(f: T -> U, xs: seq<T>): (r: seq<U>)
    ensures |r| == |xs|
    ensures forall i :: 0 <= i < |xs| ==> r[i] == f(xs[i])
  {
    if xs == [] then [] else [f(xs[0])] + Map(f, xs[1..])
  }

  lemma MapAppend<T, U>(f: T -> U, xs: seq<T>, ys: seq<T>)
    ensures Map(f, xs + ys) == Map(f, xs) + Map(f, ys)
  {
  }

  predicate NoDuplicates<T(==)>(xs: seq<T>) {
    forall i, j :: 0 <= i < j < |xs| ==> xs[i] != xs[j]
  }

  ghost predicate Any<T>(p: T -> bool, xs: seq<T>) {
    exists x <- xs :: p(x)
  }

  lemma AnyAppended<T>(p: T -> bool, xs: seq<T>, ys: seq<T>)
    ensures Any(p, xs + ys) <==> Any(p, xs) || Any(p, ys)
    ensures |ys| == 1 ==> (Any(p, ys) <==> p(ys[0]))
  {
    if x :| x in xs && p(x) {
      assert x in xs + ys;
    }
    if y :| y in ys && p(y) {
      assert y in xs + ys;
    }
    if |ys| == 1 {
      assert ys[0] in ys;
    }
  }

  lemma AnyMap<T, U>(f: T -> U, p: U -> bool, xs: seq<T>)
    ensures Any(p, Map(f, xs)) <==> exists x <- xs :: p(f(x))
  {
    var ys := Map(f, xs);
    if Any(p, ys) {
      var y :| y in ys && p(y);
      var i :| 0 <= i < |ys| && ys[i] == y;
      assert xs[i] in xs;
    }
    if x :| x in xs && p(f(x)) {
      var i :| 0 <= i < |xs| && xs[i] == x;
      assert ys[i] in ys;
    }
  }

  /** The concatenation of `f(x)` over `xs`. */
  function FlatMap<T, U>(f: T -> seq<U>, xs: seq<T>): seq<U> {
    if xs == [] then [] else FlatMap(f, xs[..|xs| - 1]) + f(xs[|xs| - 1])
  }

  lemma {:induction false} AnyFlatMap<T, U>(f: T -> seq<U>, p: U -> bool, q: T -> bool, xs: seq<T>)
    requires forall x <- xs :: Any(p, f(x)) <==> q(x)
    ensures Any(p, FlatMap(f, xs)) <==> Any(q, xs)
  {
    if xs != [] {
      var rest, last := xs[..|xs| - 1], xs[|xs| - 1];
      AnyFlatMap(f, p, q, rest);
      AnyAppended(p, FlatMap(f, rest), f(last));
      AnyAppended(q, rest, [last]);
      assert xs == rest + [last];
    }
  }
}
