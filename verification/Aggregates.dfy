/** Sums over the workers of a pool and the contents of a channel. */
module Aggregates {

  function Total(xs: seq<nat>): nat {
    if xs == [] then 0 else xs[0] + Total(xs[1..])
  }

  /** A quantity summed over the workers of a pool or the paths of a list. */
  function Sum<T>(xs: seq<T>, f: T -> nat): nat {
    if xs == [] then 0 else f(xs[0]) + Sum(xs[1..], f)
  }

  lemma {:induction false} SumUpdate<T>(xs: seq<T>, i: nat, x: T, f: T -> nat)
    requires i < |xs|
    ensures Sum(xs[i := x], f) + f(xs[i]) == Sum(xs, f) + f(x)
  {
    if i == 0 {
      assert xs[i := x][1..] == xs[1..];
    } else {
      assert xs[i := x][1..] == xs[1..][i - 1 := x];
      SumUpdate(xs[1..], i - 1, x, f);
    }
  }

  lemma {:induction false} SumAppend<T>(xs: seq<T>, x: T, f: T -> nat)
    ensures Sum(xs + [x], f) == Sum(xs, f) + f(x)
  {
    if xs == [] {
      assert (xs + [x])[1..] == [];
    } else {
      assert (xs + [x])[1..] == xs[1..] + [x];
      SumAppend(xs[1..], x, f);
    }
  }

  lemma {:induction false} SumConstant<T>(xs: seq<T>, k: nat, f: T -> nat)
    requires forall i :: 0 <= i < |xs| ==> f(xs[i]) == k
    ensures Sum(xs, f) == k * |xs|
  {
    if xs == [] {
    } else {
      SumConstant(xs[1..], k, f);
    }
  }

  lemma {:induction false} SumAgree<T>(xs: seq<T>, f: T -> nat, g: T -> nat)
    requires forall i :: 0 <= i < |xs| ==> f(xs[i]) == g(xs[i])
    ensures Sum(xs, f) == Sum(xs, g)
  {
    if xs == [] {
    } else {
      SumAgree(xs[1..], f, g);
    }
  }

  /** A sum of indicators is at most their number, and equal only when all are set. */
  lemma {:induction false} SumIndicators<T>(xs: seq<T>, f: T -> nat)
    requires forall i :: 0 <= i < |xs| ==> f(xs[i]) <= 1
    ensures Sum(xs, f) <= |xs|
    ensures Sum(xs, f) == |xs| <==> forall i :: 0 <= i < |xs| ==> f(xs[i]) == 1
  {
    if xs == [] {
    } else {
      SumIndicators(xs[1..], f);
      forall i | 0 <= i < |xs| && Sum(xs, f) == |xs| ensures f(xs[i]) == 1 {
        if i > 0 { assert xs[i] == xs[1..][i - 1]; }
      }
    }
  }

  function Flatten<T>(xss: seq<seq<T>>): seq<T> {
    if xss == [] then [] else xss[0] + Flatten(xss[1..])
  }

  lemma {:induction false} TotalAppend(xs: seq<nat>, x: nat)
    ensures Total(xs + [x]) == Total(xs) + x
  {
    if xs == [] {
    } else {
      assert (xs + [x])[1..] == xs[1..] + [x];
      TotalAppend(xs[1..], x);
    }
  }

  lemma {:induction false} FlattenAppend<T>(xss: seq<seq<T>>, xs: seq<T>)
    ensures Flatten(xss + [xs]) == Flatten(xss) + xs
  {
    if xss == [] {
      assert xss + [xs] == [xs];
      assert Flatten([xs]) == xs + Flatten<T>([]);
    } else {
      assert (xss + [xs])[1..] == xss[1..] + [xs];
      FlattenAppend(xss[1..], xs);
    }
  }

  /** `xs` is `ys` with some elements left out. */
  predicate Subsequence<T(==)>(xs: seq<T>, ys: seq<T>) {
    xs == [] ||
    (ys != [] && (Subsequence(xs, ys[..|ys| - 1])
                  || (xs[|xs| - 1] == ys[|ys| - 1] && Subsequence(xs[..|xs| - 1], ys[..|ys| - 1]))))
  }

  lemma SubsequenceExtends<T>(xs: seq<T>, ys: seq<T>, y: T)
    requires Subsequence(xs, ys)
    ensures Subsequence(xs, ys + [y]) && Subsequence(xs + [y], ys + [y])
  {
    assert (ys + [y])[..|ys|] == ys && (xs + [y])[..|xs|] == xs;
  }

  /** How often `x` occurs in `xs`. */
  function Occ<T(==)>(xs: seq<T>, x: T): nat {
    if xs == [] then 0 else (if xs[0] == x then 1 else 0) + Occ(xs[1..], x)
  }

  lemma {:induction false} OccConcat<T>(xs: seq<T>, ys: seq<T>, x: T)
    ensures Occ(xs + ys, x) == Occ(xs, x) + Occ(ys, x)
  {
    if xs == [] {
      assert xs + ys == ys;
    } else {
      assert (xs + ys)[1..] == xs[1..] + ys;
      OccConcat(xs[1..], ys, x);
    }
  }

  lemma {:induction false} OccMultiset<T>(xs: seq<T>, x: T)
    ensures Occ(xs, x) == multiset(xs)[x]
  {
    if xs == [] {
    } else {
      assert xs == [xs[0]] + xs[1..];
      OccMultiset(xs[1..], x);
    }
  }
}
