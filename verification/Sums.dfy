/** Sequences used as bags: sums, appending, and removing at any position. */
module Sums {

  predicate Distinct<T(==)>(xs: seq<T>) { forall i, j :: 0 <= i < j < |xs| ==> xs[i] != xs[j] }

  function Sum<T>(f: T -> int, xs: seq<T>): int {
    if xs == [] then 0 else f(xs[0]) + Sum(f, xs[1..])
  }

  /** The sequence without its element at position `k`. */
  function RemoveAt<T>(xs: seq<T>, k: nat): seq<T>
    requires k < |xs|
  {
    xs[..k] + xs[k + 1..]
  }

  lemma ConcatFirst<T>(xs: seq<T>, ys: seq<T>)
    requires xs != []
    ensures (xs + ys)[0] == xs[0] && (xs + ys)[1..] == xs[1..] + ys
  {
  }

  lemma PairIsConcat<T>(x: T, y: T)
    ensures [x, y] == [x] + [y]
  {
  }

  lemma {:induction false} SumConcat<T>(f: T -> int, xs: seq<T>, ys: seq<T>)
    ensures Sum(f, xs + ys) == Sum(f, xs) + Sum(f, ys)
  {
    if xs == [] {
      assert xs + ys == ys;
    } else {
      ConcatFirst(xs, ys);
      SumConcat(f, xs[1..], ys);
    }
  }

  lemma {:induction false} SumSnoc<T>(f: T -> int, xs: seq<T>, x: T)
    ensures Sum(f, xs + [x]) == Sum(f, xs) + f(x)
  {
    SumConcat(f, xs, [x]);
    assert Sum(f, [x]) == f(x) + Sum(f, [x][1..]);
  }

  lemma {:induction false} SumRemove<T>(f: T -> int, xs: seq<T>, k: nat)
    requires k < |xs|
    ensures Sum(f, RemoveAt(xs, k)) == Sum(f, xs) - f(xs[k])
  {
    assert xs == xs[..k] + ([xs[k]] + xs[k + 1..]);
    SumConcat(f, xs[..k], [xs[k]] + xs[k + 1..]);
    SumConcat(f, xs[..k], xs[k + 1..]);
  }

  lemma {:induction false} SumNonNegative<T>(f: T -> int, xs: seq<T>)
    requires forall x :: x in xs ==> f(x) >= 0
    ensures Sum(f, xs) >= 0
  {
    if xs != [] {
      SumNonNegative(f, xs[1..]);
    }
  }

  lemma {:induction false} SumZero<T>(f: T -> int, xs: seq<T>)
    requires forall x :: x in xs ==> f(x) == 0
    ensures Sum(f, xs) == 0
  {
    if xs != [] {
      SumZero(f, xs[1..]);
    }
  }

  lemma RemoveAtMembers<T>(xs: seq<T>, k: nat, x: T)
    requires k < |xs|
    ensures x in RemoveAt(xs, k) ==> x in xs
  {
  }
}
