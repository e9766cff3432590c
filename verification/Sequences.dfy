/** How often elements occur in sequences built one by one. */
module Sequences {
  /** The number of occurrences of `x`. */
  function Count<T(==)>(xs: seq<T>, x: T): nat {
    if xs == [] then 0
    else Count(xs[..|xs| - 1], x) + if xs[|xs| - 1] == x then 1 else 0
  }

  lemma CountSnoc<T>(xs: seq<T>, y: T, x: T)
    ensures Count(xs + [y], x) == Count(xs, x) + if y == x then 1 else 0
  {
    assert (xs + [y])[..|xs|] == xs;
  }

  lemma CountMaybe<T>(xs: seq<T>, ys: seq<T>, y: T, x: T)
    requires ys == xs || ys == xs + [y]
    ensures Count(ys, x) == Count(xs, x) + if ys == xs + [y] && y == x then 1 else 0
  {
    if ys == xs {
      assert |ys| != |xs + [y]|;
    } else {
      CountSnoc(xs, y, x);
    }
  }

  lemma {:induction false} CountIsMultiplicity<T>(xs: seq<T>, x: T)
    ensures Count(xs, x) == multiset(xs)[x]
  {
    if xs != [] {
      CountIsMultiplicity(xs[..|xs| - 1], x);
      LastCounts(xs);
    }
  }

  lemma SnocCounts<T>(xs: seq<T>, y: T)
    ensures multiset(xs + [y]) == multiset(xs) + multiset{y}
  {}

  lemma LastCounts<T>(xs: seq<T>)
    requires xs != []
    ensures multiset(xs) == multiset(xs[..|xs| - 1]) + multiset{xs[|xs| - 1]}
  {
    assert xs == xs[..|xs| - 1] + [xs[|xs| - 1]];
  }
}
