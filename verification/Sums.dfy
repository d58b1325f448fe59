/** Sums of a quantity over the threads of a program. */
module Sums {

  ghost function Sum<A>(f: A -> int, xs: seq<A>): int {
    if xs == [] then 0 else f(xs[0]) + Sum(f, xs[1..])
  }

  lemma {:induction false} SumUpdate<A>(f: A -> int, xs: seq<A>, i: nat, x: A)
    requires i < |xs|
    ensures Sum(f, xs[i := x]) == Sum(f, xs) - f(xs[i]) + f(x)
  {
    if i == 0 {
      assert xs[i := x][1..] == xs[1..];
    } else {
      assert xs[i := x][1..] == xs[1..][i - 1 := x];
      SumUpdate(f, xs[1..], i - 1, x);
    }
  }

  /** Two quantities that differ by at most d at every thread. */
  lemma {:induction false} SumWithin<A>(f: A -> int, g: A -> int, xs: seq<A>, d: nat)
    requires forall x | x in xs :: g(x) <= f(x) + d
    ensures Sum(g, xs) <= Sum(f, xs) + d * |xs|
  {
    if xs != [] { SumWithin(f, g, xs[1..], d); }
  }

  lemma {:induction false} SumConst<A>(f: A -> int, xs: seq<A>, c: int)
    requires forall x | x in xs :: f(x) == c
    ensures Sum(f, xs) == c * |xs|
  {
    if xs != [] { SumConst(f, xs[1..], c); }
  }

  lemma {:induction false} SumBounds<A>(f: A -> int, xs: seq<A>, lo: int, hi: int)
    requires forall x | x in xs :: lo <= f(x) <= hi
    ensures lo * |xs| <= Sum(f, xs) <= hi * |xs|
  {
    if xs != [] { SumBounds(f, xs[1..], lo, hi); }
  }

  lemma {:induction false} SumAtLeastZero<A>(f: A -> int, xs: seq<A>)
    requires forall x | x in xs :: f(x) >= 0
    ensures Sum(f, xs) >= 0
  {
    if xs != [] { SumAtLeastZero(f, xs[1..]); }
  }

  lemma {:induction false} SumSame<A>(f: A -> int, g: A -> int, xs: seq<A>)
    requires forall x | x in xs :: f(x) == g(x)
    ensures Sum(f, xs) == Sum(g, xs)
  {
    if xs != [] { SumSame(f, g, xs[1..]); }
  }
}
