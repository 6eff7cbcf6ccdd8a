/** Finite sums over sequences and sets, and powers of two, used by the counting and accounting arguments. */
module Sums {

  ghost function Sum<T>(s: seq<T>, f: T -> int): int {
    if s == [] then 0 else Sum(s[..|s| - 1], f) + f(s[|s| - 1])
  }

  lemma SumAppend<T>(s: seq<T>, x: T, f: T -> int)
    ensures Sum(s + [x], f) == Sum(s, f) + f(x)
  {
    assert (s + [x])[..|s|] == s;
  }

  lemma {:induction false} SumUpdate<T>(s: seq<T>, i: nat, x: T, f: T -> int)
    requires i < |s|
    ensures Sum(s[i := x], f) == Sum(s, f) - f(s[i]) + f(x)
  {
    var n := |s| - 1;
    if i == n {
      assert s[i := x][..n] == s[..n];
    } else {
      assert s[i := x][..n] == s[..n][i := x];
      SumUpdate(s[..n], i, x, f);
    }
  }

  lemma {:induction false} SumBounds<T>(s: seq<T>, f: T -> int, lo: int)
    requires forall x <- s :: f(x) >= lo
    ensures Sum(s, f) >= lo * |s|
  {
    if s != [] {
      SumBounds(s[..|s| - 1], f, lo);
    }
  }

  ghost function SetSum<T(!new)>(s: set<T>, f: T -> int): int {
    if s == {} then 0 else var x :| x in s; f(x) + SetSum(s - {x}, f)
  }

  /** The sum does not depend on the order in which elements are drawn. */
  lemma {:induction false} SetSumRemove<T(!new)>(s: set<T>, x: T, f: T -> int)
    requires x in s
    ensures SetSum(s, f) == f(x) + SetSum(s - {x}, f)
  {
    var y :| y in s && SetSum(s, f) == f(y) + SetSum(s - {y}, f);
    if y != x {
      SetSumRemove(s - {y}, x, f);
      SetSumRemove(s - {x}, y, f);
      assert s - {y} - {x} == s - {x} - {y};
    }
  }

  lemma SetSumInsert<T(!new)>(s: set<T>, x: T, f: T -> int)
    requires x !in s
    ensures SetSum(s + {x}, f) == SetSum(s, f) + f(x)
  {
    SetSumRemove(s + {x}, x, f);
    assert s + {x} - {x} == s;
  }

  lemma {:induction false} SetSumAgree<T(!new)>(s: set<T>, f: T -> int, g: T -> int)
    requires forall x <- s :: f(x) == g(x)
    ensures SetSum(s, f) == SetSum(s, g)
    decreases s
  {
    if s != {} {
      var x :| x in s;
      SetSumRemove(s, x, f);
      SetSumRemove(s, x, g);
      SetSumAgree(s - {x}, f, g);
    }
  }

  /** Changing the summand at one element changes the sum by the difference. */
  lemma SetSumChange<T(!new)>(s: set<T>, x: T, f: T -> int, g: T -> int)
    requires x in s
    requires forall y <- s :: y != x ==> f(y) == g(y)
    ensures SetSum(s, g) == SetSum(s, f) - f(x) + g(x)
  {
    SetSumRemove(s, x, f);
    SetSumRemove(s, x, g);
    SetSumAgree(s - {x}, f, g);
  }

  lemma {:induction false} SetSumMonotone<T(!new)>(s: set<T>, f: T -> int, g: T -> int)
    requires forall x <- s :: f(x) <= g(x)
    ensures SetSum(s, f) <= SetSum(s, g)
    decreases s
  {
    if s != {} {
      var x :| x in s;
      SetSumRemove(s, x, f);
      SetSumRemove(s, x, g);
      SetSumMonotone(s - {x}, f, g);
    }
  }

  lemma SubsetCardinality<T>(small: set<T>, big: set<T>)
    requires small <= big
    ensures |small| <= |big|
    ensures |small| >= |big| ==> small == big
  {
    assert big == small + (big - small);
    assert |big| == |small| + |big - small|;
  }

  ghost function Pow2(n: nat): (p: nat)
    ensures p >= 1
  {
    if n == 0 then 1 else 2 * Pow2(n - 1)
  }
}
