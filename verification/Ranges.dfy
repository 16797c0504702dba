/** How many integers a set within a range holds. */
module Ranges {

  lemma {:induction false} RangeSize(s: set<int>, lo: int, n: nat)
    requires forall i | i in s :: lo <= i < lo + n
    ensures |s| <= n
  {
    if n == 0 {
      assert forall i :: i !in s;
    } else {
      RangeSize(s - {lo + n - 1}, lo, n - 1);
    }
  }

  lemma SubsetSize<T>(a: set<T>, b: set<T>)
    requires a <= b
    ensures |a| <= |b|
  {
    assert b == a + (b - a);
  }

  lemma Least(s: set<int>, n: nat) returns (m: nat)
    requires s != {} && forall i | i in s :: 0 <= i < n
    ensures m in s && forall i | i in s :: m <= i
  {
    m := 0;
    while m !in s
      invariant forall i | i in s :: m <= i
      decreases n - m
    {
      m := m + 1;
    }
  }
}
