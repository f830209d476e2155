/** Sums, extremes and medians of integers, as Python computes them. */
module Statistics {
  import opened Ordering
  import opened Numbers

  predicate IntLess(a: int, b: int) { a < b }

  function Sum(xs: seq<int>): int {
    if xs == [] then 0 else Sum(xs[..|xs| - 1]) + xs[|xs| - 1]
  }

  function Smallest(xs: seq<int>): int
    requires xs != []
  {
    if |xs| == 1 then xs[0] else Min(Smallest(xs[..|xs| - 1]), xs[|xs| - 1])
  }

  function Largest(xs: seq<int>): int
    requires xs != []
  {
    if |xs| == 1 then xs[0] else Max(Largest(xs[..|xs| - 1]), xs[|xs| - 1])
  }

  lemma {:induction false} Extremes(xs: seq<int>)
    requires xs != []
    ensures Smallest(xs) in xs && Largest(xs) in xs
    ensures forall x :: x in xs ==> Smallest(xs) <= x <= Largest(xs)
  {
    if |xs| > 1 {
      var init := xs[..|xs| - 1];
      assert xs == init + [xs[|xs| - 1]];
      Extremes(init);
    }
  }

  lemma SortedLength(xs: seq<int>)
    ensures |Sort(IntLess, xs)| == |xs| && forall x :: x in Sort(IntLess, xs) ==> x in xs
  {
    SortContents(IntLess, xs);
    assert |multiset(Sort(IntLess, xs))| == |multiset(xs)|;
    forall x | x in Sort(IntLess, xs) ensures x in xs { assert x in multiset(xs); }
  }

  /** The middle amount, or the mean of the two middle ones. */
  function Median(xs: seq<int>): real
    requires xs != []
  {
    SortedLength(xs);
    var s, n := Sort(IntLess, xs), |xs|;
    if n % 2 == 1 then s[n / 2] as real else (s[n / 2 - 1] + s[n / 2]) as real / 2.0
  }

  lemma {:induction false} SumBounds(xs: seq<int>, low: int, high: int)
    requires forall k :: 0 <= k < |xs| ==> low <= xs[k] <= high
    ensures low * |xs| <= Sum(xs) <= high * |xs|
  {
    if xs != [] {
      SumBounds(xs[..|xs| - 1], low, high);
      OneMore(low, |xs|);
      OneMore(high, |xs|);
    }
  }

  lemma Times(a: int, b: int, n: nat)
    ensures a <= b ==> a * n <= b * n
  {}

  lemma QuotientBounds(sum: int, n: nat, low: int, high: int)
    requires n > 0 && low * n <= sum <= high * n
    ensures low <= sum / n <= high
  {
    var q, rest := sum / n, sum % n;
    assert sum == q * n + rest && 0 <= rest < n;
    OneMore(n, q + 1);
    OneMore(n, high + 1);
    Times(q + 1, low, n);
    Times(high + 1, q, n);
  }

  lemma Halfway(a: int, b: int, low: int, high: int)
    requires low <= a <= high && low <= b <= high
    ensures low as real <= (a + b) as real / 2.0 <= high as real
  {}

  lemma MedianBounds(xs: seq<int>)
    requires xs != []
    ensures Smallest(xs) <= Trunc(Median(xs)) <= Largest(xs)
  {
    SortedLength(xs);
    Extremes(xs);
    var s, n := Sort(IntLess, xs), |xs|;
    assert s[n / 2] in s;
    if n % 2 == 0 {
      assert s[n / 2 - 1] in s;
      Halfway(s[n / 2 - 1], s[n / 2], Smallest(xs), Largest(xs));
    }
    TruncWithin(Median(xs), Smallest(xs), Largest(xs));
  }
}
