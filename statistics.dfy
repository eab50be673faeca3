/**
 * The numpy reductions that `Bootstrap._process_results` applies to the list
 * of bootstrap results, over exact reals: `np.mean`, the population variance
 * under `np.std`, and `np.quantile` with its default linear interpolation.
 */
module Statistics {

  /** Arithmetic sum; numpy's summation order does not matter over reals. */
  function Sum(xs: seq<real>): real
  {
    if xs == [] then 0.0 else xs[0] + Sum(xs[1..])
  }

  /** The smallest element. */
  function Min(xs: seq<real>): (m: real)
    requires xs != []
    ensures m in xs
    ensures forall x :: x in xs ==> m <= x
  {
    if |xs| == 1 then xs[0]
    else
      var rest := Min(xs[1..]);
      assert xs == [xs[0]] + xs[1..];
      if xs[0] <= rest then xs[0] else rest
  }

  /** The largest element. */
  function Max(xs: seq<real>): (m: real)
    requires xs != []
    ensures m in xs
    ensures forall x :: x in xs ==> x <= m
  {
    if |xs| == 1 then xs[0]
    else
      var rest := Max(xs[1..]);
      assert xs == [xs[0]] + xs[1..];
      if rest <= xs[0] then xs[0] else rest
  }

  /** `np.mean`: the sum divided by the count. */
  function Mean(xs: seq<real>): (m: real)
    requires xs != []
  {
    Sum(xs) / (|xs| as real)
  }

  /** The population variance (divisor N), whose square root is `np.std`; it is never negative. */
  function Variance(xs: seq<real>): (v: real)
    requires xs != []
    ensures v >= 0.0
  {
    var m := Mean(xs);
    var ss := SumSquaredDeviations(xs, m);
    SquaresNonNegative(xs, m);
    DivideBetween(ss, |xs| as real, 0.0, ss);
    ss / (|xs| as real)
  }

  function SumSquaredDeviations(xs: seq<real>, m: real): real
  {
    if xs == [] then 0.0 else (xs[0] - m) * (xs[0] - m) + SumSquaredDeviations(xs[1..], m)
  }

  ghost predicate Ascending(s: seq<real>)
  {
    forall i, j :: 0 <= i <= j < |s| ==> s[i] <= s[j]
  }

  /** Inserts `x` into an ascending sequence. */
  function Insert(x: real, s: seq<real>): (r: seq<real>)
    requires Ascending(s)
    ensures Ascending(r)
    ensures multiset(r) == multiset(s) + multiset{x}
  {
    if s == [] then [x]
    else if x <= s[0] then [x] + s
    else
      var rest := Insert(x, s[1..]);
      InsertBehind(x, s, rest);
      [s[0]] + rest
  }

  /** Putting the head of `s` back in front of `x` inserted into the tail keeps the order and the elements. */
  lemma InsertBehind(x: real, s: seq<real>, rest: seq<real>)
    requires Ascending(s) && s != [] && s[0] < x
    requires Ascending(rest) && multiset(rest) == multiset(s[1..]) + multiset{x}
    ensures Ascending([s[0]] + rest)
    ensures multiset([s[0]] + rest) == multiset(s) + multiset{x}
  {
    assert s == [s[0]] + s[1..];
    forall k | 0 <= k < |rest| ensures s[0] <= rest[k] {
      assert rest[k] in multiset(rest);
      if rest[k] != x {
        assert rest[k] in s[1..];
      }
    }
  }

  /** The ascending rearrangement that `np.quantile` reads its order statistics from. */
  function Sort(xs: seq<real>): (s: seq<real>)
    ensures Ascending(s)
    ensures multiset(s) == multiset(xs)
  {
    InsertionSort(xs)
  }

  /**
   * The recursion behind `Sort`. `Sort` is one call deep so that facts about
   * quantiles do not unfold the sort through the solver's fuel.
   */
  function InsertionSort(xs: seq<real>): (s: seq<real>)
    ensures Ascending(s)
    ensures multiset(s) == multiset(xs)
  {
    if xs == [] then []
    else
      assert xs == [xs[0]] + xs[1..];
      Insert(xs[0], InsertionSort(xs[1..]))
  }

  /** The first and last elements of the sorted copy are the minimum and the maximum. */
  lemma SortEnds(xs: seq<real>)
    requires xs != []
    ensures |Sort(xs)| == |xs|
    ensures Sort(xs)[0] == Min(xs) && Sort(xs)[|xs| - 1] == Max(xs)
  {
    var s := Sort(xs);
    assert |s| == |multiset(s)| == |multiset(xs)| == |xs|;
    var first, last := s[0], s[|s| - 1];
    assert first in multiset(xs) && last in multiset(xs);
    assert first in xs && last in xs;
    assert Min(xs) in multiset(s) && Max(xs) in multiset(s);
    var i :| 0 <= i < |s| && s[i] == Min(xs);
    var j :| 0 <= j < |s| && s[j] == Max(xs);
    assert first <= s[i] && s[j] <= last;
  }

  /**
   * `np.quantile(xs, q)` with the default method ("linear"), read from the
   * sorted copy of `xs`.
   */
  function Quantile(xs: seq<real>, q: real): (v: real)
    requires xs != []
    requires 0.0 <= q <= 1.0
    ensures Min(xs) <= v <= Max(xs)
  {
    SortEnds(xs);
    SortedQuantile(Sort(xs), q)
  }

  /**
   * The order statistics at the floor of the virtual index (n - 1) * q and at
   * the next position, interpolated by the fractional part of that index.
   */
  function SortedQuantile(s: seq<real>, q: real): (v: real)
    requires s != [] && Ascending(s)
    requires 0.0 <= q <= 1.0
    ensures s[0] <= v <= s[|s| - 1]
  {
    var n := |s|;
    var h := VirtualIndex(n, q);
    var lo := FloorIndex(h, n - 1);
    var hi := if lo + 1 < n then lo + 1 else n - 1;
    assert s[0] <= s[lo] <= s[hi] <= s[n - 1];
    Lerp(s[lo], s[hi], h - lo as real)
  }

  /** The integer part of a virtual index in [0, top]. */
  function FloorIndex(h: real, top: nat): (lo: nat)
    requires 0.0 <= h <= top as real
    ensures lo <= top
    ensures lo as real <= h < lo as real + 1.0
  {
    h.Floor
  }

  /** The fractional position (n - 1) * q, which lies in [0, n - 1]. */
  function VirtualIndex(n: nat, q: real): (h: real)
    requires n > 0 && 0.0 <= q <= 1.0
    ensures 0.0 <= h <= (n - 1) as real
  {
    ScaleBetween((n - 1) as real, q);
    (n - 1) as real * q
  }

  lemma ScaleBetween(a: real, g: real)
    requires 0.0 <= a && 0.0 <= g <= 1.0
    ensures 0.0 <= a * g <= a
  {
  }

  /**
   * numpy's `_lerp`: the point a fraction `g` of the way from `a` to `b`,
   * which stays between its two ends (`SortedQuantileBetween` states the
   * value the quantile takes through it).
   */
  function Lerp(a: real, b: real, g: real): (r: real)
    requires a <= b && 0.0 <= g <= 1.0
    ensures a <= r <= b
  {
    var w := b - a;
    ScaleBetween(w, g);
    a + w * g
  }

  /** The mean lies between the smallest and the largest element. */
  lemma MeanBetween(xs: seq<real>)
    requires xs != []
    ensures Min(xs) <= Mean(xs) <= Max(xs)
  {
    SumBetween(xs, Min(xs), Max(xs));
    DivideBetween(Sum(xs), |xs| as real, Min(xs), Max(xs));
  }

  /** Each element lies between the bounds, so the sum lies between n times each bound. */
  lemma {:induction false} SumBetween(xs: seq<real>, lo: real, hi: real)
    requires forall x :: x in xs ==> lo <= x <= hi
    ensures (|xs| as real) * lo <= Sum(xs) <= (|xs| as real) * hi
  {
    if xs != [] {
      assert xs[0] in xs;
      assert forall x :: x in xs[1..] ==> x in xs;
      SumBetween(xs[1..], lo, hi);
    }
  }

  lemma DivideBetween(s: real, n: real, lo: real, hi: real)
    requires n > 0.0 && n * lo <= s <= n * hi
    ensures lo <= s / n <= hi
  {
    var m := s / n;
    assert s == n * m;
    if m < lo { LessTimes(n, m, lo); }
    if hi < m { LessTimes(n, hi, m); }
  }

  lemma LessTimes(n: real, a: real, b: real)
    requires n > 0.0 && a < b
    ensures n * a < n * b
  {
    var d := b - a;
    assert n * b == n * a + n * d;
  }

  ghost predicate Constant(xs: seq<real>, c: real)
  {
    forall i :: 0 <= i < |xs| ==> xs[i] == c
  }

  lemma {:induction false} ConstantSum(xs: seq<real>, c: real)
    requires Constant(xs, c)
    ensures Sum(xs) == (|xs| as real) * c
    ensures SumSquaredDeviations(xs, c) == 0.0
  {
    if xs != [] {
      ConstantSum(xs[1..], c);
    }
  }

  /**
   * When every result is the same value `c`, the mean and every quantile
   * are `c` and the variance is zero.
   */
  lemma ConstantStatistics(xs: seq<real>, c: real, q: real)
    requires xs != [] && Constant(xs, c)
    requires 0.0 <= q <= 1.0
    ensures Mean(xs) == c
    ensures Variance(xs) == 0.0
    ensures Quantile(xs, q) == c
  {
    ConstantSum(xs, c);
    var n := |xs| as real;
    assert Sum(xs) / n == c by { assert Sum(xs) == n * c; }
    assert Min(xs) == c && Max(xs) == c by {
      assert Min(xs) in xs && Max(xs) in xs;
    }
  }

  /** The sum of squared deviations is never negative, so neither is the variance. */
  lemma {:induction false} SquaresNonNegative(xs: seq<real>, m: real)
    ensures SumSquaredDeviations(xs, m) >= 0.0
  {
    if xs != [] {
      SquaresNonNegative(xs[1..], m);
      var d := xs[0] - m;
      assert d * d >= 0.0;
    }
  }

  lemma TimesMonotone(a: real, q1: real, q2: real)
    requires 0.0 <= a && q1 <= q2
    ensures a * q1 <= a * q2
  {
    var d := q2 - q1;
    assert a * q2 == a * q1 + a * d;
  }

  lemma VirtualIndexMonotone(n: nat, q1: real, q2: real)
    requires n > 0 && 0.0 <= q1 <= q2 <= 1.0
    ensures VirtualIndex(n, q1) <= VirtualIndex(n, q2)
  {
    var a := (n - 1) as real;
    TimesMonotone(a, q1, q2);
  }

  lemma LerpMonotone(a: real, b: real, g1: real, g2: real)
    requires a <= b && 0.0 <= g1 <= g2 <= 1.0
    ensures Lerp(a, b, g1) <= Lerp(a, b, g2)
  {
    var w := b - a;
    var p1, p2 := w * g1, w * g2;
    TimesMonotone(w, g1, g2);
    assert p1 <= p2;
    assert Lerp(a, b, g1) == a + p1;
    assert Lerp(a, b, g2) == a + p2;
  }

  /**
   * At the level k / (n - 1) the virtual index is exactly k, so the quantile
   * is the k-th order statistic, with no interpolation.
   */
  lemma QuantileAtOrderStatistic(xs: seq<real>, k: nat)
    requires |xs| > 1 && k < |xs|
    ensures 0.0 <= k as real / (|xs| - 1) as real <= 1.0
    ensures |Sort(xs)| == |xs|
    ensures Quantile(xs, k as real / (|xs| - 1) as real) == Sort(xs)[k]
  {
    SortEnds(xs);
    SortedQuantileAt(Sort(xs), k);
  }

  /**
   * Between two order statistics the quantile moves linearly: at a level q
   * whose virtual index (n - 1) * q is k + g, with 0 <= g < 1, it is the
   * k-th smallest result plus the fraction g of the gap to the next one
   * (numpy's default "linear" method).
   */
  lemma QuantileBetween(xs: seq<real>, q: real, k: nat, g: real)
    requires 0.0 <= q <= 1.0 && k + 1 < |xs| && 0.0 <= g < 1.0
    requires (|xs| - 1) as real * q == k as real + g
    ensures |Sort(xs)| == |xs|
    ensures Quantile(xs, q) == Sort(xs)[k] + g * (Sort(xs)[k + 1] - Sort(xs)[k])
  {
    SortLength(xs);
    SortedQuantileBetween(Sort(xs), q, k, g);
  }

  lemma SortLength(xs: seq<real>)
    ensures |Sort(xs)| == |xs|
  {
    assert |multiset(Sort(xs))| == |multiset(xs)|;
  }

  lemma SortedQuantileBetween(s: seq<real>, q: real, k: nat, g: real)
    requires Ascending(s) && 0.0 <= q <= 1.0 && k + 1 < |s| && 0.0 <= g < 1.0
    requires (|s| - 1) as real * q == k as real + g
    ensures SortedQuantile(s, q) == s[k] + g * (s[k + 1] - s[k])
  {
    var n := |s|;
    assert VirtualIndex(n, q) == k as real + g;
    assert FloorIndex(k as real + g, n - 1) == k;
  }

  /** The levels 0 and 1 give the minimum and the maximum. */
  lemma QuantileEnds(xs: seq<real>)
    requires xs != []
    ensures Quantile(xs, 0.0) == Min(xs)
    ensures Quantile(xs, 1.0) == Max(xs)
  {
    SortEnds(xs);
    SortedQuantileEnds(Sort(xs));
  }

  lemma SortedQuantileEnds(s: seq<real>)
    requires s != [] && Ascending(s)
    ensures SortedQuantile(s, 0.0) == s[0]
    ensures SortedQuantile(s, 1.0) == s[|s| - 1]
  {
    var n := |s|;
    assert VirtualIndex(n, 0.0) == 0.0;
    assert FloorIndex(0.0, n - 1) == 0;
    assert VirtualIndex(n, 1.0) == (n - 1) as real;
    assert FloorIndex((n - 1) as real, n - 1) == n - 1;
  }

  lemma SortedQuantileAt(s: seq<real>, k: nat)
    requires Ascending(s) && |s| > 1 && k < |s|
    ensures 0.0 <= k as real / (|s| - 1) as real <= 1.0
    ensures SortedQuantile(s, k as real / (|s| - 1) as real) == s[k]
  {
    var n := |s|;
    var d := (n - 1) as real;
    var q := k as real / d;
    DivideBetween(k as real, d, 0.0, 1.0);
    assert d * q == k as real;
    assert VirtualIndex(n, q) == k as real;
    assert FloorIndex(k as real, n - 1) == k;
  }

  /** A larger level never gives a smaller quantile. */
  lemma QuantileMonotone(xs: seq<real>, q1: real, q2: real)
    requires xs != []
    requires 0.0 <= q1 <= q2 <= 1.0
    ensures Quantile(xs, q1) <= Quantile(xs, q2)
  {
    SortedQuantileMonotone(Sort(xs), q1, q2);
  }

  lemma SortedQuantileMonotone(s: seq<real>, q1: real, q2: real)
    requires s != [] && Ascending(s)
    requires 0.0 <= q1 <= q2 <= 1.0
    ensures SortedQuantile(s, q1) <= SortedQuantile(s, q2)
  {
    var n := |s|;
    var h1, h2 := VirtualIndex(n, q1), VirtualIndex(n, q2);
    VirtualIndexMonotone(n, q1, q2);
    var lo1, lo2 := FloorIndex(h1, n - 1), FloorIndex(h2, n - 1);
    var hi1 := if lo1 + 1 < n then lo1 + 1 else n - 1;
    var hi2 := if lo2 + 1 < n then lo2 + 1 else n - 1;
    assert s[lo1] <= s[hi1] && s[lo2] <= s[hi2];
    if lo1 == lo2 {
      LerpMonotone(s[lo1], s[hi1], h1 - lo1 as real, h2 - lo2 as real);
    } else {
      assert lo1 < lo2;
      assert s[hi1] <= s[lo2];
    }
  }
}
