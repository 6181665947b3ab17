/**
 * Arithmetic shared by the aggregation rules: sums and means over sequences
 * (the `reduce((a, b) => a + b, 0)` folds, SQL `AVG` and pandas `mean`),
 * order-preserving filters and first-appearance de-duplication, and the two
 * ways the system rounds to hundredths.
 *
 * All arithmetic is on exact reals; floating-point artefacts are not modelled.
 */
module Numeric {
  import opened Wrappers

  // ---------------------------------------------------------------------------
  // Sums and means
  // ---------------------------------------------------------------------------

  /** Left fold with `+` from 0, as `xs.reduce((acc, cur) => acc + cur, 0)`. */
  function Sum(xs: seq<real>): real
  {
    if xs == [] then 0.0 else Sum(xs[..|xs| - 1]) + xs[|xs| - 1]
  }

  /** The arithmetic mean; callers use it only on non-empty sequences. */
  function Mean(xs: seq<real>): real
  {
    if |xs| == 0 then 0.0 else Sum(xs) / (|xs| as real)
  }

  /** SQL `AVG`: NULL over no rows, otherwise the arithmetic mean. */
  function Average(xs: seq<real>): (r: Option<real>)
    ensures r.None? <==> xs == []
    ensures r.Some? ==> r.value * (|xs| as real) == Sum(xs)
  {
    if xs == [] then None else Some(Mean(xs))
  }

  lemma {:induction false} SumConcat(a: seq<real>, b: seq<real>)
    ensures Sum(a + b) == Sum(a) + Sum(b)
  {
    if b != [] {
      assert (a + b)[..|a + b| - 1] == a + b[..|b| - 1];
      SumConcat(a, b[..|b| - 1]);
    } else {
      assert a + b == a;
    }
  }

  /** A sum of n terms that are all at least lo is at least lo * n. */
  lemma {:induction false} SumAtLeast(xs: seq<real>, lo: real)
    requires forall i :: 0 <= i < |xs| ==> lo <= xs[i]
    ensures lo * (|xs| as real) <= Sum(xs)
  {
    if xs != [] {
      var n := |xs| - 1;
      SumAtLeast(xs[..n], lo);
      assert lo * (n as real) + lo == lo * (|xs| as real);
    }
  }

  /** A sum of n terms that are all at most hi is at most hi * n. */
  lemma {:induction false} SumAtMost(xs: seq<real>, hi: real)
    requires forall i :: 0 <= i < |xs| ==> xs[i] <= hi
    ensures Sum(xs) <= hi * (|xs| as real)
  {
    if xs != [] {
      var n := |xs| - 1;
      SumAtMost(xs[..n], hi);
      assert hi * (n as real) + hi == hi * (|xs| as real);
    }
  }

  /** The mean of values that are all at least lo is at least lo. */
  lemma MeanAtLeast(xs: seq<real>, lo: real)
    requires xs != []
    requires forall i :: 0 <= i < |xs| ==> lo <= xs[i]
    ensures lo <= Mean(xs)
  {
    SumAtLeast(xs, lo);
    assert Mean(xs) * (|xs| as real) == Sum(xs);
  }

  /** The mean of values that are all at most hi is at most hi. */
  lemma MeanAtMost(xs: seq<real>, hi: real)
    requires xs != []
    requires forall i :: 0 <= i < |xs| ==> xs[i] <= hi
    ensures Mean(xs) <= hi
  {
    SumAtMost(xs, hi);
    assert Mean(xs) * (|xs| as real) == Sum(xs);
  }

  /** The mean of values that all lie in [lo, hi] lies in [lo, hi]. */
  lemma MeanBounds(xs: seq<real>, lo: real, hi: real)
    requires xs != []
    requires forall i :: 0 <= i < |xs| ==> lo <= xs[i] <= hi
    ensures lo <= Mean(xs) <= hi
  {
    MeanAtLeast(xs, lo);
    MeanAtMost(xs, hi);
  }

  // ---------------------------------------------------------------------------
  // Filtering and de-duplication
  // ---------------------------------------------------------------------------

  /** `s.filter(p)`: the elements of `s` that satisfy `p`, in their original order. */
  function Filter<T(!new)>(s: seq<T>, p: T -> bool): (r: seq<T>)
    ensures |r| <= |s|
    ensures forall x :: x in r <==> x in s && p(x)
  {
    if s == [] then []
    else
      assert s == s[..|s| - 1] + [s[|s| - 1]];
      Filter(s[..|s| - 1], p) + (if p(s[|s| - 1]) then [s[|s| - 1]] else [])
  }

  /** Filtering commutes with concatenation: kept elements stay in input order. */
  lemma {:induction false} FilterConcat<T(!new)>(a: seq<T>, b: seq<T>, p: T -> bool)
    ensures Filter(a + b, p) == Filter(a, p) + Filter(b, p)
  {
    if b == [] {
      assert a + b == a;
    } else {
      assert (a + b)[..|a + b| - 1] == a + b[..|b| - 1];
      FilterConcat(a, b[..|b| - 1], p);
    }
  }

  /** A filter that keeps everything is the identity. */
  lemma {:induction false} FilterKeepsAll<T(!new)>(s: seq<T>, p: T -> bool)
    requires forall i :: 0 <= i < |s| ==> p(s[i])
    ensures Filter(s, p) == s
  {
    if s != [] {
      FilterKeepsAll(s[..|s| - 1], p);
    }
  }

  /** A filter that keeps nothing gives the empty sequence. */
  lemma {:induction false} FilterKeepsNone<T(!new)>(s: seq<T>, p: T -> bool)
    requires forall i :: 0 <= i < |s| ==> !p(s[i])
    ensures Filter(s, p) == []
  {
    if s != [] {
      FilterKeepsNone(s[..|s| - 1], p);
    }
  }

  /** A filter keeps every copy of a value that passes and no copy of one that fails. */
  lemma {:induction false} FilterMultiplicity<T(!new)>(s: seq<T>, p: T -> bool)
    ensures forall x :: multiset(Filter(s, p))[x] == if p(x) then multiset(s)[x] else 0
  {
    if s != [] {
      var n := |s| - 1;
      FilterMultiplicity(s[..n], p);
      assert s == s[..n] + [s[n]];
      assert multiset(s) == multiset(s[..n]) + multiset{s[n]};
      var kept := if p(s[n]) then [s[n]] else [];
      assert multiset(Filter(s, p)) == multiset(Filter(s[..n], p)) + multiset(kept);
    }
  }

  /** No two positions of `s` hold the same value. */
  predicate Distinct<T(==)>(s: seq<T>)
  {
    forall i, j :: 0 <= i < j < |s| ==> s[i] != s[j]
  }

  /** The distinct values of `xs` in order of first appearance (the keys of a GROUP BY). */
  function Dedup<T(==,!new)>(xs: seq<T>): (d: seq<T>)
    ensures forall x :: x in d <==> x in xs
    ensures Distinct(d)
  {
    if xs == [] then []
    else
      var p := Dedup(xs[..|xs| - 1]);
      var x := xs[|xs| - 1];
      assert xs == xs[..|xs| - 1] + [x];
      if x in p then p else p + [x]
  }

  // ---------------------------------------------------------------------------
  // Rounding to hundredths
  // ---------------------------------------------------------------------------

  /** `r` is a whole number of hundredths. */
  predicate IsHundredths(r: real)
  {
    (r * 100.0).Floor as real == r * 100.0
  }

  /**
   * JavaScript `Math.round(x * 100) / 100`: the nearest hundredth, ties rounded
   * up (towards +infinity). For non-negative `x` this is also `x.toFixed(2)` read
   * back as a number; `toFixed` rounds a negative tie away from zero instead.
   */
  function Round2(x: real): (r: real)
    ensures IsHundredths(r)
    ensures r - 0.005 <= x < r + 0.005
  {
    var k := (x * 100.0 + 0.5).Floor;
    assert (k as real / 100.0) * 100.0 == k as real;
    k as real / 100.0
  }

  /** Round2 is the only hundredth in the half-open window (x - 0.005, x + 0.005]. */
  lemma Round2Unique(x: real, r: real)
    requires IsHundredths(r)
    requires r - 0.005 <= x < r + 0.005
    ensures r == Round2(x)
  {
    var n := (r * 100.0).Floor;
    var m := (Round2(x) * 100.0).Floor;
    assert n as real - 0.5 <= x * 100.0 < n as real + 0.5;
    assert m as real - 0.5 <= x * 100.0 < m as real + 0.5;
    assert n - 1 < m < n + 1;
  }

  /** Rounding to hundredths never reverses an order. */
  lemma Round2Monotone(x: real, y: real)
    requires x <= y
    ensures Round2(x) <= Round2(y)
  {
    assert (x * 100.0 + 0.5).Floor <= (y * 100.0 + 0.5).Floor;
  }

  /** A value already on a hundredth is left alone; so rounding twice is rounding once. */
  lemma Round2Exact(x: real)
    requires IsHundredths(x)
    ensures Round2(x) == x
  {
    Round2Unique(x, x);
  }

  /** Rounds into [lo, hi] whenever x lies there and both bounds are hundredths. */
  lemma Round2Within(x: real, lo: real, hi: real)
    requires IsHundredths(lo) && IsHundredths(hi)
    requires lo <= x <= hi
    ensures lo <= Round2(x) <= hi
  {
    Round2Monotone(lo, x);
    Round2Monotone(x, hi);
    Round2Exact(lo);
    Round2Exact(hi);
  }

  /** The least hundredth that is not below t. */
  function CeilHundredth(t: real): (c: real)
    ensures IsHundredths(c)
    ensures t <= c < t + 0.01
  {
    var y := -t * 100.0;
    var k := y.Floor;
    assert k as real <= y < k as real + 1.0;
    var c := -(k as real) / 100.0;
    assert c * 100.0 == -(k as real);
    assert (c * 100.0).Floor == -k;
    assert t * 100.0 <= c * 100.0 < t * 100.0 + 1.0;
    c
  }

  /** A hundredth that is not below t is not below CeilHundredth(t) either. */
  lemma CeilHundredthIsLeast(x: real, t: real)
    requires IsHundredths(x) && t <= x
    ensures CeilHundredth(t) <= x
  {
    var n := (x * 100.0).Floor;
    var k := (-t * 100.0).Floor;
    assert -(n as real) <= -t * 100.0;
    assert -n <= k;
    assert CeilHundredth(t) == -(k as real) / 100.0;
  }

  /**
   * If values on hundredths are all at least t, their mean rounded to
   * hundredths is at least t as well, even when t is not itself a hundredth.
   */
  lemma RoundedMeanAtLeast(xs: seq<real>, t: real)
    requires xs != []
    requires forall i :: 0 <= i < |xs| ==> IsHundredths(xs[i]) && xs[i] >= t
    ensures Round2(Mean(xs)) >= t
  {
    var c := CeilHundredth(t);
    forall i | 0 <= i < |xs| ensures c <= xs[i] {
      CeilHundredthIsLeast(xs[i], t);
    }
    MeanAtLeast(xs, c);
    Round2Monotone(c, Mean(xs));
    Round2Exact(c);
  }

  /**
   * Python's `round(x, 2)` on an exact value: the nearest hundredth, a tie
   * going to the hundredth whose count of hundredths is even.
   */
  function RoundHalfEven2(x: real): (r: real)
    ensures IsHundredths(r)
    ensures r - 0.005 <= x <= r + 0.005
    ensures (x == r - 0.005 || x == r + 0.005) ==> (r * 100.0).Floor % 2 == 0
  {
    var k := (x * 100.0).Floor;
    var f := x * 100.0 - k as real;
    var m := if f < 0.5 then k else if f > 0.5 then k + 1 else if k % 2 == 0 then k else k + 1;
    assert (m as real / 100.0) * 100.0 == m as real;
    m as real / 100.0
  }

  /** Away from ties, Python's rounding and JavaScript's rounding agree. */
  lemma RoundingsAgreeOffTies(x: real)
    requires RoundHalfEven2(x) - 0.005 < x < RoundHalfEven2(x) + 0.005
    ensures RoundHalfEven2(x) == Round2(x)
  {
    Round2Unique(x, RoundHalfEven2(x));
  }
}
