/**
 * Exact descriptive statistics over finite sequences of reals: the sums,
 * means, sample (co)variances, extrema, sorting and percentiles that the
 * pandas and numpy calls of the source compute in floating point.
 */
module Stats {
  import opened Base

  function Sum(xs: seq<real>): real
  {
    if xs == [] then 0.0 else Sum(xs[..|xs| - 1]) + xs[|xs| - 1]
  }

  function Product(xs: seq<real>): real
  {
    if xs == [] then 1.0 else Product(xs[..|xs| - 1]) * xs[|xs| - 1]
  }

  function Mean(xs: seq<real>): real
    requires |xs| > 0
  {
    Sum(xs) / |xs| as real
  }

  /** `Series.mean()`: NaN for an empty series. */
  function MeanCell(xs: seq<real>): Cell
  {
    if xs == [] then None else Some(Mean(xs))
  }

  /** `Series.sum()`: zero for an empty series. */
  function SumCell(xs: seq<real>): Cell
  {
    Some(Sum(xs))
  }

  /** The product of two deviations from their centres. */
  function Deviation(x: real, y: real, mx: real, my: real): real
  {
    (x - mx) * (y - my)
  }

  /** The sum of the products of deviations from the given centres. */
  function CrossDeviation(xs: seq<real>, ys: seq<real>, mx: real, my: real): real
    requires |xs| == |ys|
  {
    if xs == [] then 0.0
    else CrossDeviation(xs[..|xs| - 1], ys[..|ys| - 1], mx, my) + Deviation(xs[|xs| - 1], ys[|ys| - 1], mx, my)
  }

  /** Sample covariance (`Series.cov`, one degree of freedom removed). */
  function Covariance(xs: seq<real>, ys: seq<real>): real
    requires |xs| == |ys| >= 2
  {
    CrossDeviation(xs, ys, Mean(xs), Mean(ys)) / (|xs| - 1) as real
  }

  /** Sample variance (`Series.var()`). */
  function Variance(xs: seq<real>): real
    requires |xs| >= 2
  {
    Covariance(xs, xs)
  }

  /**
   * What the model assumes of `np.sqrt`: it maps a non-negative number to
   * the non-negative number whose square it is, which is zero exactly for
   * zero.
   */
  ghost predicate IsSqrt(sqrt: real -> real)
  {
    forall x :: 0.0 <= x ==> 0.0 <= sqrt(x) && sqrt(x) * sqrt(x) == x && (sqrt(x) == 0.0 <==> x == 0.0)
  }

  /** `Series.std()`: the sample standard deviation, NaN below two values. */
  function Std(sqrt: real -> real, xs: seq<real>): Cell
  {
    if |xs| < 2 then None else Some(sqrt(Variance(xs)))
  }

  function SeqMin(xs: seq<real>): (m: real)
    requires |xs| > 0
    ensures forall i :: 0 <= i < |xs| ==> m <= xs[i]
    ensures exists i :: 0 <= i < |xs| && m == xs[i]
  {
    if |xs| == 1 then xs[0]
    else
      var m' := SeqMin(xs[..|xs| - 1]);
      if xs[|xs| - 1] < m' then xs[|xs| - 1] else m'
  }

  function SeqMax(xs: seq<real>): (m: real)
    requires |xs| > 0
    ensures forall i :: 0 <= i < |xs| ==> xs[i] <= m
    ensures exists i :: 0 <= i < |xs| && m == xs[i]
  {
    if |xs| == 1 then xs[0]
    else
      var m' := SeqMax(xs[..|xs| - 1]);
      if m' < xs[|xs| - 1] then xs[|xs| - 1] else m'
  }

  function MinCell(xs: seq<real>): Cell
  {
    if xs == [] then None else Some(SeqMin(xs))
  }

  function MaxCell(xs: seq<real>): Cell
  {
    if xs == [] then None else Some(SeqMax(xs))
  }

  /** The elements satisfying `keep`, in their original order (boolean indexing). */
  function Filter(xs: seq<real>, keep: real -> bool): (r: seq<real>)
    ensures |r| <= |xs|
    ensures forall i :: 0 <= i < |r| ==> keep(r[i])
    ensures forall i :: 0 <= i < |r| ==> r[i] in xs
    ensures |r| == 0 <==> forall i :: 0 <= i < |xs| ==> !keep(xs[i])
  {
    if xs == [] then []
    else
      var r' := Filter(xs[..|xs| - 1], keep);
      if keep(xs[|xs| - 1]) then r' + [xs[|xs| - 1]] else r'
  }

  /** Every element satisfying `keep` is kept, as often as it occurs, and no other. */
  lemma {:induction false} FilterMultiset(xs: seq<real>, keep: real -> bool)
    ensures forall x :: multiset(Filter(xs, keep))[x] == if keep(x) then multiset(xs)[x] else 0
  {
    if xs != [] {
      FilterMultiset(xs[..|xs| - 1], keep);
      assert xs == xs[..|xs| - 1] + [xs[|xs| - 1]];
    }
  }

  lemma FilterStep(xs: seq<real>, keep: real -> bool)
    requires xs != []
    ensures Filter(xs, keep) ==
      Filter(xs[..|xs| - 1], keep) + if keep(xs[|xs| - 1]) then [xs[|xs| - 1]] else []
  {
  }

  /** Filtering a concatenation filters each part, in order. */
  lemma {:induction false} FilterAppend(xs: seq<real>, ys: seq<real>, keep: real -> bool)
    ensures Filter(xs + ys, keep) == Filter(xs, keep) + Filter(ys, keep)
    decreases |ys|
  {
    if ys == [] {
      assert xs + ys == xs;
    } else {
      var zs := xs + ys;
      var front, last := ys[..|ys| - 1], ys[|ys| - 1];
      assert zs[..|zs| - 1] == xs + front;
      assert zs[|zs| - 1] == last;
      var tail := if keep(last) then [last] else [];
      calc {
        Filter(zs, keep);
        { FilterStep(zs, keep); }
        Filter(xs + front, keep) + tail;
        { FilterAppend(xs, front, keep); }
        Filter(xs, keep) + Filter(front, keep) + tail;
        { FilterStep(ys, keep); }
        Filter(xs, keep) + Filter(ys, keep);
      }
    }
  }

  function Scale(xs: seq<real>, k: real): (r: seq<real>)
    ensures |r| == |xs|
    ensures forall i :: 0 <= i < |xs| ==> r[i] == k * xs[i]
  {
    seq(|xs|, i requires 0 <= i < |xs| => k * xs[i])
  }

  predicate SortedAsc(s: seq<real>)
  {
    forall i, j :: 0 <= i < j < |s| ==> s[i] <= s[j]
  }

  /** Inserts `x` into a sorted sequence, before the first element not below it. */
  function Insert(s: seq<real>, x: real): (r: seq<real>)
    requires SortedAsc(s)
    ensures |r| == |s| + 1
    ensures r[0] == x || (|s| > 0 && r[0] == s[0])
    ensures SortedAsc(r)
    ensures multiset(r) == multiset(s) + multiset{x}
  {
    if s == [] || x <= s[0] then [x] + s
    else
      assert s == [s[0]] + s[1..];
      [s[0]] + Insert(s[1..], x)
  }

  /** The ascending order numpy sorts a sample into before taking a percentile. */
  function SortAsc(xs: seq<real>): (r: seq<real>)
    ensures |r| == |xs|
    ensures SortedAsc(r)
    ensures multiset(r) == multiset(xs)
  {
    if xs == [] then []
    else
      assert xs == xs[..|xs| - 1] + [xs[|xs| - 1]];
      Insert(SortAsc(xs[..|xs| - 1]), xs[|xs| - 1])
  }

  /** `abs(a - b) <= atol + rtol * abs(b)` with numpy's default tolerances. */
  predicate IsClose(a: real, b: real)
  {
    Abs(a - b) <= 0.00000001 + 0.00001 * Abs(b)
  }

  /** Linear interpolation at fractional position `h` of a sequence. */
  function Interpolate(s: seq<real>, h: real): (r: real)
    requires |s| > 0 && 0.0 <= h <= (|s| - 1) as real
    ensures SortedAsc(s) ==> s[h.Floor] <= r <= s[if h.Floor + 1 < |s| then h.Floor + 1 else |s| - 1]
  {
    var k := h.Floor;
    var j := if k + 1 < |s| then k + 1 else |s| - 1;
    LerpSorted(s, k, j, h - k as real);
    s[k] + (h - k as real) * (s[j] - s[k])
  }

  /**
   * `np.percentile(xs, q)` with numpy's default linear interpolation: the
   * value at fractional position `(n - 1) * q / 100` of the sorted sample.
   */
  function Percentile(xs: seq<real>, q: real): (r: real)
    requires |xs| > 0 && 0.0 <= q <= 100.0
    ensures SeqMin(xs) <= r <= SeqMax(xs)
  {
    var s := SortAsc(xs);
    var h := Position(|s|, q);
    InterpolateInSample(xs, s, h);
    Interpolate(s, h)
  }

  /** The fractional position of the `q`-th percentile among `n` sorted values. */
  function Position(n: nat, q: real): (h: real)
    requires n > 0 && 0.0 <= q <= 100.0
    ensures 0.0 <= h <= (n - 1) as real
  {
    PositionBounds(n, q);
    (n - 1) as real * (q / 100.0)
  }

  // ---------------------------------------------------------------------
  // Lemmas

  lemma PositionBounds(n: nat, q: real)
    requires n > 0 && 0.0 <= q <= 100.0
    ensures 0.0 <= (n - 1) as real * (q / 100.0) <= (n - 1) as real
  {
    var f := q / 100.0;
    assert 0.0 <= f <= 1.0;
    assert (n - 1) as real * (1.0 - f) >= 0.0;
  }

  /** Interpolating between two values of a sorted sample stays within the sample. */
  lemma InterpolateInSample(xs: seq<real>, s: seq<real>, h: real)
    requires |xs| > 0 && |s| == |xs| && SortedAsc(s) && multiset(s) == multiset(xs)
    requires 0.0 <= h <= (|s| - 1) as real
    ensures SeqMin(xs) <= Interpolate(s, h) <= SeqMax(xs)
  {
    SortedElementsInSample(xs, s, h.Floor);
    SortedElementsInSample(xs, s, if h.Floor + 1 < |s| then h.Floor + 1 else |s| - 1);
  }

  lemma Lerp(a: real, b: real, t: real)
    requires a <= b && 0.0 <= t <= 1.0
    ensures a <= a + t * (b - a) <= b
  {
    var d := b - a;
    NonNegativeProduct(t, d);
    NonNegativeProduct(1.0 - t, d);
    assert t * d + (1.0 - t) * d == d;
  }

  lemma LerpSorted(s: seq<real>, k: int, j: int, t: real)
    requires 0 <= k <= j < |s| && 0.0 <= t <= 1.0
    ensures SortedAsc(s) ==> s[k] <= s[k] + t * (s[j] - s[k]) <= s[j]
  {
    if SortedAsc(s) {
      Lerp(s[k], s[j], t);
    }
  }

  lemma SortedElementsInSample(xs: seq<real>, s: seq<real>, k: int)
    requires |xs| > 0 && multiset(s) == multiset(xs) && 0 <= k < |s|
    ensures SeqMin(xs) <= s[k] <= SeqMax(xs)
  {
    assert s[k] in multiset(s);
    assert s[k] in multiset(xs);
    var i :| 0 <= i < |xs| && xs[i] == s[k];
  }

  lemma {:induction false} SumBounds(xs: seq<real>, lo: real, hi: real)
    requires forall i :: 0 <= i < |xs| ==> lo <= xs[i] <= hi
    ensures |xs| as real * lo <= Sum(xs) <= |xs| as real * hi
  {
    if xs != [] {
      SumBounds(xs[..|xs| - 1], lo, hi);
    }
  }

  /** The mean lies between any common bounds of the values. */
  lemma MeanBounds(xs: seq<real>, lo: real, hi: real)
    requires |xs| > 0
    requires forall i :: 0 <= i < |xs| ==> lo <= xs[i] <= hi
    ensures lo <= Mean(xs) <= hi
  {
    SumBounds(xs, lo, hi);
    QuotientBounds(Sum(xs), |xs| as real, lo, hi);
  }

  lemma QuotientBounds(s: real, n: real, lo: real, hi: real)
    requires n > 0.0
    requires n * lo <= s <= n * hi
    ensures lo <= s / n <= hi
  {
    var q := s / n;
    assert q * n == s;
    assert (q - lo) * n >= 0.0;
    assert (hi - q) * n >= 0.0;
  }

  lemma MeanOfConstant(xs: seq<real>, c: real)
    requires |xs| > 0
    requires forall i :: 0 <= i < |xs| ==> xs[i] == c
    ensures Mean(xs) == c
  {
    MeanBounds(xs, c, c);
  }

  /** Every value lies within the minimum and maximum, and so does the mean. */
  lemma MeanWithinExtremes(xs: seq<real>)
    requires |xs| > 0
    ensures SeqMin(xs) <= Mean(xs) <= SeqMax(xs)
  {
    MeanBounds(xs, SeqMin(xs), SeqMax(xs));
  }

  lemma {:induction false} SumScale(xs: seq<real>, k: real)
    ensures Sum(Scale(xs, k)) == k * Sum(xs)
  {
    if xs != [] {
      var ys := Scale(xs, k);
      var n := |xs| - 1;
      assert forall i :: 0 <= i < n ==> ys[..n][i] == Scale(xs[..n], k)[i];
      assert ys[..n] == Scale(xs[..n], k);
      SumScale(xs[..|xs| - 1], k);
    }
  }

  lemma {:induction false} CrossDeviationSquares(xs: seq<real>, m: real)
    ensures CrossDeviation(xs, xs, m, m) >= 0.0
  {
    if xs != [] {
      CrossDeviationSquares(xs[..|xs| - 1], m);
      var d := xs[|xs| - 1] - m;
      assert Deviation(xs[|xs| - 1], xs[|xs| - 1], m, m) == d * d;
    }
  }

  lemma VarianceNonNegative(xs: seq<real>)
    requires |xs| >= 2
    ensures Variance(xs) >= 0.0
  {
    CrossDeviationSquares(xs, Mean(xs));
  }

  lemma {:induction false} CrossDeviationAtCentre(xs: seq<real>, ys: seq<real>, mx: real, my: real)
    requires |xs| == |ys|
    requires forall i :: 0 <= i < |xs| ==> xs[i] == mx
    ensures CrossDeviation(xs, ys, mx, my) == 0.0
  {
    if xs != [] {
      CrossDeviationAtCentre(xs[..|xs| - 1], ys[..|ys| - 1], mx, my);
    }
  }

  /** A constant sample has no dispersion. */
  lemma ConstantVariance(xs: seq<real>, c: real)
    requires |xs| >= 2
    requires forall i :: 0 <= i < |xs| ==> xs[i] == c
    ensures Variance(xs) == 0.0
  {
    MeanOfConstant(xs, c);
    CrossDeviationAtCentre(xs, xs, c, c);
  }

  lemma {:induction false} CrossDeviationSymmetric(xs: seq<real>, ys: seq<real>, mx: real, my: real)
    requires |xs| == |ys|
    ensures CrossDeviation(xs, ys, mx, my) == CrossDeviation(ys, xs, my, mx)
  {
    if xs != [] {
      CrossDeviationSymmetric(xs[..|xs| - 1], ys[..|ys| - 1], mx, my);
    }
  }

  lemma CovarianceSymmetric(xs: seq<real>, ys: seq<real>)
    requires |xs| == |ys| >= 2
    ensures Covariance(xs, ys) == Covariance(ys, xs)
  {
    CrossDeviationSymmetric(xs, ys, Mean(xs), Mean(ys));
  }

  lemma SqrtPositive(sqrt: real -> real, x: real)
    requires IsSqrt(sqrt)
    requires 0.0 <= x
    ensures 0.0 <= sqrt(x)
    ensures sqrt(x) == 0.0 <==> x == 0.0
    ensures sqrt(x) * sqrt(x) == x
  {
  }

  /** The standard deviation is zero exactly when the sample variance is. */
  lemma StdZeroIffVarianceZero(sqrt: real -> real, xs: seq<real>)
    requires IsSqrt(sqrt)
    requires |xs| >= 2
    ensures Std(sqrt, xs).Some? && Std(sqrt, xs).value >= 0.0
    ensures Std(sqrt, xs).value == 0.0 <==> Variance(xs) == 0.0
  {
    VarianceNonNegative(xs);
    SqrtPositive(sqrt, Variance(xs));
  }

  lemma {:induction false} FilterMean(xs: seq<real>, keep: real -> bool, t: real)
    requires forall x :: keep(x) ==> x <= t
    requires |Filter(xs, keep)| > 0
    ensures Mean(Filter(xs, keep)) <= t
  {
    var f := Filter(xs, keep);
    var lo := SeqMin(f);
    MeanBounds(f, lo, t);
  }

  lemma NonNegativeProduct(a: real, b: real)
    requires 0.0 <= a && 0.0 <= b
    ensures 0.0 <= a * b
  {
  }

  /** `Series.min()`: the smallest defined value, NaN when every value is NaN. */
  function MinSkipNa(c: Column): (m: Cell)
    ensures m.Some? <==> exists i :: 0 <= i < |c| && c[i].Some?
    ensures m.Some? ==> forall i :: 0 <= i < |c| && c[i].Some? ==> m.value <= c[i].value
    ensures m.Some? ==> exists i :: 0 <= i < |c| && c[i] == m
  {
    if c == [] then None
    else
      var front := MinSkipNa(c[..|c| - 1]);
      var last := c[|c| - 1];
      if last.None? then front
      else if front.None? || last.value < front.value then last
      else front
  }

  lemma MinSkipNaOfConstant(c: Column, x: real)
    requires |c| > 0
    requires forall i :: 0 <= i < |c| ==> c[i] == Some(x)
    ensures MinSkipNa(c) == Some(x)
  {
    assert c[0].Some?;
  }
}
