/**
 * Risk and performance metrics (`app/components/metrics.py`): summary
 * statistics, maximum drawdown, Sharpe, Sortino and Calmar ratios, value at
 * risk, portfolio aggregation and beta, rolling metrics and the stock
 * comparison table.
 */
module Metrics {
  import opened Base
  import opened Stats
  import opened Rolling
  import Config
  import Indicators
  import Loader

  // ------------------------------------------------------- Max drawdown

  /** `(1 + returns).cumprod()` at row `i`: the growth of one unit invested. */
  function Growth(r: seq<real>, i: nat): real
    requires i < |r|
  {
    if i == 0 then 1.0 + r[0] else Growth(r, i - 1) * (1.0 + r[i])
  }

  /** `cumulative.cummax()` at row `i`: the highest growth so far. */
  function Peak(r: seq<real>, i: nat): real
    requires i < |r|
  {
    if i == 0 then Growth(r, 0) else Max(Peak(r, i - 1), Growth(r, i))
  }

  /** The drawdown at row `i`: the fall from the peak as a fraction of it (NaN at a zero peak). */
  function DrawdownAt(r: seq<real>, i: nat): Cell
    requires i < |r|
  {
    Div(Growth(r, i) - Peak(r, i), Peak(r, i))
  }

  function Drawdowns(r: seq<real>): (d: Column)
    ensures |d| == |r|
  {
    seq(|r|, i requires 0 <= i < |r| => DrawdownAt(r, i))
  }

  /** `calculate_max_drawdown`: the smallest defined drawdown, NaN when there is none. */
  function MaxDrawdown(r: seq<real>): Cell
  {
    MinSkipNa(Drawdowns(r))
  }

  lemma {:induction false} PeakBounds(r: seq<real>, i: nat)
    requires i < |r|
    ensures Growth(r, i) <= Peak(r, i)
    ensures forall k :: 0 <= k <= i ==> Growth(r, k) <= Peak(r, i)
    decreases i
  {
    if i > 0 {
      PeakBounds(r, i - 1);
    }
  }

  /** A total loss on the first day leaves nothing to grow: growth and peak stay zero. */
  lemma {:induction false} WipedOut(r: seq<real>, i: nat)
    requires i < |r| && r[0] == -1.0
    ensures Growth(r, i) == 0.0 && Peak(r, i) == 0.0
    decreases i
  {
    if i > 0 {
      WipedOut(r, i - 1);
    }
  }

  /** The first drawdown is zero unless the first day loses everything. */
  lemma FirstDrawdown(r: seq<real>)
    requires |r| > 0
    ensures r[0] != -1.0 ==> DrawdownAt(r, 0) == Some(0.0)
    ensures r[0] == -1.0 ==> forall i :: 0 <= i < |r| ==> DrawdownAt(r, i).None?
  {
    if r[0] == -1.0 {
      forall i | 0 <= i < |r|
        ensures DrawdownAt(r, i).None?
      {
        WipedOut(r, i);
      }
    }
  }

  /**
   * The maximum drawdown of a non-empty series is defined unless the first
   * day loses everything, and is then at most zero (the first drawdown is
   * zero).
   */
  lemma MaxDrawdownNonPositive(r: seq<real>)
    requires |r| > 0
    ensures MaxDrawdown(r).Some? <==> r[0] != -1.0
    ensures MaxDrawdown(r).Some? ==> MaxDrawdown(r).value <= 0.0
  {
    FirstDrawdown(r);
    var d := Drawdowns(r);
    assert d[0] == DrawdownAt(r, 0);
  }

  lemma {:induction false} GrowthPositive(r: seq<real>, i: nat)
    requires i < |r|
    requires forall k :: 0 <= k < |r| ==> r[k] > -1.0
    ensures Growth(r, i) > 0.0
    decreases i
  {
    if i > 0 {
      GrowthPositive(r, i - 1);
      PositiveProduct(Growth(r, i - 1), 1.0 + r[i]);
    }
  }

  lemma PositiveProduct(a: real, b: real)
    requires a > 0.0 && b > 0.0
    ensures a * b > 0.0
  {
  }

  /** A positive growth below a positive peak is a fall of less than the whole peak. */
  lemma FallAboveMinusOne(c: real, m: real, q: real)
    requires 0.0 < c <= m
    requires q * m == c - m
    ensures -1.0 < q <= 0.0
  {
  }

  lemma DrawdownAboveMinusOne(r: seq<real>, i: nat)
    requires i < |r|
    requires forall k :: 0 <= k < |r| ==> r[k] > -1.0
    ensures DrawdownAt(r, i).Some? && -1.0 < DrawdownAt(r, i).value
  {
    GrowthPositive(r, i);
    PeakBounds(r, i);
    FallAboveMinusOne(Growth(r, i), Peak(r, i), DrawdownAt(r, i).value);
  }

  /** When no single return loses everything, no drawdown reaches -100%. */
  lemma MaxDrawdownAboveMinusOne(r: seq<real>)
    requires |r| > 0
    requires forall k :: 0 <= k < |r| ==> r[k] > -1.0
    ensures MaxDrawdown(r).Some? && -1.0 < MaxDrawdown(r).value <= 0.0
  {
    MaxDrawdownNonPositive(r);
    var d := Drawdowns(r);
    var i :| 0 <= i < |d| && d[i] == MinSkipNa(d);
    DrawdownAboveMinusOne(r, i);
  }

  lemma {:induction false} GrowthNonDecreasing(r: seq<real>, i: nat)
    requires i < |r|
    requires forall k :: 0 <= k < |r| ==> r[k] >= 0.0
    ensures Growth(r, i) >= 1.0 && Peak(r, i) == Growth(r, i)
    decreases i
  {
    if i > 0 {
      GrowthNonDecreasing(r, i - 1);
      var g := Growth(r, i - 1);
      assert Growth(r, i) == g + g * r[i];
      NonNegativeProduct(g, r[i]);
    }
  }

  /** Without a negative return the growth never falls, so the maximum drawdown is zero. */
  lemma MaxDrawdownWithoutLosses(r: seq<real>)
    requires |r| > 0
    requires forall k :: 0 <= k < |r| ==> r[k] >= 0.0
    ensures MaxDrawdown(r) == Some(0.0)
  {
    var d := Drawdowns(r);
    forall i | 0 <= i < |r|
      ensures d[i] == Some(0.0)
    {
      GrowthNonDecreasing(r, i);
    }
    MinSkipNaOfConstant(d, 0.0);
  }

  // ------------------------------------------------------ Risk ratios

  /** The default annual risk-free rate of the ratio functions. */
  const RiskFreeRate: real := 0.02

  /** The default confidence level of `calculate_var` and `calculate_cvar`. */
  const Confidence: real := 0.95

  /** Annual return in excess of the risk-free rate. */
  function ExcessReturn(r: seq<real>, rf: real): real
    requires |r| > 0
  {
    Mean(r) * Config.TradingDaysPerYear - rf
  }

  /**
   * `calculate_sharpe_ratio`: zero for a series without spread, otherwise
   * the excess return over the annualised volatility; NaN below two
   * returns, where the standard deviation is NaN.
   */
  function Sharpe(sqrt: real -> real, r: seq<real>, rf: real): (s: Cell)
    ensures s.Some? ==> |r| >= 2
  {
    match Std(sqrt, r)
    case None => None
    case Some(sd) =>
      if sd == 0.0 then Some(0.0)
      else Div(ExcessReturn(r, rf), sd * sqrt(Config.TradingDaysPerYear))
  }

  /** A ratio over a positive denominator has the sign of its numerator. */
  lemma RatioSign(q: real, a: real, b: real)
    requires b > 0.0 && q * b == a
    ensures q > 0.0 <==> a > 0.0
    ensures q < 0.0 <==> a < 0.0
  {
    if q > 0.0 {
      PositiveProduct(q, b);
    } else if q < 0.0 {
      PositiveProduct(-q, b);
    }
  }

  /**
   * The Sharpe ratio of two or more returns is defined, zero when their
   * variance is zero, and otherwise has the sign of the excess return.
   */
  lemma SharpeSign(sqrt: real -> real, r: seq<real>, rf: real)
    requires IsSqrt(sqrt)
    requires |r| >= 2
    ensures Sharpe(sqrt, r, rf).Some?
    ensures Variance(r) == 0.0 ==> Sharpe(sqrt, r, rf) == Some(0.0)
    ensures Variance(r) != 0.0 ==>
      (Sharpe(sqrt, r, rf).value > 0.0 <==> ExcessReturn(r, rf) > 0.0) &&
      (Sharpe(sqrt, r, rf).value < 0.0 <==> ExcessReturn(r, rf) < 0.0)
  {
    StdZeroIffVarianceZero(sqrt, r);
    SqrtPositive(sqrt, Config.TradingDaysPerYear);
    var sd := Std(sqrt, r).value;
    if sd != 0.0 {
      var den := sd * sqrt(Config.TradingDaysPerYear);
      PositiveProduct(sd, sqrt(Config.TradingDaysPerYear));
      RatioSign(Sharpe(sqrt, r, rf).value, ExcessReturn(r, rf), den);
    }
  }

  /** The negative returns, in order (`returns[returns < 0]`). */
  function Losses(r: seq<real>): (d: seq<real>)
    ensures |d| <= |r|
    ensures forall i :: 0 <= i < |d| ==> d[i] < 0.0
    ensures forall x :: multiset(d)[x] == if x < 0.0 then multiset(r)[x] else 0
  {
    FilterMultiset(r, x => x < 0.0);
    Filter(r, x => x < 0.0)
  }

  /**
   * `calculate_sortino_ratio`: zero without negative returns or when they
   * have no spread, otherwise the excess return over the annualised
   * standard deviation of the negative returns; NaN for a single negative
   * return.
   */
  function Sortino(sqrt: real -> real, r: seq<real>, rf: real): Cell
  {
    var down := Losses(r);
    if |down| == 0 then Some(0.0)
    else match Std(sqrt, down)
      case None => None
      case Some(sd) =>
        if sd == 0.0 then Some(0.0)
        else Div(ExcessReturn(r, rf), sd * sqrt(Config.TradingDaysPerYear))
  }

  /**
   * The Sortino ratio is zero without a loss or with identical losses; with
   * at least two losses of some spread it has the sign of the excess return.
   */
  lemma SortinoSign(sqrt: real -> real, r: seq<real>, rf: real)
    requires IsSqrt(sqrt)
    ensures (forall i :: 0 <= i < |r| ==> r[i] >= 0.0) ==> Sortino(sqrt, r, rf) == Some(0.0)
    ensures |Losses(r)| == 1 ==> Sortino(sqrt, r, rf).None?
    ensures |Losses(r)| >= 2 && Variance(Losses(r)) == 0.0 ==> Sortino(sqrt, r, rf) == Some(0.0)
    ensures |Losses(r)| >= 2 && Variance(Losses(r)) != 0.0 ==>
      Sortino(sqrt, r, rf).Some? &&
      (Sortino(sqrt, r, rf).value > 0.0 <==> ExcessReturn(r, rf) > 0.0) &&
      (Sortino(sqrt, r, rf).value < 0.0 <==> ExcessReturn(r, rf) < 0.0)
  {
    var down := Losses(r);
    if |down| >= 2 {
      StdZeroIffVarianceZero(sqrt, down);
      SqrtPositive(sqrt, Config.TradingDaysPerYear);
      var sd := Std(sqrt, down).value;
      if sd != 0.0 {
        PositiveProduct(sd, sqrt(Config.TradingDaysPerYear));
        RatioSign(Sortino(sqrt, r, rf).value, ExcessReturn(r, rf), sd * sqrt(Config.TradingDaysPerYear));
      }
    }
  }

  /**
   * `calculate_calmar_ratio`: the annualised mean return over the size of
   * the maximum drawdown; zero when there was no drawdown, NaN when the
   * drawdown is NaN.
   */
  function Calmar(r: seq<real>): Cell
  {
    CalmarOf(MeanCell(r), MaxDrawdown(r))
  }

  /** The Calmar ratio from the mean return and the maximum drawdown. */
  function CalmarOf(mean: Cell, drawdown: Cell): Cell
  {
    match drawdown
    case None => None
    case Some(d) =>
      if Abs(d) == 0.0 then Some(0.0)
      else Over(Times(mean, Config.TradingDaysPerYear), Some(Abs(d)))
  }

  /**
   * For a series with a drawdown, the Calmar ratio times the drawdown's size
   * is the annualised mean return, so the ratio has the sign of the mean.
   */
  lemma CalmarSign(r: seq<real>, d: real)
    requires MaxDrawdown(r) == Some(d) && d < 0.0
    ensures |r| > 0 && Calmar(r).Some?
    ensures Calmar(r) == Div(Mean(r) * Config.TradingDaysPerYear, -d)
    ensures Calmar(r).value > 0.0 <==> Mean(r) > 0.0
    ensures Calmar(r).value < 0.0 <==> Mean(r) < 0.0
  {
    DrawdownNeedsReturns(r);
    var m := Mean(r);
    assert MeanCell(r) == Some(m);
    assert Calmar(r) == CalmarOf(Some(m), Some(d));
    AnnualOverDrawdown(m, d);
  }

  /** A drawdown needs at least one return. */
  lemma DrawdownNeedsReturns(r: seq<real>)
    requires MaxDrawdown(r).Some?
    ensures |r| > 0
  {
    var dd := Drawdowns(r);
    var i :| 0 <= i < |dd| && dd[i].Some?;
  }

  lemma AnnualOverDrawdown(m: real, d: real)
    requires d < 0.0
    ensures var c := CalmarOf(Some(m), Some(d));
      c == Div(m * Config.TradingDaysPerYear, -d) &&
      (c.value > 0.0 <==> m > 0.0) && (c.value < 0.0 <==> m < 0.0)
  {
    var a := m * Config.TradingDaysPerYear;
    var c := CalmarOf(Some(m), Some(d));
    assert Abs(d) == -d;
    assert c.Some? && c.value * -d == a;
    RatioSign(c.value, a, -d);
  }

  /** A series of gains without a loss has a Calmar ratio of zero. */
  lemma CalmarWithoutLosses(r: seq<real>)
    requires |r| > 0
    requires forall k :: 0 <= k < |r| ==> r[k] >= 0.0
    ensures Calmar(r) == Some(0.0)
  {
    MaxDrawdownWithoutLosses(r);
  }

  /**
   * `calculate_var`: the `(1 - confidence)` quantile of the returns, with
   * numpy's linear interpolation; it lies between the worst and the best
   * return.
   */
  function ValueAtRisk(r: seq<real>, confidence: real): (v: real)
    requires |r| > 0 && 0.0 <= confidence <= 1.0
    ensures SeqMin(r) <= v <= SeqMax(r)
  {
    Percentile(r, (1.0 - confidence) * 100.0)
  }

  /** The returns at or below a threshold (`returns[returns <= var]`). */
  function Tail(r: seq<real>, v: real): (t: seq<real>)
    ensures |t| <= |r|
    ensures forall i :: 0 <= i < |t| ==> t[i] <= v
    ensures forall x :: multiset(t)[x] == if x <= v then multiset(r)[x] else 0
  {
    FilterMultiset(r, x => x <= v);
    Filter(r, x => x <= v)
  }

  /**
   * `calculate_cvar`: the mean of the returns at or below the value at
   * risk. The tail always holds the worst return, so the mean is defined,
   * and it lies between the worst return and the value at risk.
   */
  function ConditionalValueAtRisk(r: seq<real>, confidence: real): (c: real)
    requires |r| > 0 && 0.0 <= confidence <= 1.0
    ensures SeqMin(r) <= c <= ValueAtRisk(r, confidence)
  {
    var v := ValueAtRisk(r, confidence);
    var t := Tail(r, v);
    TailHoldsMinimum(r, v);
    TailBounds(r, v);
    Mean(t)
  }

  lemma TailHoldsMinimum(r: seq<real>, v: real)
    requires |r| > 0 && SeqMin(r) <= v
    ensures |Tail(r, v)| > 0
  {
    var i :| 0 <= i < |r| && r[i] == SeqMin(r);
    assert (x => x <= v)(r[i]);
  }

  lemma TailBounds(r: seq<real>, v: real)
    requires |Tail(r, v)| > 0
    ensures SeqMin(r) <= Mean(Tail(r, v)) <= v
  {
    var t := Tail(r, v);
    forall i | 0 <= i < |t|
      ensures SeqMin(r) <= t[i] <= v
    {
      assert t[i] in r;
    }
    MeanBounds(t, SeqMin(r), v);
  }

  // ---------------------------------------------------- Portfolio weights

  /** The weights of a dict, in order (`weights.values()`). */
  function Weights(w: Dict<real>): (v: seq<real>)
    ensures |v| == |w|
    ensures forall i :: 0 <= i < |w| ==> v[i] == w[i].1
  {
    seq(|w|, i requires 0 <= i < |w| => w[i].1)
  }

  /** The default weights: one over the number of stocks for each stock. */
  function EqualWeights(names: seq<string>): (w: Dict<real>)
    requires |names| > 0
    ensures Keys(w) == names
    ensures Sum(Weights(w)) == 1.0
  {
    var w := seq(|names|, i requires 0 <= i < |names| => (names[i], 1.0 / |names| as real));
    SumBounds(Weights(w), 1.0 / |names| as real, 1.0 / |names| as real);
    w
  }

  /**
   * The weights actually used: kept when their sum is close to one,
   * otherwise each divided by the sum (which raises ZeroDivisionError when
   * the weights are non-empty and sum to zero).
   */
  function Normalise(w: Dict<real>): (r: Outcome<Dict<real>>)
    ensures r.Raises? <==> |w| > 0 && Sum(Weights(w)) == 0.0
    ensures r.Raises? ==> r.error == ZeroDivisionError
    ensures r.Ok? ==> Keys(r.value) == Keys(w)
    ensures r.Ok? && !IsClose(Sum(Weights(w)), 1.0) ==>
      forall i :: 0 <= i < |w| ==> r.value[i].1 * Sum(Weights(w)) == w[i].1
  {
    var total := Sum(Weights(w));
    if IsClose(total, 1.0) then Ok(w)
    else if w == [] then Ok([])
    else if total == 0.0 then Raises(ZeroDivisionError)
    else Ok(seq(|w|, i requires 0 <= i < |w| => (w[i].0, w[i].1 / total)))
  }

  /**
   * Normalised weights keep their proportions and sum to one, unless they
   * already summed to nearly one and were kept as they are.
   */
  lemma NormaliseSumsToOne(w: Dict<real>)
    requires Normalise(w).Ok? && |w| > 0
    ensures IsClose(Sum(Weights(w)), 1.0) ==> Normalise(w).value == w
    ensures !IsClose(Sum(Weights(w)), 1.0) ==> Sum(Weights(Normalise(w).value)) == 1.0
  {
    var total := Sum(Weights(w));
    if !IsClose(total, 1.0) {
      var v := Weights(Normalise(w).value);
      var k := 1.0 / total;
      var sc := Scale(Weights(w), k);
      forall i | 0 <= i < |w|
        ensures v[i] == sc[i]
      {
        QuotientAsProduct(w[i].1, total);
      }
      assert v == sc;
      SumScale(Weights(w), k);
      QuotientAsProduct(total, total);
    }
  }

  lemma QuotientAsProduct(x: real, t: real)
    requires t != 0.0
    ensures x / t == (1.0 / t) * x
  {
  }

  /** Two equal weights that do not sum to one become one half each. */
  lemma NormaliseEqualPair(a: string, b: string)
    ensures Normalise([(a, 2.0), (b, 2.0)]) == Ok([(a, 0.5), (b, 0.5)])
  {
    var w := [(a, 2.0), (b, 2.0)];
    assert Weights(w) == [2.0, 2.0];
    assert Sum([2.0]) == 2.0 by {
      assert [2.0][..0] == [];
    }
    assert Sum([2.0, 2.0]) == 4.0 by {
      assert [2.0, 2.0][..1] == [2.0];
    }
    var nw := seq(2, i requires 0 <= i < 2 => (w[i].0, w[i].1 / 4.0));
    assert Normalise(w) == Ok(nw);
    assert nw == [(a, 0.5), (b, 0.5)];
  }

  // -------------------------------------------------- Aligned returns

  /** The cell of a column at a row of the union index (NaN past its end). */
  function CellAt(c: Column, i: nat): Cell
  {
    if i < |c| then c[i] else None
  }

  /** The union index: as many rows as the longest column. */
  function Height(cols: Dict<Column>): (n: nat)
    ensures forall j :: 0 <= j < |cols| ==> |cols[j].1| <= n
  {
    if cols == [] then 0
    else
      var front := Height(cols[..|cols| - 1]);
      if |cols[|cols| - 1].1| > front then |cols[|cols| - 1].1| else front
  }

  /** A row that `dropna()` keeps: every column has a number there. */
  predicate Complete(cols: Dict<Column>, i: nat)
  {
    forall j :: 0 <= j < |cols| ==> CellAt(cols[j].1, i).Some?
  }

  /** The rows below `n` that `dropna()` keeps, in order. */
  function CompleteRows(cols: Dict<Column>, n: nat): (rows: seq<nat>)
    ensures |rows| <= n
    ensures forall k :: 0 <= k < |rows| ==> rows[k] < n && Complete(cols, rows[k])
    ensures forall i :: 0 <= i < n && Complete(cols, i) ==> i in rows
    ensures forall k, l :: 0 <= k < l < |rows| ==> rows[k] < rows[l]
  {
    if n == 0 then []
    else
      var front := CompleteRows(cols, n - 1);
      if Complete(cols, n - 1) then front + [n - 1] else front
  }

  /**
   * `pd.DataFrame(columns).dropna()`: the columns aligned on their row
   * positions, restricted to the rows where every column has a number.
   */
  function DropIncomplete(cols: Dict<Column>): (t: Dict<seq<real>>)
    ensures Keys(t) == Keys(cols)
    ensures forall j :: 0 <= j < |t| ==> |t[j].1| == |CompleteRows(cols, Height(cols))|
  {
    var rows := CompleteRows(cols, Height(cols));
    seq(|cols|, j requires 0 <= j < |cols| =>
      (cols[j].0, seq(|rows|, k requires 0 <= k < |rows| => CellAt(cols[j].1, rows[k]).value)))
  }

  /** Every kept row holds the original numbers of every column. */
  lemma DropIncompleteRows(cols: Dict<Column>, j: nat, k: nat)
    requires j < |cols| && k < |CompleteRows(cols, Height(cols))|
    ensures var i := CompleteRows(cols, Height(cols))[k];
      i < |cols[j].1| && cols[j].1[i] == Some(DropIncomplete(cols)[j].1[k])
  {
  }

  // ---------------------------------------------------- Portfolio returns

  /** The weighted sum of one row of the columns; a stock without a weight counts zero. */
  function RowReturn(cols: Dict<seq<real>>, w: Dict<real>, n: nat, i: nat): real
    requires i < n
    requires forall j :: 0 <= j < |cols| ==> |cols[j].1| == n
  {
    if cols == [] then 0.0
    else
      var last := cols[|cols| - 1];
      RowReturn(cols[..|cols| - 1], w, n, i) + last.1[i] * Get(w, last.0, 0.0)
  }

  /** `sum(returns_df[name] * weights.get(name, 0) for name in returns_df.columns)`. */
  function PortfolioReturns(cols: Dict<seq<real>>, w: Dict<real>, n: nat): (p: seq<real>)
    requires forall j :: 0 <= j < |cols| ==> |cols[j].1| == n
    ensures |p| == n
  {
    seq(n, i requires 0 <= i < n => RowReturn(cols, w, n, i))
  }

  /** A stock without a weight does not move the portfolio. */
  lemma UnweightedStock(cols: Dict<seq<real>>, name: string, xs: seq<real>, w: Dict<real>, n: nat)
    requires forall j :: 0 <= j < |cols| ==> |cols[j].1| == n
    requires |xs| == n && !HasKey(w, name)
    ensures PortfolioReturns(cols + [(name, xs)], w, n) == PortfolioReturns(cols, w, n)
  {
    GetAbsent(w, name, 0.0);
    var c := cols + [(name, xs)];
    assert c[..|c| - 1] == cols;
  }

  lemma {:induction false} GetAbsent<V>(d: Dict<V>, key: string, default: V)
    requires !HasKey(d, key)
    ensures Get(d, key, default) == default
  {
    if d != [] {
      GetAbsent(d[..|d| - 1], key, default);
    }
  }

  /** A single stock of weight one is the portfolio. */
  lemma SingleStock(name: string, xs: seq<real>, w: Dict<real>)
    requires Get(w, name, 0.0) == 1.0
    ensures PortfolioReturns([(name, xs)], w, |xs|) == xs
  {
    var c := [(name, xs)];
    assert c[..0] == [];
    forall i | 0 <= i < |xs|
      ensures RowReturn(c, w, |xs|, i) == xs[i]
    {
    }
  }

  /** The returns of every stock (`data['Daily_Return']`), or KeyError for the first frame without them. */
  function DailyReturns(data: Dict<PriceFrame>): (r: Outcome<Dict<Column>>)
    ensures r.Raises? <==> exists j :: 0 <= j < |data| && DailyReturn !in data[j].1.extra
    ensures r.Raises? ==> r.error == KeyError
    ensures r.Ok? ==> Keys(r.value) == Keys(data)
    ensures r.Ok? ==> forall j :: 0 <= j < |data| ==> r.value[j].1 == data[j].1.extra[DailyReturn]
  {
    if exists j :: 0 <= j < |data| && DailyReturn !in data[j].1.extra then Raises(KeyError)
    else Ok(seq(|data|, j requires 0 <= j < |data| => (data[j].0, data[j].1.extra[DailyReturn])))
  }

  // ------------------------------------------------------------- Beta

  /** The column `calculate_portfolio_beta` measures against by default. */
  const Market: string := "S&P 500"

  lemma {:induction false} GetFound<V>(d: Dict<V>, key: string, default: V)
    requires HasKey(d, key)
    ensures exists j :: 0 <= j < |d| && d[j].0 == key && Get(d, key, default) == d[j].1
  {
    if d[|d| - 1].0 != key {
      var j :| 0 <= j < |d| && d[j].0 == key;
      assert d[..|d| - 1][j].0 == key;
      GetFound(d[..|d| - 1], key, default);
    }
  }

  /** The columns other than the market's, in order. */
  function WithoutMarket(cols: Dict<seq<real>>, n: nat): (r: Dict<seq<real>>)
    requires forall j :: 0 <= j < |cols| ==> |cols[j].1| == n
    ensures |r| <= |cols|
    ensures forall j :: 0 <= j < |r| ==> r[j].0 != Market && |r[j].1| == n && r[j] in cols
    ensures forall j :: 0 <= j < |cols| && cols[j].0 != Market ==> cols[j] in r
    ensures r == [] <==> forall j :: 0 <= j < |cols| ==> cols[j].0 == Market
  {
    if cols == [] then []
    else
      var front := WithoutMarket(cols[..|cols| - 1], n);
      assert forall j :: 0 <= j < |cols| - 1 ==> cols[j] == cols[..|cols| - 1][j];
      if cols[|cols| - 1].0 == Market then front else front + [cols[|cols| - 1]]
  }

  /** Dropping the market from a concatenation drops it from each part, keeping the order. */
  lemma {:induction false} WithoutMarketAppend(a: Dict<seq<real>>, b: Dict<seq<real>>, n: nat)
    requires forall j :: 0 <= j < |a| ==> |a[j].1| == n
    requires forall j :: 0 <= j < |b| ==> |b[j].1| == n
    ensures WithoutMarket(a + b, n) == WithoutMarket(a, n) + WithoutMarket(b, n)
    decreases |b|
  {
    if b == [] {
      assert a + b == a;
    } else {
      var c := a + b;
      var front, last := b[..|b| - 1], b[|b| - 1];
      assert c[..|c| - 1] == a + front;
      assert c[|c| - 1] == last;
      var tail := if last.0 == Market then [] else [last];
      calc {
        WithoutMarket(c, n);
        { WithoutMarketStep(c, n); }
        WithoutMarket(a + front, n) + tail;
        { WithoutMarketAppend(a, front, n); }
        WithoutMarket(a, n) + WithoutMarket(front, n) + tail;
        { WithoutMarketStep(b, n); }
        WithoutMarket(a, n) + WithoutMarket(b, n);
      }
    }
  }

  lemma WithoutMarketStep(cols: Dict<seq<real>>, n: nat)
    requires forall j :: 0 <= j < |cols| ==> |cols[j].1| == n
    requires cols != []
    ensures WithoutMarket(cols, n) == WithoutMarket(cols[..|cols| - 1], n) +
      if cols[|cols| - 1].0 == Market then [] else [cols[|cols| - 1]]
  {
  }

  /** The market's returns (`returns_df[market_col]`). */
  function MarketReturns(cols: Dict<seq<real>>, n: nat): (m: seq<real>)
    requires forall j :: 0 <= j < |cols| ==> |cols[j].1| == n
    requires HasKey(cols, Market)
    ensures |m| == n
    ensures exists j :: 0 <= j < |cols| && cols[j] == (Market, m)
  {
    GetFound(cols, Market, []);
    Get(cols, Market, [])
  }

  /**
   * `calculate_portfolio_beta`: the covariance of the weighted non-market
   * returns with the market's returns over the market's variance. There is
   * no beta without a market column, with fewer than two rows (NaN) or
   * when the market never moves; when the market is the only column, the
   * empty `sum` is the integer 0 and `.cov` raises AttributeError.
   */
  function Beta(cols: Dict<seq<real>>, w: Dict<real>, n: nat): (b: Outcome<Cell>)
    requires forall j :: 0 <= j < |cols| ==> |cols[j].1| == n
    ensures b.Raises? <==> HasKey(cols, Market) && forall j :: 0 <= j < |cols| ==> cols[j].0 == Market
    ensures b.Raises? ==> b.error == AttributeError
    ensures !HasKey(cols, Market) || n < 2 ==> b.Ok? ==> b.value.None?
    ensures b.Ok? && b.value.Some? <==>
      HasKey(cols, Market) && n >= 2 && WithoutMarket(cols, n) != [] && Variance(MarketReturns(cols, n)) != 0.0
    ensures b.Ok? && b.value.Some? ==>
      var m := MarketReturns(cols, n);
      Variance(m) != 0.0 &&
      b.value.value * Variance(m) == Covariance(PortfolioReturns(WithoutMarket(cols, n), w, n), m)
  {
    if !HasKey(cols, Market) then Ok(None)
    else
      var others := WithoutMarket(cols, n);
      if others == [] then Raises(AttributeError)
      else if n < 2 then Ok(None)
      else
        var m := MarketReturns(cols, n);
        var v := Variance(m);
        if v == 0.0 then Ok(None)
        else Ok(Some(Covariance(PortfolioReturns(others, w, n), m) / v))
  }

  /** A portfolio that holds exactly the market has a beta of one. */
  lemma MarketBeta(name: string, m: seq<real>, w: Dict<real>)
    requires name != Market && Get(w, name, 0.0) == 1.0
    requires |m| >= 2 && Variance(m) != 0.0
    ensures Beta([(name, m), (Market, m)], w, |m|) == Ok(Some(1.0))
  {
    var cols := [(name, m), (Market, m)];
    MarketAndOne(name, m);
    SingleStock(name, m, w);
    var v := Variance(m);
    var b := Beta(cols, w, |m|);
    assert b.Ok? && b.value.Some? && b.value.value == Covariance(m, m) / v;
    assert Covariance(m, m) == v;
    assert v / v == 1.0;
  }

  /** A frame of one stock and the market splits into that stock and the market's returns. */
  lemma MarketAndOne(name: string, m: seq<real>)
    requires name != Market
    ensures HasKey([(name, m), (Market, m)], Market)
    ensures WithoutMarket([(name, m), (Market, m)], |m|) == [(name, m)]
    ensures MarketReturns([(name, m), (Market, m)], |m|) == m
  {
    var cols := [(name, m), (Market, m)];
    assert cols[1].0 == Market;
    assert cols[..1] == [(name, m)] && cols[..1][..0] == [];
  }

  /** A market without any other column makes the beta fail. */
  lemma MarketAloneFails(m: seq<real>, w: Dict<real>)
    ensures Beta([(Market, m)], w, |m|) == Raises(AttributeError)
  {
    assert HasKey([(Market, m)], Market) by {
      assert [(Market, m)][0].0 == Market;
    }
  }

  // --------------------------------------------------- Portfolio metrics

  /** The metrics dict of `calculate_portfolio_metrics` (the correlation matrix is not modelled). */
  datatype PortfolioMetrics = PortfolioMetrics(
    totalReturn: real,
    annualizedReturn: real,
    annualizedVolatility: Cell,
    sharpe: Cell,
    sortino: Cell,
    maxDrawdown: Cell,
    calmar: Cell,
    beta: Cell,
    valueAtRisk: real,
    conditionalValueAtRisk: real)

  /** `(p + 1).prod() - 1`: the compounded return of a non-empty series. */
  function TotalReturn(p: seq<real>): real
    requires |p| > 0
  {
    Growth(p, |p| - 1) - 1.0
  }

  /** The metrics of a non-empty series of portfolio returns, given its beta. */
  function MetricsOf(sqrt: real -> real, p: seq<real>, beta: Cell): (m: PortfolioMetrics)
    requires |p| > 0
    ensures m.conditionalValueAtRisk <= m.valueAtRisk
    ensures m.maxDrawdown.Some? ==> m.maxDrawdown.value <= 0.0
  {
    MaxDrawdownNonPositive(p);
    PortfolioMetrics(
      TotalReturn(p),
      Mean(p) * Config.TradingDaysPerYear,
      Times(Std(sqrt, p), sqrt(Config.TradingDaysPerYear)),
      Sharpe(sqrt, p, RiskFreeRate),
      Sortino(sqrt, p, RiskFreeRate),
      MaxDrawdown(p),
      Calmar(p),
      beta,
      ValueAtRisk(p, Confidence),
      ConditionalValueAtRisk(p, Confidence))
  }

  /** The weights given, or equal weights over the stocks when none are. */
  function WeightsOrEqual(data: Dict<PriceFrame>, weights: Option<Dict<real>>): Dict<real>
    requires data != []
  {
    if weights.None? then EqualWeights(Keys(data)) else weights.value
  }

  /**
   * `calculate_portfolio_metrics`: nothing for no stocks; otherwise the
   * weights (equal by default) are normalised, the daily returns aligned
   * on the rows where every stock has one, and the weighted portfolio
   * return series measured; nothing when no row is complete.
   */
  function CalculatePortfolioMetrics(sqrt: real -> real, data: Dict<PriceFrame>, weights: Option<Dict<real>>)
    : (r: Outcome<Option<PortfolioMetrics>>)
    ensures data == [] ==> r == Ok(None)
    ensures r.Raises? && r.error == ZeroDivisionError <==>
      data != [] && weights.Some? && |weights.value| > 0 && Sum(Weights(weights.value)) == 0.0
    ensures r.Raises? && r.error == KeyError <==>
      data != [] && Normalise(WeightsOrEqual(data, weights)).Ok? && DailyReturns(data).Raises?
    ensures r.Raises? && r.error == AttributeError <==>
      data != [] && Normalise(WeightsOrEqual(data, weights)).Ok? && DailyReturns(data).Ok? &&
      var cols := DailyReturns(data).value;
      var n := |CompleteRows(cols, Height(cols))|;
      n > 0 && Beta(DropIncomplete(cols), Normalise(WeightsOrEqual(data, weights)).value, n).Raises?
    ensures r.Raises? ==> r.error != TypeError
    ensures r == Ok(None) <==>
      data == [] ||
      (Normalise(WeightsOrEqual(data, weights)).Ok? && DailyReturns(data).Ok? &&
       var cols := DailyReturns(data).value;
       |CompleteRows(cols, Height(cols))| == 0)
    ensures r.Ok? && r.value.Some? ==>
      data != [] && Normalise(WeightsOrEqual(data, weights)).Ok? && DailyReturns(data).Ok? &&
      var nw := Normalise(WeightsOrEqual(data, weights)).value;
      var cols := DailyReturns(data).value;
      var n := |CompleteRows(cols, Height(cols))|;
      var table := DropIncomplete(cols);
      n > 0 && Beta(table, nw, n).Ok? &&
      r.value.value == MetricsOf(sqrt, PortfolioReturns(table, nw, n), Beta(table, nw, n).value)
    ensures r.Ok? && r.value.Some? ==>
      var m := r.value.value;
      m.conditionalValueAtRisk <= m.valueAtRisk &&
      (m.maxDrawdown.Some? ==> m.maxDrawdown.value <= 0.0)
  {
    if data == [] then Ok(None)
    else
      var w := WeightsOrEqual(data, weights);
      match Normalise(w)
      case Raises(e) => Raises(e)
      case Ok(nw) =>
        match DailyReturns(data)
        case Raises(e) => Raises(e)
        case Ok(cols) =>
          var table := DropIncomplete(cols);
          var n := |CompleteRows(cols, Height(cols))|;
          if n == 0 then Ok(None)
          else
            var p := PortfolioReturns(table, nw, n);
            match Beta(table, nw, n)
            case Raises(e) => Raises(e)
            case Ok(beta) => Ok(Some(MetricsOf(sqrt, p, beta)))
  }

  lemma {:induction false} AllRowsComplete(cols: Dict<Column>, n: nat, k: nat)
    requires k <= n
    requires forall i :: 0 <= i < n ==> Complete(cols, i)
    ensures CompleteRows(cols, k) == seq(k, i requires 0 <= i < k => i as nat)
    decreases k
  {
    if k > 0 {
      AllRowsComplete(cols, n, k - 1);
    }
  }

  /** The complete rows of a single column below `k` are where its first `k` cells hold a number. */
  lemma {:induction false} OneColumnRows(name: string, c: Column, k: nat)
    requires k <= |c|
    ensures var rows := CompleteRows([(name, c)], k);
      |rows| == |Present(c[..k])| &&
      forall j :: 0 <= j < |rows| ==> rows[j] < |c| && c[rows[j]] == Some(Present(c[..k])[j])
    decreases k
  {
    if k > 0 {
      OneColumnRows(name, c, k - 1);
      var cols := [(name, c)];
      assert cols[0].1 == c;
      assert Complete(cols, k - 1) <==> c[k - 1].Some?;
      assert c[..k][..k - 1] == c[..k - 1];
      PresentStep(c[..k]);
    }
  }

  /** Aligning a single column keeps exactly its numbers, in order (`dropna` of that column). */
  lemma AlignSingle(name: string, c: Column)
    ensures |CompleteRows([(name, c)], Height([(name, c)]))| == |Present(c)|
    ensures DropIncomplete([(name, c)]) == [(name, Present(c))]
  {
    var cols := [(name, c)];
    assert cols[..0] == [];
    assert Height(cols) == |c|;
    OneColumnRows(name, c, |c|);
    assert c[..|c|] == c;
    var rows := CompleteRows(cols, |c|);
    var column := seq(|rows|, k requires 0 <= k < |rows| => CellAt(cols[0].1, rows[k]).value);
    assert column == Present(c);
    assert DropIncomplete(cols)[0] == (name, column);
  }

  /**
   * A portfolio of one stock (not the market) with default weights has the
   * stock's own return series: its metrics are those of the stock's daily
   * returns, and it has no beta.
   */
  lemma SingleStockPortfolio(sqrt: real -> real, name: string, f: PriceFrame)
    requires name != Market && DailyReturn in f.extra
    ensures var xs := Present(f.extra[DailyReturn]);
      CalculatePortfolioMetrics(sqrt, [(name, f)], None) ==
        if xs == [] then Ok(None) else Ok(Some(MetricsOf(sqrt, xs, None)))
  {
    var data := [(name, f)];
    var w := EqualWeights(Keys(data));
    assert w == [(name, 1.0)];
    assert Normalise(w) == Ok(w);
    var c := f.extra[DailyReturn];
    var xs := Present(c);
    var cols := [(name, c)];
    var dr := DailyReturns(data);
    assert dr.Ok? && |dr.value| == 1 && Keys(dr.value)[0] == name;
    assert dr.value[0] == cols[0];
    assert dr.value == cols;
    AlignSingle(name, c);
    var table := DropIncomplete(cols);
    SingleStock(name, xs, w);
    assert !HasKey(table, Market);
  }

  // ------------------------------------------------- Summary statistics

  /** The numbers of a column in order, without its NaNs (`Series.dropna()`). */
  function Present(c: Column): (xs: seq<real>)
    ensures |xs| <= |c|
  {
    if c == [] then []
    else
      var last := c[|c| - 1];
      Present(c[..|c| - 1]) + (if last.Some? then [last.value] else [])
  }

  /** Every number of the column is kept, as often as it occurs, and nothing else. */
  lemma {:induction false} PresentMultiset(c: Column)
    ensures forall x :: multiset(Present(c))[x] == multiset(c)[Some(x)]
  {
    if c != [] {
      PresentMultiset(c[..|c| - 1]);
      assert c == c[..|c| - 1] + [c[|c| - 1]];
    }
  }

  lemma PresentStep(c: Column)
    requires c != []
    ensures Present(c) == Present(c[..|c| - 1]) + if c[|c| - 1].Some? then [c[|c| - 1].value] else []
  {
  }

  /** Dropping the NaNs of a concatenation drops them from each part, keeping the order. */
  lemma {:induction false} PresentAppend(a: Column, b: Column)
    ensures Present(a + b) == Present(a) + Present(b)
    decreases |b|
  {
    if b == [] {
      assert a + b == a;
    } else {
      var c := a + b;
      var front, last := b[..|b| - 1], b[|b| - 1];
      assert c[..|c| - 1] == a + front;
      assert c[|c| - 1] == last;
      var tail := if last.Some? then [last.value] else [];
      calc {
        Present(c);
        { PresentStep(c); }
        Present(a + front) + tail;
        { PresentAppend(a, front); }
        Present(a) + Present(front) + tail;
        { PresentStep(b); }
        Present(a) + Present(b);
      }
    }
  }

  /** A column that is NaN on its first row only (as the loaders build it) presents the rest. */
  lemma PresentAfterFirstRow(xs: seq<real>)
    ensures Present([None] + Lift(xs)) == xs
  {
    PresentAppend([None], Lift(xs));
    PresentOfLift(xs);
    var gap: Column := [None];
    assert gap[..0] == [];
  }

  lemma {:induction false} PresentOfLift(xs: seq<real>)
    ensures Present(Lift(xs)) == xs
  {
    if xs != [] {
      assert Lift(xs)[..|xs| - 1] == Lift(xs[..|xs| - 1]);
      PresentOfLift(xs[..|xs| - 1]);
    }
  }

  /** `((b / a) - 1) * 100`: the change from `a` to `b` in percent; NaN or infinite when `a` is zero. */
  function PercentChange(a: real, b: real): (r: Cell)
    ensures r.Some? <==> a != 0.0
    ensures r.Some? ==> r.value * a == (b - a) * 100.0
  {
    if a == 0.0 then None
    else
      assert (b / a - 1.0) * 100.0 * a == (b / a * a - a) * 100.0;
      Some((b / a - 1.0) * 100.0)
  }

  /** The dict of `get_summary_statistics`. */
  datatype Summary = Summary(
    currentPrice: real,
    previousClose: Cell,
    change: Cell,
    changePercent: Cell,
    high: real,
    low: real,
    averageVolume: real,
    totalReturn: Cell,
    volatility: Cell,
    sharpe: Cell,
    maxDrawdown: Cell)

  /**
   * `get_summary_statistics`: nothing for a missing or empty frame,
   * KeyError without daily returns; otherwise the latest close and its
   * change from the previous one (absent for a single row), the extremes
   * of the highs and lows, the mean volume, the total return in percent,
   * and the annualised volatility, Sharpe ratio and maximum drawdown of
   * the daily returns that are present.
   */
  function GetSummaryStatistics(sqrt: real -> real, data: Option<PriceFrame>): (r: Outcome<Option<Summary>>)
    requires data.Some? ==> data.value.Valid()
    ensures r == Ok(None) <==> data.None? || data.value.Empty()
    ensures r.Raises? <==> data.Some? && !data.value.Empty() && DailyReturn !in data.value.extra
    ensures r.Raises? ==> r.error == KeyError
    ensures r.Ok? && r.value.Some? ==>
      var b := data.value.bars;
      var n := |b.close|;
      var s := r.value.value;
      n > 0 && s.currentPrice == b.close[n - 1] &&
      (s.previousClose.Some? <==> n > 1) &&
      (n > 1 ==> s.previousClose.value == b.close[n - 2] && s.change == Some(b.close[n - 1] - b.close[n - 2])) &&
      s.changePercent == (if n > 1 then PercentChange(b.close[n - 2], b.close[n - 1]) else None) &&
      s.totalReturn == PercentChange(b.close[0], b.close[n - 1])
    ensures r.Ok? && r.value.Some? ==>
      var b := data.value.bars;
      var s := r.value.value;
      b.Rows() > 0 && DailyReturn in data.value.extra &&
      s.high == SeqMax(b.high) && s.low == SeqMin(b.low) && s.averageVolume == Mean(b.volume) &&
      var present := Present(data.value.extra[DailyReturn]);
      s.volatility == Times(Std(sqrt, present), sqrt(Config.TradingDaysPerYear)) &&
      s.sharpe == Sharpe(sqrt, present, RiskFreeRate) &&
      s.maxDrawdown == MaxDrawdown(present)
  {
    if data.None? || data.value.Empty() then Ok(None)
    else if DailyReturn !in data.value.extra then Raises(KeyError)
    else
      Ok(Some(SummaryOf(sqrt, data.value.bars, Present(data.value.extra[DailyReturn]), RiskFreeRate)))
  }

  /** The summary of a non-empty frame's bars and its present daily returns, for a risk-free rate. */
  function SummaryOf(sqrt: real -> real, b: Bars, dailyReturns: seq<real>, rf: real): Summary
    requires b.Aligned() && b.Rows() > 0
  {
    var c := b.close;
    var n := |c|;
    var change := if n > 1 then Some(c[n - 1] - c[n - 2]) else None;
    var changePercent := if n > 1 then PercentChange(c[n - 2], c[n - 1]) else None;
    Summary(
      c[n - 1],
      if n > 1 then Some(c[n - 2]) else None,
      change,
      changePercent,
      SeqMax(b.high),
      SeqMin(b.low),
      Mean(b.volume),
      PercentChange(c[0], c[n - 1]),
      Times(Std(sqrt, dailyReturns), sqrt(Config.TradingDaysPerYear)),
      Sharpe(sqrt, dailyReturns, rf),
      MaxDrawdown(dailyReturns))
  }

  /**
   * On bars whose close lies within the day's range, the latest close lies
   * between the reported low and high, which bound every bar.
   */
  lemma SummaryRange(sqrt: real -> real, data: PriceFrame)
    requires data.Valid() && !data.Empty() && DailyReturn in data.extra
    requires forall i :: 0 <= i < data.bars.Rows() ==> data.bars.low[i] <= data.bars.close[i] <= data.bars.high[i]
    ensures var s := GetSummaryStatistics(sqrt, Some(data)).value.value;
      (forall i :: 0 <= i < data.bars.Rows() ==> s.low <= data.bars.low[i] && data.bars.high[i] <= s.high) &&
      s.low <= s.currentPrice <= s.high
  {
    var n := data.bars.Rows();
    assert data.bars.low[n - 1] <= data.bars.close[n - 1] <= data.bars.high[n - 1];
  }

  /** With a single row there is no previous close, change or change in percent, and the total return is zero. */
  lemma SummaryOfOneRow(sqrt: real -> real, data: PriceFrame)
    requires data.Valid() && data.bars.Rows() == 1 && DailyReturn in data.extra
    ensures var s := GetSummaryStatistics(sqrt, Some(data)).value.value;
      s.previousClose.None? && s.change.None? && s.changePercent.None? &&
      (data.bars.close[0] != 0.0 ==> s.totalReturn == Some(0.0))
  {
  }

  /**
   * On a frame as `get_data` builds it, from closes none of which but the
   * last is zero, the summary's volatility, Sharpe ratio (2% risk-free
   * rate) and maximum drawdown are those of the returns between
   * consecutive closes: the NaN on the first row is dropped.
   */
  lemma SummaryRisk(sqrt: real -> real, downloaded: PriceFrame, includeIndicators: bool)
    requires downloaded.Valid() && !downloaded.Empty()
    requires forall k :: 0 <= k < |downloaded.bars.close| - 1 ==> downloaded.bars.close[k] != 0.0
    ensures Loader.GetData(sqrt, downloaded, includeIndicators).Some?
    ensures var data := Loader.GetData(sqrt, downloaded, includeIndicators).value;
      var r := GetSummaryStatistics(sqrt, Some(data));
      var xs := Loader.CloseReturns(downloaded.bars.close);
      r.Ok? && r.value.Some? &&
      r.value.value.volatility == Times(Std(sqrt, xs), sqrt(Config.TradingDaysPerYear)) &&
      r.value.value.sharpe == Sharpe(sqrt, xs, RiskFreeRate) &&
      r.value.value.maxDrawdown == MaxDrawdown(xs)
  {
    var close := downloaded.bars.close;
    Loader.DailyReturnsShape(close);
    PresentAfterFirstRow(Loader.CloseReturns(close));
  }


  // ---------------------------------------------------- Rolling metrics

  function RollingColumns(window: Pos): set<Label>
  {
    {RollingReturn(window), RollingVolatility(window), RollingSharpe(window)}
  }

  /** The rolling Sharpe ratio: the annualised rolling mean over the rolling volatility. */
  function RollingSharpeRatio(sqrt: real -> real, dailyReturns: Column, window: Pos): (r: Column)
    ensures |r| == |dailyReturns|
  {
    DivColumns(ScaleColumn(RollingMean(dailyReturns, window), Config.TradingDaysPerYear),
               Indicators.AnnualisedVolatility(sqrt, dailyReturns, window))
  }

  /**
   * `calculate_rolling_metrics`: a copy of the frame with the rolling sum,
   * annualised volatility and Sharpe ratio of the daily returns over the
   * window; KeyError without daily returns.
   */
  function RollingMetrics(sqrt: real -> real, data: PriceFrame, window: Pos): (r: Outcome<PriceFrame>)
    requires data.Valid()
    ensures r.Raises? <==> DailyReturn !in data.extra
    ensures r.Raises? ==> r.error == KeyError
    ensures r.Ok? ==> Indicators.Extends(r.value, data, RollingColumns(window))
    ensures r.Ok? ==>
      var ret := data.extra[DailyReturn];
      r.value.extra[RollingReturn(window)] == RollingSum(ret, window) &&
      r.value.extra[RollingVolatility(window)] == Indicators.AnnualisedVolatility(sqrt, ret, window) &&
      r.value.extra[RollingSharpe(window)] == RollingSharpeRatio(sqrt, ret, window)
  {
    if DailyReturn !in data.extra then Raises(KeyError)
    else
      var ret := data.extra[DailyReturn];
      Ok(data.(extra := data.extra[RollingReturn(window) := RollingSum(ret, window)]
                                  [RollingVolatility(window) := Indicators.AnnualisedVolatility(sqrt, ret, window)]
                                  [RollingSharpe(window) := RollingSharpeRatio(sqrt, ret, window)]))
  }

  /** The rolling return is the sum of a full, gap-free window, which is the window's length times its mean. */
  lemma RollingReturnAt(dailyReturns: Column, window: Pos, i: nat)
    requires i < |dailyReturns|
    ensures RollingSum(dailyReturns, window)[i].Some? <==> WindowAt(dailyReturns, window, i).Some?
    ensures RollingSum(dailyReturns, window)[i].Some? ==>
      var w := WindowAt(dailyReturns, window, i).value;
      RollingSum(dailyReturns, window)[i].value == Sum(w) == window as real * Mean(w)
  {
    var w := WindowAt(dailyReturns, window, i);
    if w.Some? {
      WindowDefined(dailyReturns, window, i);
      WindowLength(dailyReturns, window, i);
    }
  }

  /**
   * The rolling Sharpe ratio is defined on a full, gap-free window of at
   * least two returns that are not all equal, and then has the sign of the
   * rolling return.
   */
  lemma RollingSharpeAt(sqrt: real -> real, dailyReturns: Column, window: Pos, i: nat)
    requires IsSqrt(sqrt)
    requires i < |dailyReturns|
    ensures RollingSharpeRatio(sqrt, dailyReturns, window)[i].Some? <==>
      WindowAt(dailyReturns, window, i).Some? && 2 <= window && Variance(WindowAt(dailyReturns, window, i).value) != 0.0
    ensures RollingSharpeRatio(sqrt, dailyReturns, window)[i].Some? ==>
      var q := RollingSharpeRatio(sqrt, dailyReturns, window)[i].value;
      var sum := Sum(WindowAt(dailyReturns, window, i).value);
      (q > 0.0 <==> sum > 0.0) && (q < 0.0 <==> sum < 0.0)
  {
    Indicators.AnnualisedVolatilityAt(sqrt, dailyReturns, window, i);
    RollingReturnAt(dailyReturns, window, i);
    var w := WindowAt(dailyReturns, window, i);
    if w.Some? && 2 <= window && Variance(w.value) != 0.0 {
      var vol := Indicators.AnnualisedVolatility(sqrt, dailyReturns, window)[i].value;
      var m := Mean(w.value);
      assert RollingMean(dailyReturns, window)[i] == Some(m);
      var q := RollingSharpeRatio(sqrt, dailyReturns, window)[i].value;
      RatioSign(q, m * Config.TradingDaysPerYear, vol);
      RatioSign(m, Sum(w.value), window as real);
    }
  }

  // ----------------------------------------------------- compare_stocks

  /** One row of the comparison table. */
  datatype Comparison = Comparison(
    stock: string,
    totalReturn: Cell,
    volatility: Cell,
    sharpeRatio: Cell,
    maxDrawdown: Cell,
    currentPrice: real)

  /**
   * The `metric` argument: one of the table's numeric columns, or a name
   * that is not a column (the table is then left unsorted).
   */
  datatype ComparedBy = ByTotalReturn | ByVolatility | BySharpeRatio | ByMaxDrawdown | ByCurrentPrice | ByMissingColumn

  function Key(row: Comparison, metric: ComparedBy): Cell
  {
    match metric
    case ByTotalReturn => row.totalReturn
    case ByVolatility => row.volatility
    case BySharpeRatio => row.sharpeRatio
    case ByMaxDrawdown => row.maxDrawdown
    case ByCurrentPrice => Some(row.currentPrice)
    case ByMissingColumn => None
  }

  /** `a` may precede `b` in a descending sort that puts NaN last. */
  predicate Ranks(a: Cell, b: Cell)
  {
    b.None? || (a.Some? && a.value >= b.value)
  }

  predicate SortedDescending(rows: seq<Comparison>, metric: ComparedBy)
  {
    forall i, j :: 0 <= i < j < |rows| ==> Ranks(Key(rows[i], metric), Key(rows[j], metric))
  }

  function InsertDescending(sorted: seq<Comparison>, row: Comparison, metric: ComparedBy): (r: seq<Comparison>)
    requires SortedDescending(sorted, metric)
    ensures |r| == |sorted| + 1
    ensures r[0] == row || (|sorted| > 0 && r[0] == sorted[0])
    ensures SortedDescending(r, metric)
    ensures multiset(r) == multiset(sorted) + multiset{row}
  {
    if sorted == [] || Ranks(Key(row, metric), Key(sorted[0], metric)) then [row] + sorted
    else
      assert sorted == [sorted[0]] + sorted[1..];
      [sorted[0]] + InsertDescending(sorted[1..], row, metric)
  }

  /** `df.sort_values(by=metric, ascending=False)`: highest first, NaN last. */
  function SortDescending(rows: seq<Comparison>, metric: ComparedBy): (r: seq<Comparison>)
    ensures SortedDescending(r, metric)
    ensures multiset(r) == multiset(rows)
  {
    if rows == [] then []
    else
      assert rows == rows[..|rows| - 1] + [rows[|rows| - 1]];
      InsertDescending(SortDescending(rows[..|rows| - 1], metric), rows[|rows| - 1], metric)
  }

  /** The comparison row of one stock's summary. */
  function RowOf(name: string, s: Summary): Comparison
  {
    Comparison(name, s.totalReturn, s.volatility, s.sharpe, s.maxDrawdown, s.currentPrice)
  }

  predicate AllValid(data: Dict<Option<PriceFrame>>)
  {
    forall j :: 0 <= j < |data| ==> data[j].1.Some? ==> data[j].1.value.Valid()
  }

  /**
   * The rows the loop of `compare_stocks` collects, in the order of the
   * dict: one per stock with a summary; the first KeyError escapes.
   */
  function Rows(sqrt: real -> real, data: Dict<Option<PriceFrame>>): (r: Outcome<seq<Comparison>>)
    requires AllValid(data)
    ensures r.Raises? <==> exists j :: 0 <= j < |data| && GetSummaryStatistics(sqrt, data[j].1).Raises?
    ensures r.Raises? ==> r.error == KeyError
    ensures r.Ok? ==> |r.value| <= |data|
  {
    if data == [] then Ok([])
    else
      var front := data[..|data| - 1];
      assert forall j :: 0 <= j < |front| ==> front[j] == data[j];
      var (name, frame) := data[|data| - 1];
      match Rows(sqrt, front)
      case Raises(e) => Raises(e)
      case Ok(rows) =>
        match GetSummaryStatistics(sqrt, frame)
        case Raises(e) => Raises(e)
        case Ok(None) => Ok(rows)
        case Ok(Some(s)) => Ok(rows + [RowOf(name, s)])
  }

  /**
   * Every collected row is the summary of a stock of the dict, under that
   * stock's name.
   */
  lemma {:induction false} RowsFromSummaries(sqrt: real -> real, data: Dict<Option<PriceFrame>>, k: nat)
    requires AllValid(data) && Rows(sqrt, data).Ok? && k < |Rows(sqrt, data).value|
    ensures exists j, s ::
      0 <= j < |data| && GetSummaryStatistics(sqrt, data[j].1) == Ok(Some(s)) && Rows(sqrt, data).value[k] == RowOf(data[j].0, s)
    decreases |data|
  {
    var front := data[..|data| - 1];
    assert AllValid(front);
    var rows := Rows(sqrt, front).value;
    if k < |rows| {
      RowsFromSummaries(sqrt, front, k);
      var j, s :| 0 <= j < |front| && GetSummaryStatistics(sqrt, front[j].1) == Ok(Some(s)) && rows[k] == RowOf(front[j].0, s);
      assert data[j] == front[j];
    } else {
      var j := |data| - 1;
      var s := GetSummaryStatistics(sqrt, data[j].1).value.value;
      assert Rows(sqrt, data).value[k] == RowOf(data[j].0, s);
    }
  }

  lemma RowsStep(sqrt: real -> real, data: Dict<Option<PriceFrame>>)
    requires AllValid(data) && data != []
    ensures AllValid(data[..|data| - 1])
    ensures Rows(sqrt, data) ==
      match Rows(sqrt, data[..|data| - 1])
      case Raises(e) => Raises(e)
      case Ok(rows) =>
        match GetSummaryStatistics(sqrt, data[|data| - 1].1)
        case Raises(e) => Raises(e)
        case Ok(None) => Ok(rows)
        case Ok(Some(s)) => Ok(rows + [RowOf(data[|data| - 1].0, s)])
  {
  }

  /** Collecting over a concatenation collects over each part, in order. */
  lemma {:induction false} RowsAppend(sqrt: real -> real, a: Dict<Option<PriceFrame>>, b: Dict<Option<PriceFrame>>)
    requires AllValid(a) && AllValid(b)
    ensures AllValid(a + b)
    ensures Rows(sqrt, a).Ok? && Rows(sqrt, b).Ok? ==>
      Rows(sqrt, a + b) == Ok(Rows(sqrt, a).value + Rows(sqrt, b).value)
    decreases |b|
  {
    var c := a + b;
    assert forall j :: 0 <= j < |c| ==> c[j] == if j < |a| then a[j] else b[j - |a|];
    if b == [] {
      assert c == a;
      assert Rows(sqrt, a).Ok? ==> Rows(sqrt, a).value + Rows(sqrt, b).value == Rows(sqrt, a).value;
    } else if Rows(sqrt, a).Ok? && Rows(sqrt, b).Ok? {
      var front := b[..|b| - 1];
      assert c[..|c| - 1] == a + front;
      assert c[|c| - 1] == b[|b| - 1];
      var last := b[|b| - 1];
      RowsStep(sqrt, b);
      assert Rows(sqrt, front).Ok?;
      RowsAppend(sqrt, a, front);
      RowsStep(sqrt, c);
      var ra, rf := Rows(sqrt, a).value, Rows(sqrt, front).value;
      assert Rows(sqrt, a + front) == Ok(ra + rf);
      var g := GetSummaryStatistics(sqrt, last.1);
      assert g.Ok?;
      if g.value.None? {
        assert Rows(sqrt, b) == Ok(rf);
        assert Rows(sqrt, c) == Ok(ra + rf);
      } else {
        var row := RowOf(last.0, g.value.value);
        assert Rows(sqrt, b) == Ok(rf + [row]);
        assert Rows(sqrt, c) == Ok(ra + rf + [row]);
        assert ra + rf + [row] == ra + (rf + [row]);
      }
    }
  }

  /**
   * Every stock with a summary has its row: the rows of the stocks before
   * it, then its own, then the rows of the stocks after it.
   */
  lemma {:induction false} RowsComplete(sqrt: real -> real, data: Dict<Option<PriceFrame>>, j: nat, s: Summary)
    requires AllValid(data) && Rows(sqrt, data).Ok? && j < |data|
    requires GetSummaryStatistics(sqrt, data[j].1) == Ok(Some(s))
    ensures AllValid(data[..j]) && AllValid(data[j + 1..])
    ensures Rows(sqrt, data[..j]).Ok? && Rows(sqrt, data[j + 1..]).Ok?
    ensures Rows(sqrt, data).value ==
      Rows(sqrt, data[..j]).value + [RowOf(data[j].0, s)] + Rows(sqrt, data[j + 1..]).value
  {
    var before, after := data[..j], data[j + 1..];
    var one := [data[j]];
    assert data == before + one + after;
    assert AllValid(before) && AllValid(one) && AllValid(after);
    assert one[..0] == [];
    RowsStep(sqrt, one);
    assert [] + [RowOf(data[j].0, s)] == [RowOf(data[j].0, s)];
    assert Rows(sqrt, one) == Ok([RowOf(data[j].0, s)]);
    RowsAppend(sqrt, before, one);
    RowsAppend(sqrt, before + one, after);
  }

  /** A stock whose summary raises KeyError makes the whole comparison raise it. */
  lemma {:induction false} RowsRaise(sqrt: real -> real, data: Dict<Option<PriceFrame>>, j: nat)
    requires AllValid(data) && j < |data|
    requires GetSummaryStatistics(sqrt, data[j].1).Raises?
    ensures Rows(sqrt, data) == Raises(KeyError)
    decreases |data|
  {
    if j < |data| - 1 {
      var front := data[..|data| - 1];
      assert AllValid(front) && front[j] == data[j];
      RowsRaise(sqrt, front, j);
    }
  }

  /**
   * `compare_stocks`: collects one row per stock with a summary, in the
   * order of the dict, then sorts the table metric the metric, highest first
   * and NaN last, when the metric is one of its columns.
   */
  method CompareStocks(sqrt: real -> real, data: Dict<Option<PriceFrame>>, metric: ComparedBy)
    returns (r: Outcome<seq<Comparison>>)
    requires AllValid(data)
    ensures r.Raises? <==> Rows(sqrt, data).Raises?
    ensures r.Raises? ==> r.error == KeyError
    ensures r.Ok? ==> multiset(r.value) == multiset(Rows(sqrt, data).value)
    ensures r.Ok? && metric != ByMissingColumn ==> SortedDescending(r.value, metric)
    ensures r.Ok? && metric == ByMissingColumn ==> r.value == Rows(sqrt, data).value
  {
    var comparison: seq<Comparison> := [];
    var i := 0;
    while i < |data|
      invariant 0 <= i <= |data|
      invariant AllValid(data[..i])
      invariant Rows(sqrt, data[..i]) == Ok(comparison)
    {
      assert data[..i + 1][..i] == data[..i];
      var (name, frame) := data[i];
      var stats := GetSummaryStatistics(sqrt, frame);
      if stats.Raises? {
        RowsRaise(sqrt, data, i);
        return Raises(stats.error);
      }
      if stats.value.Some? {
        comparison := comparison + [RowOf(name, stats.value.value)];
      }
      i := i + 1;
    }
    assert data[..i] == data;
    if comparison != [] && metric != ByMissingColumn {
      comparison := SortDescending(comparison, metric);
    }
    return Ok(comparison);
  }
}
