/**
 * The older loader (`app/utils/data_loader.py`), as written: its own copy
 * of the indicator step, whose RSI call lacks an argument, and its own
 * portfolio metrics and summary statistics, which diverge from
 * `app/components/metrics.py` in the total return, the Sharpe ratio and
 * the handling of weights.
 */
module LegacyLoader {
  import opened Base
  import opened Stats
  import opened Rolling
  import Config
  import Indicators
  import Metrics
  import Loader

  // ------------------------------------------------ Indicator step

  const BandColumns: set<Label> := {BBMiddle, BBUpper, BBLower, BBWidth}

  /** Every column the indicator step assigns when it runs to the end. */
  const LegacyColumns: set<Label> :=
    Loader.ReturnColumns + Indicators.AverageColumns + BandColumns + Indicators.OscillatorColumns

  /**
   * Lines 71-75: the 20-row mean of the closes and bands two 20-row
   * standard deviations around it, with their distance; there is no
   * `BB_Percent`. These are the columns of the indicator engine's bands.
   */
  function AddBands(sqrt: real -> real, data: PriceFrame): (r: PriceFrame)
    requires data.Valid()
    ensures Indicators.Extends(r, data, BandColumns)
    ensures var b := Indicators.BollingerBands(sqrt, data.bars.close, Config.BollingerPeriod, Config.BollingerStd);
      r.extra[BBMiddle] == b.middle && r.extra[BBUpper] == b.upper &&
      r.extra[BBLower] == b.lower && r.extra[BBWidth] == b.width
  {
    var close := Lift(data.bars.close);
    var middle := RollingMean(close, 20);
    var spread := ScaleColumn(RollingStd(sqrt, close, 20), 2.0);
    var upper := AddColumns(middle, spread);
    var lower := SubColumns(middle, spread);
    BandsAgree(sqrt, data.bars.close);
    data.(extra := data.extra[BBMiddle := middle][BBUpper := upper][BBLower := lower]
                             [BBWidth := SubColumns(upper, lower)])
  }

  lemma BandsAgree(sqrt: real -> real, close: seq<real>)
    ensures var b := Indicators.BollingerBands(sqrt, close, Config.BollingerPeriod, Config.BollingerStd);
      var middle := RollingMean(Lift(close), 20);
      var spread := ScaleColumn(RollingStd(sqrt, Lift(close), 20), 2.0);
      b.middle == middle && b.upper == AddColumns(middle, spread) &&
      b.lower == SubColumns(middle, spread) &&
      b.width == SubColumns(AddColumns(middle, spread), SubColumns(middle, spread))
  {
  }

  /**
   * A call of the nested `calculate_rsi(series, window)`: Python refuses a
   * call without the window with a TypeError; with it, the result is the
   * indicator engine's RSI.
   */
  function CalculateRsi(series: Column, window: Option<Pos>): (r: Outcome<Column>)
    ensures r.Raises? <==> window.None?
    ensures r.Raises? ==> r.error == TypeError
    ensures r.Ok? ==> r.value == Indicators.Rsi(series, window.value)
  {
    match window
    case None => Raises(TypeError)
    case Some(w) => Ok(Indicators.Rsi(series, w))
  }

  /** Lines 86-101 once the RSI is known: RSI, the two volatilities and ATR. */
  function AddOscillators(sqrt: real -> real, data: PriceFrame, rsi: Column): (r: PriceFrame)
    requires data.Valid() && DailyReturn in data.extra && |rsi| == data.bars.Rows()
    ensures Indicators.Extends(r, data, Indicators.OscillatorColumns)
    ensures r.extra[RSI] == rsi
  {
    var dailyReturns := data.extra[DailyReturn];
    data.(extra := data.extra[RSI := rsi]
                             [Volatility20 := Indicators.AnnualisedVolatility(sqrt, dailyReturns, 20)]
                             [Volatility50 := Indicators.AnnualisedVolatility(sqrt, dailyReturns, 50)]
                             [ATR := Indicators.Atr(data.bars, 14)])
  }

  /** The frames the indicator step builds up to the RSI line: returns, averages, bands. */
  function Prepared(sqrt: real -> real, data: PriceFrame): (r: PriceFrame)
    requires data.Valid()
    ensures Indicators.Extends(r, data, Loader.ReturnColumns + Indicators.AverageColumns + BandColumns)
    ensures r.extra[DailyReturn] == Loader.DailyReturns(data.bars.close)
    ensures r.extra[BBUpper] == Indicators.BollingerBands(sqrt, data.bars.close, Config.BollingerPeriod, Config.BollingerStd).upper
    ensures r.extra[MA20] == Indicators.Sma(Lift(data.bars.close), Config.MaShort)
  {
    var withReturns := Loader.AddReturns(data);
    var averaged := Indicators.AddAverages(withReturns);
    var banded := AddBands(sqrt, averaged);
    LabelsApart();
    Carried(withReturns, averaged, Indicators.AverageColumns, DailyReturn);
    Carried(averaged, banded, BandColumns, DailyReturn);
    Carried(averaged, banded, BandColumns, MA20);
    Indicators.ExtendsTwice(data, withReturns, averaged, Loader.ReturnColumns, Indicators.AverageColumns);
    Indicators.ExtendsTwice(data, averaged, banded, Loader.ReturnColumns + Indicators.AverageColumns, BandColumns);
    banded
  }

  /** A column that a step does not assign keeps its contents. */
  lemma Carried(a: PriceFrame, b: PriceFrame, added: set<Label>, name: Label)
    requires Indicators.Extends(b, a, added) && name in a.extra && name !in added
    ensures name in b.extra && b.extra[name] == a.extra[name]
  {
  }

  /** The steps of the indicator step assign different columns. */
  lemma LabelsApart()
    ensures DailyReturn !in Indicators.AverageColumns && DailyReturn !in BandColumns
    ensures MA20 !in BandColumns && BBPercent !in LegacyColumns
    ensures DailyReturn !in Indicators.OscillatorColumns && MA20 !in Indicators.OscillatorColumns
    ensures BBUpper !in Indicators.OscillatorColumns
  {
  }

  /** The indicator step, calling the RSI with the given window (or, as written, without one). */
  function Indicate(sqrt: real -> real, data: PriceFrame, rsiWindow: Option<Pos>): (r: Outcome<PriceFrame>)
    requires data.Valid()
  {
    var prepared := Prepared(sqrt, data);
    match CalculateRsi(Lift(prepared.bars.close), rsiWindow)
    case Raises(e) => Raises(e)
    case Ok(rsi) => Ok(AddOscillators(sqrt, prepared, rsi))
  }

  /**
   * `add_technical_indicators` as written: the RSI line calls the nested
   * function without its window, so every call ends in TypeError and the
   * copy with the columns assigned so far is discarded.
   */
  function AddTechnicalIndicators(sqrt: real -> real, data: PriceFrame): (r: Outcome<PriceFrame>)
    requires data.Valid()
    ensures r.Raises? && r.error == TypeError
  {
    Indicate(sqrt, data, None)
  }

  /**
   * `add_technical_indicators` with the RSI window of the configuration
   * passed: it completes, adds the return, average, band and oscillator
   * columns (no `BB_Percent`, no stochastic columns), and its columns are
   * the indicator engine's.
   */
  function AddTechnicalIndicatorsCorrected(sqrt: real -> real, data: PriceFrame): (r: Outcome<PriceFrame>)
    requires data.Valid()
    ensures r.Ok? && Indicators.Extends(r.value, data, LegacyColumns)
    ensures BBPercent in r.value.extra ==> BBPercent in data.extra
    ensures r.value.extra[DailyReturn] == Loader.DailyReturns(data.bars.close)
    ensures r.value.extra[MA20] == Indicators.Sma(Lift(data.bars.close), Config.MaShort)
    ensures r.value.extra[BBUpper] ==
      Indicators.BollingerBands(sqrt, data.bars.close, Config.BollingerPeriod, Config.BollingerStd).upper
    ensures r.value.extra[RSI] == Indicators.Rsi(Lift(data.bars.close), Config.RsiPeriod)
  {
    var r := Indicate(sqrt, data, Some(Config.RsiPeriod));
    var prepared := Prepared(sqrt, data);
    LabelsApart();
    Carried(prepared, r.value, Indicators.OscillatorColumns, DailyReturn);
    Carried(prepared, r.value, Indicators.OscillatorColumns, MA20);
    Carried(prepared, r.value, Indicators.OscillatorColumns, BBUpper);
    Indicators.ExtendsTwice(data, prepared, r.value, Loader.ReturnColumns + Indicators.AverageColumns + BandColumns,
                            Indicators.OscillatorColumns);
    r
  }

  // ------------------------------------------------ Portfolio metrics

  /** `returns_df[name]` for a name the aligned table has. */
  function ColumnOf(table: Dict<seq<real>>, name: string, n: nat): (c: seq<real>)
    requires forall j :: 0 <= j < |table| ==> |table[j].1| == n
    requires HasKey(table, name)
    ensures |c| == n
    ensures exists j :: 0 <= j < |table| && table[j] == (name, c)
  {
    Metrics.GetFound(table, name, []);
    Get(table, name, [])
  }

  /** Every weight names a column of the table. */
  predicate Priced(table: Dict<seq<real>>, w: Dict<real>) {
    forall k :: 0 <= k < |w| ==> HasKey(table, w[k].0)
  }

  lemma PricedPrefix(table: Dict<seq<real>>, w: Dict<real>, m: nat)
    requires Priced(table, w) && m <= |w|
    ensures Priced(table, w[..m])
  {
    var front := w[..m];
    forall k | 0 <= k < m
      ensures HasKey(table, front[k].0)
    {
      assert front[k] == w[k];
    }
  }

  /** The weighted sum of one row, over the weights in order. */
  function RowReturn(table: Dict<seq<real>>, w: Dict<real>, n: nat, i: nat): real
    requires i < n
    requires forall j :: 0 <= j < |table| ==> |table[j].1| == n
    requires Priced(table, w)
  {
    if w == [] then 0.0
    else
      var last := w[|w| - 1];
      PricedPrefix(table, w, |w| - 1);
      RowReturn(table, w[..|w| - 1], n, i) + ColumnOf(table, last.0, n)[i] * last.1
  }

  /**
   * `sum(returns_df[name] * weights[name] for name, weight in weights.items())`:
   * KeyError for a weight whose name has no returns; for no weights the sum
   * is the integer 0 rather than a series (`None` here).
   */
  function PortfolioReturns(table: Dict<seq<real>>, w: Dict<real>, n: nat): (r: Outcome<Option<seq<real>>>)
    requires forall j :: 0 <= j < |table| ==> |table[j].1| == n
    ensures r.Raises? <==> !Priced(table, w)
    ensures r.Raises? ==> r.error == KeyError
    ensures r.Ok? ==> (r.value.None? <==> w == [])
    ensures r.Ok? && r.value.Some? ==> |r.value.value| == n
  {
    if !Priced(table, w) then Raises(KeyError)
    else if w == [] then Ok(None)
    else Ok(Some(seq(n, i requires 0 <= i < n => RowReturn(table, w, n, i))))
  }

  lemma {:induction false} GetUnique<V>(d: Dict<V>, j: nat, default: V)
    requires UniqueKeys(d) && j < |d|
    ensures Get(d, d[j].0, default) == d[j].1
    decreases |d|
  {
    if j < |d| - 1 {
      var front := d[..|d| - 1];
      assert front[j] == d[j];
      GetUnique(front, j, default);
    }
  }

  /** Weights that name exactly the table's columns all have a column. */
  lemma KeysPriced(table: Dict<seq<real>>, w: Dict<real>)
    requires Keys(w) == Keys(table)
    ensures Priced(table, w)
  {
    forall k | 0 <= k < |w|
      ensures HasKey(table, w[k].0)
    {
      assert Keys(w)[k] == Keys(table)[k];
    }
  }

  lemma LastTermsAgree(table: Dict<seq<real>>, w: Dict<real>, n: nat, k: nat)
    requires k < |w|
    requires forall j :: 0 <= j < |table| ==> |table[j].1| == n
    requires UniqueKeys(table) && UniqueKeys(w) && Keys(w) == Keys(table)
    requires HasKey(table, w[k].0)
    ensures ColumnOf(table, w[k].0, n) == table[k].1
    ensures Get(w, table[k].0, 0.0) == w[k].1
  {
    assert Keys(w)[k] == Keys(table)[k];
    GetUnique(table, k, []);
    GetUnique(w, k, 0.0);
  }

  /** The weighted sum over the first `m` weights adds the `m`-th term to the sum over the others. */
  lemma RowStep(table: Dict<seq<real>>, w: Dict<real>, n: nat, i: nat, m: nat)
    requires i < n && 0 < m <= |w|
    requires forall j :: 0 <= j < |table| ==> |table[j].1| == n
    requires Priced(table, w)
    ensures Priced(table, w[..m]) && Priced(table, w[..m - 1])
    ensures RowReturn(table, w[..m], n, i) ==
      RowReturn(table, w[..m - 1], n, i) + ColumnOf(table, w[m - 1].0, n)[i] * w[m - 1].1
  {
    PricedPrefix(table, w, m);
    PricedPrefix(table, w, m - 1);
    var wm := w[..m];
    assert wm[..m - 1] == w[..m - 1] && wm[m - 1] == w[m - 1];
  }

  /** The same for the sum over the first `m` columns in metrics.py. */
  lemma ColumnStep(table: Dict<seq<real>>, w: Dict<real>, n: nat, i: nat, m: nat)
    requires i < n && 0 < m <= |table|
    requires forall j :: 0 <= j < |table| ==> |table[j].1| == n
    ensures Metrics.RowReturn(table[..m], w, n, i) ==
      Metrics.RowReturn(table[..m - 1], w, n, i) + table[m - 1].1[i] * Get(w, table[m - 1].0, 0.0)
  {
    var tm := table[..m];
    assert tm[..m - 1] == table[..m - 1] && tm[m - 1] == table[m - 1];
  }

  /** Both sums gain the same term when the `m`-th weight and the `m`-th column carry the same name. */
  lemma NextRowTerm(table: Dict<seq<real>>, w: Dict<real>, n: nat, i: nat, m: nat)
    requires i < n && 0 < m <= |w| && m <= |table|
    requires forall j :: 0 <= j < |table| ==> |table[j].1| == n
    requires Priced(table, w)
    requires Priced(table, w[..m - 1])
    requires RowReturn(table, w[..m - 1], n, i) == Metrics.RowReturn(table[..m - 1], w, n, i)
    requires HasKey(table, w[m - 1].0)
    requires ColumnOf(table, w[m - 1].0, n) == table[m - 1].1 && Get(w, table[m - 1].0, 0.0) == w[m - 1].1
    ensures Priced(table, w[..m])
    ensures RowReturn(table, w[..m], n, i) == Metrics.RowReturn(table[..m], w, n, i)
  {
    RowStep(table, w, n, i, m);
    ColumnStep(table, w, n, i, m);
  }

  lemma {:induction false} RowsAgree(table: Dict<seq<real>>, w: Dict<real>, n: nat, i: nat, m: nat)
    requires i < n && m <= |w|
    requires forall j :: 0 <= j < |table| ==> |table[j].1| == n
    requires UniqueKeys(table) && UniqueKeys(w) && Keys(w) == Keys(table)
    ensures Priced(table, w[..m])
    ensures RowReturn(table, w[..m], n, i) == Metrics.RowReturn(table[..m], w, n, i)
  {
    KeysPriced(table, w);
    PricedPrefix(table, w, m);
    if m > 0 {
      RowsAgree(table, w, n, i, m - 1);
      LastTermsAgree(table, w, n, m - 1);
      NextRowTerm(table, w, n, i, m);
    } else {
      NoRows(table, w, n, i);
    }
  }

  lemma NoRows(table: Dict<seq<real>>, w: Dict<real>, n: nat, i: nat)
    requires i < n
    requires forall j :: 0 <= j < |table| ==> |table[j].1| == n
    ensures Priced(table, w[..0])
    ensures RowReturn(table, w[..0], n, i) == Metrics.RowReturn(table[..0], w, n, i)
  {
    assert w[..0] == [] && table[..0] == [];
  }

  /**
   * When the weights name exactly the table's columns, in the same order
   * (as the default weights do), the sum over the weights is the sum over
   * the columns of `calculate_portfolio_metrics` in metrics.py.
   */
  lemma SameNamesSamePortfolio(table: Dict<seq<real>>, w: Dict<real>, n: nat)
    requires forall j :: 0 <= j < |table| ==> |table[j].1| == n
    requires UniqueKeys(table) && UniqueKeys(w) && Keys(w) == Keys(table) && w != []
    ensures PortfolioReturns(table, w, n) == Ok(Some(Metrics.PortfolioReturns(table, w, n)))
  {
    KeysPriced(table, w);
    assert w[..|w|] == w && table[..|w|] == table;
    var mine := seq(n, i requires 0 <= i < n => RowReturn(table, w, n, i));
    forall i | 0 <= i < n
      ensures mine[i] == Metrics.PortfolioReturns(table, w, n)[i]
    {
      RowsAgree(table, w, n, i, |w|);
    }
    assert mine == Metrics.PortfolioReturns(table, w, n);
    var r := PortfolioReturns(table, w, n);
    assert r.Ok? && r.value.Some? && r.value.value == mine;
  }

  /**
   * `calculate_max_drawdown` of this loader, the same computation as that
   * of metrics.py: NaN without returns or after a total loss on the first
   * day, otherwise at most zero, and zero when no return is negative.
   */
  function MaxDrawdown(r: seq<real>): (m: Cell)
    ensures m.Some? <==> |r| > 0 && r[0] != -1.0
    ensures m.Some? ==> m.value <= 0.0
    ensures |r| > 0 && (forall k :: 0 <= k < |r| ==> r[k] >= 0.0) ==> m == Some(0.0)
  {
    if |r| == 0 then Metrics.MaxDrawdown(r)
    else
      Metrics.MaxDrawdownNonPositive(r);
      if forall k :: 0 <= k < |r| ==> r[k] >= 0.0 then
        Metrics.MaxDrawdownWithoutLosses(r);
        Metrics.MaxDrawdown(r)
      else Metrics.MaxDrawdown(r)
  }

  /** The metrics dict of this `calculate_portfolio_metrics` (the correlation matrix is not modelled). */
  datatype LegacyMetrics = LegacyMetrics(
    totalReturn: real,
    annualizedReturn: Cell,
    annualizedVolatility: Cell,
    sharpe: Cell,
    maxDrawdown: Cell)

  /**
   * `(mean / std) * sqrt(252) if std != 0 else NaN`: no risk-free rate, and
   * NaN (not zero) for a series without spread; NaN below two values.
   */
  function Sharpe(sqrt: real -> real, p: seq<real>): (s: Cell)
    ensures s.Some? ==> |p| >= 2
  {
    match Std(sqrt, p)
    case None => None
    case Some(sd) => if sd == 0.0 then None else Times(Div(Mean(p), sd), sqrt(Config.TradingDaysPerYear))
  }

  lemma SameQuotient(q1: real, q2: real, d: real, a: real)
    requires d != 0.0 && q1 * d == a && q2 * d == a
    ensures q1 == q2
  {
    assert (q1 - q2) * d == 0.0;
  }

  lemma Annualise(m: real, sd: real, s: real)
    requires sd != 0.0 && s * s == 252.0
    ensures (m / sd * s) * (sd * s) == m * 252.0
  {
    assert m / sd * sd == m;
    assert (m / sd * s) * (sd * s) == (m / sd * sd) * (s * s);
  }

  /**
   * This Sharpe ratio is that of metrics.py at a zero risk-free rate,
   * except for a series without spread: NaN here, zero there.
   */
  lemma SharpeAtZeroRate(sqrt: real -> real, p: seq<real>)
    requires IsSqrt(sqrt) && |p| >= 2
    ensures Variance(p) == 0.0 ==> Sharpe(sqrt, p) == None && Metrics.Sharpe(sqrt, p, 0.0) == Some(0.0)
    ensures Variance(p) != 0.0 ==> Sharpe(sqrt, p).Some? && Sharpe(sqrt, p) == Metrics.Sharpe(sqrt, p, 0.0)
  {
    StdZeroIffVarianceZero(sqrt, p);
    var s := sqrt(Config.TradingDaysPerYear);
    SqrtPositive(sqrt, Config.TradingDaysPerYear);
    var sd := Std(sqrt, p).value;
    if sd != 0.0 {
      Metrics.PositiveProduct(sd, s);
      var legacy := Mean(p) / sd * s;
      var q := Div(Mean(p), sd);
      assert q.Some? && q.value == Mean(p) / sd;
      var t := Times(q, s);
      assert t.Some? && t.value == legacy;
      assert Sharpe(sqrt, p) == t;
      var m := Metrics.Sharpe(sqrt, p, 0.0);
      assert Metrics.ExcessReturn(p, 0.0) == Mean(p) * 252.0;
      assert m.Some?;
      assert m.value * (sd * s) == Metrics.ExcessReturn(p, 0.0);
      Annualise(Mean(p), sd, s);
      SameQuotient(legacy, m.value, sd * s, Mean(p) * 252.0);
    }
  }

  /** The metrics of a series of portfolio returns (which may be empty after alignment). */
  function MetricsOf(sqrt: real -> real, p: seq<real>): (m: LegacyMetrics)
    ensures m.maxDrawdown.Some? ==> m.maxDrawdown.value <= 0.0
  {
    LegacyMetrics(
      Sum(p),
      Times(MeanCell(p), Config.TradingDaysPerYear),
      Times(Std(sqrt, p), sqrt(Config.TradingDaysPerYear)),
      Sharpe(sqrt, p),
      MaxDrawdown(p))
  }

  /** Dicts with the same keys in the same order have the same keys. */
  lemma SameKeys<A, B>(a: Dict<A>, b: Dict<B>, name: string)
    requires Keys(a) == Keys(b)
    ensures HasKey(a, name) <==> HasKey(b, name)
  {
    if HasKey(a, name) {
      var j :| 0 <= j < |a| && a[j].0 == name;
      assert Keys(a)[j] == Keys(b)[j];
    }
    if HasKey(b, name) {
      var j :| 0 <= j < |b| && b[j].0 == name;
      assert Keys(a)[j] == Keys(b)[j];
    }
  }

  /** Some supplied weight names a stock that is not in the data. */
  predicate UnknownWeight(data: Dict<PriceFrame>, weights: Option<Dict<real>>) {
    weights.Some? && exists k :: 0 <= k < |weights.value| && !HasKey(data, weights.value[k].0)
  }

  /**
   * `calculate_portfolio_metrics` of data_loader.py: nothing only for no
   * stocks; equal weights by default and supplied weights used as they are
   * (not normalised); the daily returns aligned on the complete rows
   * (KeyError when a frame has none); the weighted sum over the weight
   * names (KeyError for a name without data, AttributeError for no
   * weights); then plain-sum total return and the ratios of the series,
   * even when no row is left.
   */
  function CalculatePortfolioMetrics(sqrt: real -> real, data: Dict<PriceFrame>, weights: Option<Dict<real>>)
    : (r: Outcome<Option<LegacyMetrics>>)
    ensures r == Ok(None) <==> data == []
    ensures r.Raises? && r.error == KeyError <==>
      data != [] && (Metrics.DailyReturns(data).Raises? || UnknownWeight(data, weights))
    ensures r.Raises? && r.error == AttributeError <==>
      data != [] && Metrics.DailyReturns(data).Ok? && weights == Some([])
    ensures r.Raises? ==> r.error == KeyError || r.error == AttributeError
    ensures r.Ok? && r.value.Some? ==>
      data != [] && Metrics.DailyReturns(data).Ok? &&
      var cols := Metrics.DailyReturns(data).value;
      var n := |Metrics.CompleteRows(cols, Metrics.Height(cols))|;
      var p := PortfolioReturns(Metrics.DropIncomplete(cols), Metrics.WeightsOrEqual(data, weights), n);
      p.Ok? && p.value.Some? && r.value.value == MetricsOf(sqrt, p.value.value)
    ensures r.Ok? && r.value.Some? && r.value.value.maxDrawdown.Some? ==> r.value.value.maxDrawdown.value <= 0.0
  {
    if data == [] then Ok(None)
    else
      var w := Metrics.WeightsOrEqual(data, weights);
      match Metrics.DailyReturns(data)
      case Raises(e) => Raises(e)
      case Ok(cols) =>
        var table := Metrics.DropIncomplete(cols);
        var n := |Metrics.CompleteRows(cols, Metrics.Height(cols))|;
        PricedIffKnown(data, table, w);
        match PortfolioReturns(table, w, n)
        case Raises(e) => Raises(e)
        case Ok(None) => Raises(AttributeError)
        case Ok(Some(p)) => Ok(Some(MetricsOf(sqrt, p)))
  }

  lemma PricedIffKnown(data: Dict<PriceFrame>, table: Dict<seq<real>>, w: Dict<real>)
    requires Keys(table) == Keys(data)
    ensures Priced(table, w) <==> forall k :: 0 <= k < |w| ==> HasKey(data, w[k].0)
  {
    forall k | 0 <= k < |w|
      ensures HasKey(table, w[k].0) <==> HasKey(data, w[k].0)
    {
      SameKeys(table, data, w[k].0);
    }
  }

  /**
   * The default weights name exactly the stocks, so without supplied
   * weights the only possible failure is a frame without daily returns.
   */
  lemma DefaultWeightsKnown(sqrt: real -> real, data: Dict<PriceFrame>)
    requires data != [] && Metrics.DailyReturns(data).Ok?
    ensures CalculatePortfolioMetrics(sqrt, data, None).Ok?
  {
    var w := Metrics.EqualWeights(Keys(data));
    assert !UnknownWeight(data, None);
    assert w != [];
  }

  /** One column under a full weight: the portfolio is that column. */
  lemma WholeWeight(name: string, xs: seq<real>)
    ensures PortfolioReturns([(name, xs)], [(name, 1.0)], |xs|) == Ok(Some(xs))
  {
    var table := [(name, xs)];
    var w := [(name, 1.0)];
    assert HasKey(table, name) by {
      assert table[0].0 == name;
    }
    assert Priced(table, w);
    assert ColumnOf(table, name, |xs|) == xs;
    var rows := seq(|xs|, i requires 0 <= i < |xs| => RowReturn(table, w, |xs|, i));
    forall i | 0 <= i < |xs|
      ensures rows[i] == xs[i]
    {
      assert w[..0] == [];
      assert RowReturn(table, [], |xs|, i) == 0.0;
      assert RowReturn(table, w, |xs|, i) == RowReturn(table, w[..0], |xs|, i) + ColumnOf(table, name, |xs|)[i] * 1.0;
    }
    assert rows == xs;
  }

  /**
   * Supplied weights are used as they are: weights of 2 and 2 double both
   * returns, where metrics.py would first scale them to 0.5 and 0.5.
   */
  lemma UnnormalisedPair(a: string, b: string, xs: seq<real>, ys: seq<real>)
    requires a != b && |xs| == |ys|
    ensures PortfolioReturns([(a, xs), (b, ys)], [(a, 2.0), (b, 2.0)], |xs|) ==
      Ok(Some(seq(|xs|, i requires 0 <= i < |xs| => 2.0 * xs[i] + 2.0 * ys[i])))
  {
    var n := |xs|;
    var table := [(a, xs), (b, ys)];
    var w := [(a, 2.0), (b, 2.0)];
    assert table[..1] == [(a, xs)];
    assert HasKey(table, a) by { assert table[0].0 == a; }
    assert HasKey(table, b) by { assert table[1].0 == b; }
    assert Priced(table, w);
    assert ColumnOf(table, a, n) == xs;
    assert ColumnOf(table, b, n) == ys;
    assert w[..1] == [(a, 2.0)] && w[..1][..0] == w[..0];
    forall i | 0 <= i < n
      ensures RowReturn(table, w, n, i) == 2.0 * xs[i] + 2.0 * ys[i]
    {
      assert RowReturn(table, w[..1], n, i) == RowReturn(table, w[..0], n, i) + xs[i] * 2.0;
    }
    var rows := seq(n, i requires 0 <= i < n => RowReturn(table, w, n, i));
    assert PortfolioReturns(table, w, n) == Ok(Some(rows));
    assert rows == seq(n, i requires 0 <= i < n => 2.0 * xs[i] + 2.0 * ys[i]);
  }

  /**
   * A single stock (any name) with default weights: the metrics are those
   * of its own return series.
   */
  lemma SingleStockPortfolio(sqrt: real -> real, name: string, f: PriceFrame)
    requires DailyReturn in f.extra
    ensures CalculatePortfolioMetrics(sqrt, [(name, f)], None) ==
      Ok(Some(MetricsOf(sqrt, Metrics.Present(f.extra[DailyReturn]))))
  {
    var data := [(name, f)];
    assert Metrics.EqualWeights(Keys(data)) == [(name, 1.0)];
    var c := f.extra[DailyReturn];
    var xs := Metrics.Present(c);
    var cols := [(name, c)];
    var dr := Metrics.DailyReturns(data);
    assert dr.Ok? && dr.value[0] == cols[0];
    assert dr.value == cols;
    Metrics.AlignSingle(name, c);
    WholeWeight(name, xs);
  }


  /**
   * The total return here is the plain sum of the daily returns, while
   * metrics.py compounds them: two days of 10% give 20% here and 21% there.
   */
  lemma TotalReturnsDiverge(sqrt: real -> real)
    ensures MetricsOf(sqrt, [0.1, 0.1]).totalReturn == 0.2
    ensures Metrics.TotalReturn([0.1, 0.1]) == 0.21
  {
    assert [0.1, 0.1][..1] == [0.1] && [0.1][..0] == [];
    assert Sum([0.1]) == 0.1;
    assert Metrics.Growth([0.1, 0.1], 0) == 1.1;
  }

  // ------------------------------------------------ Summary statistics

  /**
   * `get_summary_statistics` of data_loader.py: the summary of metrics.py
   * in every respect except the Sharpe ratio, which has no risk-free rate
   * (`(mean * 252) / (std * sqrt(252))`, zero when the deviation is zero).
   */
  function GetSummaryStatistics(sqrt: real -> real, data: Option<PriceFrame>): (r: Outcome<Option<Metrics.Summary>>)
    requires data.Some? ==> data.value.Valid()
    ensures r.Raises? <==> Metrics.GetSummaryStatistics(sqrt, data).Raises?
    ensures r.Raises? ==> r.error == KeyError
    ensures r == Ok(None) <==> data.None? || data.value.Empty()
    ensures r.Ok? && r.value.Some? ==>
      r.value.value == Metrics.GetSummaryStatistics(sqrt, data).value.value.(
        sharpe := Metrics.Sharpe(sqrt, Metrics.Present(data.value.extra[DailyReturn]), 0.0))
  {
    if data.None? || data.value.Empty() then Ok(None)
    else if DailyReturn !in data.value.extra then Raises(KeyError)
    else Ok(Some(Metrics.SummaryOf(sqrt, data.value.bars, Metrics.Present(data.value.extra[DailyReturn]), 0.0)))
  }

  /** A higher risk-free rate lowers a Sharpe ratio that is not zero by construction. */
  lemma SharpeFallsWithRate(sqrt: real -> real, r: seq<real>, low: real, high: real)
    requires IsSqrt(sqrt) && |r| >= 2 && Variance(r) != 0.0 && low < high
    ensures Metrics.Sharpe(sqrt, r, low).Some? && Metrics.Sharpe(sqrt, r, high).Some?
    ensures Metrics.Sharpe(sqrt, r, low).value > Metrics.Sharpe(sqrt, r, high).value
  {
    Metrics.SharpeSign(sqrt, r, low);
    Metrics.SharpeSign(sqrt, r, high);
    StdZeroIffVarianceZero(sqrt, r);
    SqrtPositive(sqrt, Config.TradingDaysPerYear);
    var sd := Std(sqrt, r).value;
    var den := sd * sqrt(Config.TradingDaysPerYear);
    Metrics.PositiveProduct(sd, sqrt(Config.TradingDaysPerYear));
    var q1 := Metrics.Sharpe(sqrt, r, low).value;
    var q2 := Metrics.Sharpe(sqrt, r, high).value;
    assert q1 * den == Metrics.ExcessReturn(r, low);
    assert q2 * den == Metrics.ExcessReturn(r, high);
    assert (q1 - q2) * den == high - low;
    Metrics.RatioSign(q1 - q2, high - low, den);
  }

  /**
   * With two or more daily returns that vary, the Sharpe ratio of this
   * summary exceeds that of metrics.py, which deducts a 2% risk-free rate.
   */
  lemma SummarySharpeExceeds(sqrt: real -> real, data: PriceFrame)
    requires IsSqrt(sqrt) && data.Valid() && !data.Empty() && DailyReturn in data.extra
    requires var r := Metrics.Present(data.extra[DailyReturn]); |r| >= 2 && Variance(r) != 0.0
    ensures GetSummaryStatistics(sqrt, Some(data)).value.value.sharpe.Some?
    ensures Metrics.GetSummaryStatistics(sqrt, Some(data)).value.value.sharpe.Some?
    ensures GetSummaryStatistics(sqrt, Some(data)).value.value.sharpe.value >
            Metrics.GetSummaryStatistics(sqrt, Some(data)).value.value.sharpe.value
  {
    SharpeFallsWithRate(sqrt, Metrics.Present(data.extra[DailyReturn]), 0.0, Metrics.RiskFreeRate);
  }
}
