/**
 * The indicator engine (`app/utils/indicators.py`): moving averages, the
 * exponential moving average recurrence, MACD, Bollinger bands, RSI, ATR,
 * the stochastic oscillator, the volatility columns and the signal flags.
 * Every operation works on a copy of its input frame, so each one is a
 * function from the input frame to a new frame.
 */
module Indicators {
  import opened Base
  import opened Stats
  import opened Rolling
  import Config

  // ---------------------------------------------------------------- SMA

  /** `calculate_sma`: the trailing mean over `window` rows. */
  function Sma(prices: Column, window: Pos): (r: Column)
    ensures |r| == |prices|
  {
    RollingMean(prices, window)
  }

  /**
   * Over a gap-free price column the SMA is missing during the first
   * `window - 1` rows and is the mean of the last `window` prices after.
   */
  lemma SmaWindow(p: seq<real>, window: Pos, i: nat)
    requires i < |p|
    ensures Sma(Lift(p), window)[i] == if i + 1 < window then None else Some(Mean(p[i + 1 - window .. i + 1]))
  {
    WindowOfLift(p, window, i);
    assert Sma(Lift(p), window)[i] == match WindowAt(Lift(p), window, i) case None => None case Some(xs) => MeanCell(xs);
  }

  /** A flat price series has itself as its SMA once the window is full. */
  lemma SmaOfConstant(p: seq<real>, c: real, window: Pos, i: nat)
    requires forall k :: 0 <= k < |p| ==> p[k] == c
    requires window <= i + 1 <= |p|
    ensures Sma(Lift(p), window)[i] == Some(c)
  {
    SmaWindow(p, window, i);
    MeanOfConstant(p[i + 1 - window .. i + 1], c);
  }

  // ---------------------------------------------------------------- EMA

  /** The smoothing factor pandas derives from a span. */
  function Alpha(span: Pos): (a: real)
    ensures 0.0 < a <= 1.0
  {
    2.0 / (span as real + 1.0)
  }

  /**
   * The value at row `i` of `ewm(span, adjust=False).mean()`: the first
   * price, then each value moves the previous one towards the new price by
   * the fraction `Alpha(span)`.
   */
  function EmaAt(p: seq<real>, span: Pos, i: nat): real
    requires i < |p|
  {
    if i == 0 then p[0] else EmaAt(p, span, i - 1) + Alpha(span) * (p[i] - EmaAt(p, span, i - 1))
  }

  /** `calculate_ema`. */
  function Ema(p: seq<real>, span: Pos): (r: seq<real>)
    ensures |r| == |p|
  {
    seq(|p|, i requires 0 <= i < |p| => EmaAt(p, span, i))
  }

  /** The EMA is causal: its value at row `i` only depends on the prices up to row `i`. */
  lemma {:induction false} EmaPrefix(p: seq<real>, span: Pos, k: nat, i: nat)
    requires i < k <= |p|
    ensures EmaAt(p, span, i) == EmaAt(p[..k], span, i)
    decreases i
  {
    if i > 0 {
      EmaPrefix(p, span, k, i - 1);
    }
  }

  /** A convex step between two points of an interval stays in the interval. */
  lemma ConvexStep(prev: real, x: real, a: real, lo: real, hi: real)
    requires lo <= prev <= hi && lo <= x <= hi && 0.0 < a <= 1.0
    ensures lo <= prev + a * (x - prev) <= hi
  {
    if prev <= x {
      NonNegativeProduct(a, x - prev);
      NonNegativeProduct(1.0 - a, x - prev);
    } else {
      NonNegativeProduct(a, prev - x);
      NonNegativeProduct(1.0 - a, prev - x);
    }
  }

  /** Prices confined to an interval give an EMA confined to it. */
  lemma {:induction false} EmaAtWithin(p: seq<real>, span: Pos, lo: real, hi: real, i: nat)
    requires forall k :: 0 <= k < |p| ==> lo <= p[k] <= hi
    requires i < |p|
    ensures lo <= EmaAt(p, span, i) <= hi
    decreases i
  {
    if i > 0 {
      EmaAtWithin(p, span, lo, hi, i - 1);
      ConvexStep(EmaAt(p, span, i - 1), p[i], Alpha(span), lo, hi);
    }
  }

  lemma EmaWithin(p: seq<real>, span: Pos, lo: real, hi: real)
    requires forall k :: 0 <= k < |p| ==> lo <= p[k] <= hi
    ensures forall k :: 0 <= k < |p| ==> lo <= Ema(p, span)[k] <= hi
  {
    forall k | 0 <= k < |p|
      ensures lo <= Ema(p, span)[k] <= hi
    {
      EmaAtWithin(p, span, lo, hi, k);
    }
  }

  /** Every EMA value lies between the lowest and highest price seen so far. */
  lemma EmaBetweenExtremes(p: seq<real>, span: Pos, i: nat)
    requires i < |p|
    ensures SeqMin(p[..i + 1]) <= Ema(p, span)[i] <= SeqMax(p[..i + 1])
  {
    var q := p[..i + 1];
    EmaAtWithin(q, span, SeqMin(q), SeqMax(q), i);
    EmaPrefix(p, span, i + 1, i);
  }

  /** A flat price series is its own EMA. */
  lemma EmaOfConstant(p: seq<real>, span: Pos, c: real)
    requires forall k :: 0 <= k < |p| ==> p[k] == c
    ensures forall k :: 0 <= k < |p| ==> Ema(p, span)[k] == c
  {
    EmaWithin(p, span, c, c);
  }

  // --------------------------------------------------------------- MACD

  datatype Macd = Macd(line: seq<real>, signal: seq<real>, histogram: seq<real>)

  /** Element-wise difference of two equally long columns. */
  function Difference(a: seq<real>, b: seq<real>): (r: seq<real>)
    requires |a| == |b|
    ensures |r| == |a|
  {
    seq(|a|, i requires 0 <= i < |a| => a[i] - b[i])
  }

  /** MACD line (fast EMA minus slow EMA), its signal EMA and the histogram. */
  function MacdOf(close: seq<real>, fast: Pos, slow: Pos, signal: Pos): (m: Macd)
    ensures |m.line| == |m.signal| == |m.histogram| == |close|
  {
    var line := Difference(Ema(close, fast), Ema(close, slow));
    var sig := Ema(line, signal);
    Macd(line, sig, Difference(line, sig))
  }

  /** The histogram is the gap between line and signal at every row. */
  lemma MacdDecomposes(close: seq<real>, fast: Pos, slow: Pos, signal: Pos, i: nat)
    requires i < |close|
    ensures MacdOf(close, fast, slow, signal).signal[i] + MacdOf(close, fast, slow, signal).histogram[i]
         == MacdOf(close, fast, slow, signal).line[i]
    ensures MacdOf(close, fast, slow, signal).line[i] == Ema(close, fast)[i] - Ema(close, slow)[i]
  {
  }

  /** A flat price series has MACD line, signal and histogram all zero. */
  lemma MacdOfConstant(close: seq<real>, c: real, fast: Pos, slow: Pos, signal: Pos)
    requires forall k :: 0 <= k < |close| ==> close[k] == c
    ensures var m := MacdOf(close, fast, slow, signal);
      forall k :: 0 <= k < |close| ==> m.line[k] == 0.0 && m.signal[k] == 0.0 && m.histogram[k] == 0.0
  {
    EmaOfConstant(close, fast, c);
    EmaOfConstant(close, slow, c);
    var line := Difference(Ema(close, fast), Ema(close, slow));
    EmaOfConstant(line, signal, 0.0);
  }

  // ---------------------------------------------------- Bollinger bands

  /** The Bollinger values of one row. */
  datatype BandRow = BandRow(middle: Cell, upper: Cell, lower: Cell, width: Cell, percent: Cell)

  /**
   * One row of `add_bollinger_bands` from the close, the rolling mean and
   * the rolling standard deviation: bands `k` deviations above and below
   * the mean, their distance, and where the close sits between them.
   */
  function BandAt(close: real, middle: Cell, sd: Cell, k: real): BandRow
  {
    var upper := Plus(middle, Times(sd, k));
    var lower := Minus(middle, Times(sd, k));
    BandRow(middle, upper, lower, Minus(upper, lower), Over(Minus(Some(close), lower), Minus(upper, lower)))
  }

  /**
   * The bands sit symmetrically `sd * k` around the middle, are ordered for
   * a non-negative multiplier and are `2 sd k` apart; the percentage is
   * defined exactly where that width is non-zero and places the close
   * between the bands.
   */
  lemma BandAtShape(close: real, m: real, sd: real, k: real)
    requires 0.0 <= sd
    ensures var r := BandAt(close, Some(m), Some(sd), k);
      r.upper.Some? && r.lower.Some? && r.width.Some? &&
      r.upper.value - m == m - r.lower.value == sd * k &&
      r.width.value == 2.0 * (sd * k) &&
      (0.0 <= k ==> r.lower.value <= m <= r.upper.value && 0.0 <= r.width.value)
    ensures var r := BandAt(close, Some(m), Some(sd), k);
      (r.percent.Some? <==> sd * k != 0.0) &&
      (r.percent.Some? ==> r.percent.value * r.width.value == close - r.lower.value)
  {
    if 0.0 <= k {
      NonNegativeProduct(sd, k);
    }
  }

  /** Without a mean or a deviation there are no bands. */
  lemma BandAtMissing(close: real, middle: Cell, sd: Cell, k: real)
    requires middle.None? || sd.None?
    ensures var r := BandAt(close, middle, sd, k);
      r.upper.None? && r.lower.None? && r.width.None? && r.percent.None?
  {
  }

  /** Row `i` of the bands over a close column. */
  function BollingerRow(sqrt: real -> real, close: seq<real>, period: Pos, k: real, i: nat): BandRow
    requires i < |close|
  {
    BandAt(close[i], MeanAt(Lift(close), period, i), StdAt(sqrt, Lift(close), period, i), k)
  }

  datatype Bands = Bands(middle: Column, upper: Column, lower: Column, width: Column, percent: Column)

  /** `add_bollinger_bands`: the five band columns. */
  function BollingerBands(sqrt: real -> real, close: seq<real>, period: Pos, k: real): (b: Bands)
    ensures |b.middle| == |b.upper| == |b.lower| == |b.width| == |b.percent| == |close|
  {
    Bands(
      seq(|close|, i requires 0 <= i < |close| => BollingerRow(sqrt, close, period, k, i).middle),
      seq(|close|, i requires 0 <= i < |close| => BollingerRow(sqrt, close, period, k, i).upper),
      seq(|close|, i requires 0 <= i < |close| => BollingerRow(sqrt, close, period, k, i).lower),
      seq(|close|, i requires 0 <= i < |close| => BollingerRow(sqrt, close, period, k, i).width),
      seq(|close|, i requires 0 <= i < |close| => BollingerRow(sqrt, close, period, k, i).percent))
  }

  /**
   * The middle band is the SMA; the bands exist once the window holds at
   * least two closes, and then the window's standard deviation is
   * non-negative, zero exactly on a flat window.
   */
  lemma BollingerDefined(sqrt: real -> real, close: seq<real>, period: Pos, k: real, i: nat)
    requires IsSqrt(sqrt)
    requires i < |close|
    ensures var r := BollingerRow(sqrt, close, period, k, i);
      r.middle == Sma(Lift(close), period)[i] &&
      (StdAt(sqrt, Lift(close), period, i).Some? <==> 2 <= period <= i + 1) &&
      (r.upper.Some? <==> 2 <= period <= i + 1) &&
      (r.lower.Some? <==> r.upper.Some?) && (r.width.Some? <==> r.upper.Some?)
    ensures 2 <= period <= i + 1 ==>
      var sd := StdAt(sqrt, Lift(close), period, i).value;
      MeanAt(Lift(close), period, i).Some? &&
      0.0 <= sd && (sd == 0.0 <==> Variance(close[i + 1 - period .. i + 1]) == 0.0)
  {
    WindowOfLift(close, period, i);
    if 2 <= period <= i + 1 {
      var xs := close[i + 1 - period .. i + 1];
      StdZeroIffVarianceZero(sqrt, xs);
      BandAtShape(close[i], Mean(xs), sqrt(Variance(xs)), k);
    } else {
      BandAtMissing(close[i], MeanAt(Lift(close), period, i), StdAt(sqrt, Lift(close), period, i), k);
    }
  }

  /**
   * Once the window holds two or more closes the bands sit symmetrically
   * `k` standard deviations around the SMA, are ordered for a non-negative
   * multiplier and are `2 k` standard deviations apart.
   */
  lemma BollingerShape(sqrt: real -> real, close: seq<real>, period: Pos, k: real, i: nat)
    requires IsSqrt(sqrt)
    requires 2 <= period <= i + 1 <= |close|
    ensures var b := BollingerBands(sqrt, close, period, k);
      var sd := StdAt(sqrt, Lift(close), period, i).value;
      0.0 <= sd && b.middle[i].Some? && b.upper[i].Some? && b.lower[i].Some? && b.width[i].Some? &&
      b.upper[i].value - b.middle[i].value == b.middle[i].value - b.lower[i].value == sd * k &&
      b.width[i].value == 2.0 * (sd * k) &&
      (0.0 <= k ==> b.lower[i].value <= b.middle[i].value <= b.upper[i].value && 0.0 <= b.width[i].value)
  {
    BollingerDefined(sqrt, close, period, k, i);
    BandAtShape(close[i], MeanAt(Lift(close), period, i).value, StdAt(sqrt, Lift(close), period, i).value, k);
  }

  /**
   * `BB_Percent` is defined exactly where the width is non-zero, which for a
   * positive multiplier means a window that is not flat, and then places the
   * close between the bands.
   */
  lemma BollingerPercent(sqrt: real -> real, close: seq<real>, period: Pos, k: real, i: nat)
    requires IsSqrt(sqrt)
    requires 2 <= period <= i + 1 <= |close|
    ensures var b := BollingerBands(sqrt, close, period, k);
      b.width[i].Some? &&
      (b.percent[i].Some? <==> b.width[i].value != 0.0) &&
      (b.percent[i].Some? ==> b.percent[i].value * b.width[i].value == close[i] - b.lower[i].value) &&
      (0.0 < k ==> (b.percent[i].None? <==> Variance(close[i + 1 - period .. i + 1]) == 0.0))
  {
    BollingerDefined(sqrt, close, period, k, i);
    var sd := StdAt(sqrt, Lift(close), period, i).value;
    BandAtShape(close[i], MeanAt(Lift(close), period, i).value, sd, k);
    if 0.0 < k {
      NonZeroProduct(sd, k);
    }
  }

  lemma NonZeroProduct(a: real, b: real)
    requires b != 0.0
    ensures a * b == 0.0 <==> a == 0.0
  {
  }

  // ---------------------------------------------------------------- RSI

  /** `prices.diff()`: NaN in the first row and wherever either price is NaN. */
  function Diff(p: Column): (d: Column)
    ensures |d| == |p|
  {
    seq(|p|, i requires 0 <= i < |p| => if i == 0 then None else Minus(p[i], p[i - 1]))
  }

  /** `delta.where(delta > 0, 0)`: the rises, with 0 for falls and for NaN. */
  function Gains(p: Column): (g: seq<real>)
    ensures |g| == |p|
    ensures forall i :: 0 <= i < |g| ==> 0.0 <= g[i]
    ensures |p| > 0 ==> g[0] == 0.0
  {
    var d := Diff(p);
    seq(|p|, i requires 0 <= i < |p| => if d[i].Some? && d[i].value > 0.0 then d[i].value else 0.0)
  }

  /** `-delta.where(delta < 0, 0)`: the size of the falls, with 0 elsewhere. */
  function Losses(p: Column): (l: seq<real>)
    ensures |l| == |p|
    ensures forall i :: 0 <= i < |l| ==> 0.0 <= l[i]
    ensures |p| > 0 ==> l[0] == 0.0
  {
    var d := Diff(p);
    seq(|p|, i requires 0 <= i < |p| => if d[i].Some? && d[i].value < 0.0 then -d[i].value else 0.0)
  }

  /**
   * The gain and the loss of a row split its price change into a positive
   * and a negative part: at most one of them is non-zero, and the gain
   * minus the loss is the change (zero where it is NaN).
   */
  lemma GainsLosses(p: Column, i: nat)
    requires i < |p|
    ensures Gains(p)[i] - Losses(p)[i] == if Diff(p)[i].Some? then Diff(p)[i].value else 0.0
    ensures Gains(p)[i] == 0.0 || Losses(p)[i] == 0.0
  {
  }

  /**
   * `100 - 100 / (1 + gain / loss)` in floating point: a zero loss makes
   * the ratio infinite (RSI 100) unless the gain is zero too (NaN).
   */
  function RsiValue(gain: real, loss: real): Cell
  {
    if loss == 0.0 then (if gain == 0.0 then None else Some(100.0))
    else if 1.0 + gain / loss == 0.0 then None
    else Some(100.0 - 100.0 / (1.0 + gain / loss))
  }

  /** `calculate_rsi`. */
  function Rsi(prices: Column, period: Pos): (r: Column)
    ensures |r| == |prices|
  {
    seq(|prices|, i requires 0 <= i < |prices| =>
      var gain := MeanAt(Lift(Gains(prices)), period, i);
      var loss := MeanAt(Lift(Losses(prices)), period, i);
      if gain.Some? && loss.Some? then RsiValue(gain.value, loss.value) else None)
  }

  lemma ShareOfHundred(y: real)
    requires 1.0 <= y
    ensures 0.0 < 100.0 / y <= 100.0
  {
    assert 100.0 / y * y == 100.0;
  }

  lemma RatioNonNegative(a: real, b: real)
    requires 0.0 <= a && 0.0 < b
    ensures 0.0 <= a / b
  {
    assert a / b * b == a;
  }

  /** For non-negative averages the RSI is missing only when both are zero, and lies in [0, 100]. */
  lemma RsiValueRange(gain: real, loss: real)
    requires 0.0 <= gain && 0.0 <= loss
    ensures RsiValue(gain, loss).None? <==> gain == 0.0 && loss == 0.0
    ensures RsiValue(gain, loss).Some? ==> 0.0 <= RsiValue(gain, loss).value <= 100.0
    ensures loss == 0.0 && gain > 0.0 ==> RsiValue(gain, loss) == Some(100.0)
    ensures gain == 0.0 && loss > 0.0 ==> RsiValue(gain, loss) == Some(0.0)
  {
    if loss != 0.0 {
      RatioNonNegative(gain, loss);
      ShareOfHundred(1.0 + gain / loss);
    }
  }

  /** The RSI needs a full window of differences: it is missing before row `period - 1`. */
  lemma RsiWarmUp(prices: Column, period: Pos, i: nat)
    requires i < |prices|
    ensures Rsi(prices, period)[i].Some? ==> period <= i + 1
  {
    SmaWindow(Gains(prices), period, i);
  }

  /**
   * From row `period - 1` on (the first difference counts as zero) the RSI
   * is that of the window's average gain and loss: missing exactly when both
   * are zero, and otherwise within [0, 100].
   */
  lemma RsiAt(prices: Column, period: Pos, i: nat)
    requires period <= i + 1 <= |prices|
    ensures var gain := Mean(Gains(prices)[i + 1 - period .. i + 1]);
      var loss := Mean(Losses(prices)[i + 1 - period .. i + 1]);
      0.0 <= gain && 0.0 <= loss &&
      Rsi(prices, period)[i] == RsiValue(gain, loss) &&
      (Rsi(prices, period)[i].None? <==> gain == 0.0 && loss == 0.0)
    ensures Rsi(prices, period)[i].Some? ==> 0.0 <= Rsi(prices, period)[i].value <= 100.0
  {
    var g := Gains(prices);
    var l := Losses(prices);
    SmaWindow(g, period, i);
    SmaWindow(l, period, i);
    WindowMeanNonNegative(g, i + 1 - period, i + 1);
    WindowMeanNonNegative(l, i + 1 - period, i + 1);
    RsiValueRange(Mean(g[i + 1 - period .. i + 1]), Mean(l[i + 1 - period .. i + 1]));
  }

  /** The mean of a window of non-negative values is non-negative. */
  lemma WindowMeanNonNegative(xs: seq<real>, lo: nat, hi: nat)
    requires lo < hi <= |xs|
    requires forall k :: 0 <= k < |xs| ==> 0.0 <= xs[k]
    ensures 0.0 <= Mean(xs[lo..hi])
  {
    var w := xs[lo..hi];
    forall k | 0 <= k < |w|
      ensures 0.0 <= w[k] <= SeqMax(w)
    {
      assert w[k] == xs[lo + k];
    }
    MeanBounds(w, 0.0, SeqMax(w));
  }

  // ---------------------------------------------------------------- ATR

  /**
   * The true range of each bar: the largest of high minus low and the
   * distances of high and low from the previous close; the first bar has no
   * previous close and pandas' row maximum skips the missing distances.
   */
  function TrueRange(b: Bars): (tr: seq<real>)
    requires b.Aligned()
    ensures |tr| == b.Rows()
  {
    seq(b.Rows(), i requires 0 <= i < b.Rows() =>
      if i == 0 then b.high[0] - b.low[0]
      else Max(Max(b.high[i] - b.low[i], Abs(b.high[i] - b.close[i - 1])), Abs(b.low[i] - b.close[i - 1])))
  }

  /** `calculate_atr`: the trailing mean of the true range. */
  function Atr(b: Bars, period: Pos): (r: Column)
    requires b.Aligned()
    ensures |r| == b.Rows()
  {
    RollingMean(Lift(TrueRange(b)), period)
  }

  /** The true range covers the bar's own range, and equals it on the first bar. */
  lemma TrueRangeBounds(b: Bars, i: nat)
    requires b.Aligned() && i < b.Rows()
    ensures TrueRange(b)[i] >= b.high[i] - b.low[i]
    ensures 0 < i ==> TrueRange(b)[i] >= Abs(b.high[i] - b.close[i - 1]) && TrueRange(b)[i] >= Abs(b.low[i] - b.close[i - 1])
    ensures i == 0 ==> TrueRange(b)[0] == b.high[0] - b.low[0]
  {
  }

  /**
   * The ATR is first defined at row `period - 1`, is the mean true range of
   * the window, and is non-negative when no bar has its low above its high.
   */
  lemma AtrAt(b: Bars, period: Pos, i: nat)
    requires b.Aligned() && i < b.Rows()
    ensures Atr(b, period)[i].Some? <==> period <= i + 1
    ensures Atr(b, period)[i].Some? ==> Atr(b, period)[i].value == Mean(TrueRange(b)[i + 1 - period .. i + 1])
    ensures Atr(b, period)[i].Some? && (forall k :: 0 <= k < b.Rows() ==> b.low[k] <= b.high[k]) ==>
      0.0 <= Atr(b, period)[i].value
  {
    var tr := TrueRange(b);
    SmaWindow(tr, period, i);
    if period <= i + 1 && forall k :: 0 <= k < b.Rows() ==> b.low[k] <= b.high[k] {
      var w := tr[i + 1 - period .. i + 1];
      forall k | 0 <= k < |w|
        ensures 0.0 <= w[k]
      {
        TrueRangeBounds(b, i + 1 - period + k);
      }
      MeanBounds(w, 0.0, SeqMax(w));
    }
  }

  // --------------------------------------------------------- Stochastic

  /** %K of one row from its close and the window's lowest low and highest high. */
  function KAt(close: real, lowMin: Cell, highMax: Cell): Cell
  {
    Over(Times(Minus(Some(close), lowMin), 100.0), Minus(highMax, lowMin))
  }

  /**
   * %K is defined exactly where the window's range is non-zero, places the
   * close within that range in percent, and lies in [0, 100] for a close
   * within the range.
   */
  lemma KAtRange(close: real, lo: real, hi: real)
    ensures KAt(close, Some(lo), Some(hi)).Some? <==> hi != lo
    ensures hi != lo ==> KAt(close, Some(lo), Some(hi)).value * (hi - lo) == (close - lo) * 100.0
    ensures hi != lo && lo <= close <= hi ==> 0.0 <= KAt(close, Some(lo), Some(hi)).value <= 100.0
  {
    if hi != lo && lo <= close <= hi {
      PercentOfRange(close - lo, hi - lo, KAt(close, Some(lo), Some(hi)).value);
    }
  }

  datatype Stochastic = Stochastic(k: Column, d: Column)

  /**
   * `add_stochastic_oscillator`: %K over the last `kPeriod` bars and %D,
   * the trailing mean of %K over `dPeriod` rows.
   */
  function StochasticOf(b: Bars, kPeriod: Pos, dPeriod: Pos): (s: Stochastic)
    requires b.Aligned()
    ensures |s.k| == |s.d| == b.Rows()
  {
    var k := seq(b.Rows(), i requires 0 <= i < b.Rows() =>
      KAt(b.close[i], MinAt(Lift(b.low), kPeriod, i), MaxAt(Lift(b.high), kPeriod, i)));
    Stochastic(k, RollingMean(k, dPeriod))
  }

  lemma PercentOfRange(a: real, r: real, q: real)
    requires 0.0 <= a <= r && 0.0 < r
    requires q * r == a * 100.0
    ensures 0.0 <= q <= 100.0
  {
  }

  /** %K at row `i` from the window's lowest low and highest high. */
  lemma StochasticKWindow(b: Bars, kPeriod: Pos, dPeriod: Pos, i: nat)
    requires b.Aligned() && i < b.Rows()
    ensures kPeriod <= i + 1 ==>
      StochasticOf(b, kPeriod, dPeriod).k[i] ==
        KAt(b.close[i], Some(SeqMin(b.low[i + 1 - kPeriod .. i + 1])), Some(SeqMax(b.high[i + 1 - kPeriod .. i + 1])))
    ensures i + 1 < kPeriod ==> StochasticOf(b, kPeriod, dPeriod).k[i].None?
  {
    WindowOfLift(b.low, kPeriod, i);
    WindowOfLift(b.high, kPeriod, i);
  }

  /** The window ending at row `i` reaches at least as low and as high as row `i`. */
  lemma WindowExtremes(xs: seq<real>, w: Pos, i: nat)
    requires w <= i + 1 <= |xs|
    ensures SeqMin(xs[i + 1 - w .. i + 1]) <= xs[i] <= SeqMax(xs[i + 1 - w .. i + 1])
  {
    assert xs[i + 1 - w .. i + 1][w - 1] == xs[i];
  }

  /**
   * %K is first defined at row `kPeriod - 1`; for a bar whose close lies
   * within its own low and high, a defined %K lies in [0, 100].
   */
  lemma StochasticKAt(b: Bars, kPeriod: Pos, dPeriod: Pos, i: nat)
    requires b.Aligned() && i < b.Rows()
    ensures StochasticOf(b, kPeriod, dPeriod).k[i].Some? ==> kPeriod <= i + 1
    ensures StochasticOf(b, kPeriod, dPeriod).k[i].Some? && b.low[i] <= b.close[i] <= b.high[i] ==>
      0.0 <= StochasticOf(b, kPeriod, dPeriod).k[i].value <= 100.0
  {
    StochasticKWindow(b, kPeriod, dPeriod, i);
    if kPeriod <= i + 1 {
      WindowExtremes(b.low, kPeriod, i);
      WindowExtremes(b.high, kPeriod, i);
      KAtRange(b.close[i], SeqMin(b.low[i + 1 - kPeriod .. i + 1]), SeqMax(b.high[i + 1 - kPeriod .. i + 1]));
    }
  }

  /** %D needs `dPeriod` defined %K values, so it is first defined at row `kPeriod + dPeriod - 2`. */
  lemma StochasticDWarmUp(b: Bars, kPeriod: Pos, dPeriod: Pos, i: nat)
    requires b.Aligned() && i < b.Rows()
    ensures StochasticOf(b, kPeriod, dPeriod).d[i].Some? ==> kPeriod + dPeriod <= i + 2
  {
    var s := StochasticOf(b, kPeriod, dPeriod);
    WindowDefined(s.k, dPeriod, i);
    if s.d[i].Some? {
      StochasticKWindow(b, kPeriod, dPeriod, i + 1 - dPeriod);
    }
  }

  // --------------------------------------------------------- Volatility

  /** Annualised rolling volatility of the daily dailyReturns (`Volatility_20`, `Volatility_50`). */
  function AnnualisedVolatility(sqrt: real -> real, dailyReturns: Column, window: Pos): (r: Column)
    ensures |r| == |dailyReturns|
  {
    ScaleColumn(RollingStd(sqrt, dailyReturns, window), sqrt(Config.TradingDaysPerYear))
  }

  /**
   * The volatility needs a full, gap-free window of at least two dailyReturns,
   * is then non-negative, and is zero exactly when the window's dailyReturns are
   * all equal in the sense of zero sample variance.
   */
  lemma AnnualisedVolatilityAt(sqrt: real -> real, dailyReturns: Column, window: Pos, i: nat)
    requires IsSqrt(sqrt)
    requires i < |dailyReturns|
    ensures AnnualisedVolatility(sqrt, dailyReturns, window)[i].Some? <==> WindowAt(dailyReturns, window, i).Some? && 2 <= window
    ensures AnnualisedVolatility(sqrt, dailyReturns, window)[i].Some? ==>
      var v := AnnualisedVolatility(sqrt, dailyReturns, window)[i].value;
      0.0 <= v && (v == 0.0 <==> Variance(WindowAt(dailyReturns, window, i).value) == 0.0) &&
      v == sqrt(Variance(WindowAt(dailyReturns, window, i).value)) * sqrt(Config.TradingDaysPerYear)
  {
    var w := WindowAt(dailyReturns, window, i);
    if w.Some? && 2 <= window {
      assert |w.value| == window by { WindowDefined(dailyReturns, window, i); }
      StdZeroIffVarianceZero(sqrt, w.value);
      SqrtPositive(sqrt, Config.TradingDaysPerYear);
      var sd := sqrt(Variance(w.value));
      NonNegativeProduct(sd, sqrt(Config.TradingDaysPerYear));
      NonZeroProduct(sd, sqrt(Config.TradingDaysPerYear));
    }
  }

  // --------------------------------------------- add_technical_indicators

  /** The fixed periods of `add_stochastic_oscillator`. */
  const StochasticKPeriod: Pos := 14
  const StochasticDPeriod: Pos := 3

  const AverageColumns: set<Label> := {MA20, MA50, MA200, EMA12, EMA26, MACD, MACDSignal, MACDHistogram}
  const BandColumns: set<Label> := {BBMiddle, BBUpper, BBLower, BBWidth, BBPercent}
  const OscillatorColumns: set<Label> := {RSI, Volatility20, Volatility50, ATR}
  const StochasticColumns: set<Label> := {StochasticK, StochasticD}

  /** The columns `add_technical_indicators` adds to the frame. */
  const IndicatorColumns: set<Label> := AverageColumns + BandColumns + OscillatorColumns + StochasticColumns

  /**
   * `r` is `data` with the columns `added` assigned: the same bars, the
   * same other columns, and every column of the frame's length.
   */
  predicate Extends(r: PriceFrame, data: PriceFrame, added: set<Label>) {
    r.Valid() && r.bars == data.bars && r.extra.Keys == data.extra.Keys + added &&
    forall name :: name in data.extra && name !in added ==> r.extra[name] == data.extra[name]
  }

  lemma ExtendsTwice(a: PriceFrame, b: PriceFrame, c: PriceFrame, first: set<Label>, second: set<Label>)
    requires Extends(b, a, first) && Extends(c, b, second)
    ensures Extends(c, a, first + second)
  {
  }

  /** `add_bollinger_bands`: a copy of the frame with the five band columns. */
  function AddBollingerBands(sqrt: real -> real, data: PriceFrame, period: Pos, k: real): (r: PriceFrame)
    requires data.Valid()
    ensures Extends(r, data, BandColumns)
    ensures r.extra[BBMiddle] == BollingerBands(sqrt, data.bars.close, period, k).middle
    ensures r.extra[BBWidth] == BollingerBands(sqrt, data.bars.close, period, k).width
    ensures r.extra[BBUpper] == BollingerBands(sqrt, data.bars.close, period, k).upper
    ensures r.extra[BBLower] == BollingerBands(sqrt, data.bars.close, period, k).lower
    ensures r.extra[BBPercent] == BollingerBands(sqrt, data.bars.close, period, k).percent
  {
    var bands := BollingerBands(sqrt, data.bars.close, period, k);
    data.(extra := data.extra[BBMiddle := bands.middle][BBUpper := bands.upper][BBLower := bands.lower]
                             [BBWidth := bands.width][BBPercent := bands.percent])
  }

  /** `add_stochastic_oscillator`: a copy of the frame with %K and %D. */
  function AddStochasticOscillator(data: PriceFrame, kPeriod: Pos, dPeriod: Pos): (r: PriceFrame)
    requires data.Valid()
    ensures Extends(r, data, StochasticColumns)
    ensures r.extra[StochasticK] == StochasticOf(data.bars, kPeriod, dPeriod).k
    ensures r.extra[StochasticD] == StochasticOf(data.bars, kPeriod, dPeriod).d
  {
    var stochastic := StochasticOf(data.bars, kPeriod, dPeriod);
    data.(extra := data.extra[StochasticK := stochastic.k][StochasticD := stochastic.d])
  }

  /** Lines 25-36: the moving averages and the MACD columns. */
  function AddAverages(data: PriceFrame): (r: PriceFrame)
    requires data.Valid()
    ensures Extends(r, data, AverageColumns)
    ensures r.extra[MA20] == Sma(Lift(data.bars.close), Config.MaShort)
    ensures r.extra[MA50] == Sma(Lift(data.bars.close), Config.MaMedium)
    ensures r.extra[MA200] == Sma(Lift(data.bars.close), Config.MaLong)
    ensures r.extra[EMA12] == Lift(Ema(data.bars.close, Config.EmaFast))
    ensures r.extra[EMA26] == Lift(Ema(data.bars.close, Config.EmaSlow))
    ensures r.extra[MACD] == Lift(MacdOf(data.bars.close, Config.EmaFast, Config.EmaSlow, Config.MacdSignal).line)
    ensures r.extra[MACDSignal] == Lift(MacdOf(data.bars.close, Config.EmaFast, Config.EmaSlow, Config.MacdSignal).signal)
    ensures r.extra[MACDHistogram] == Lift(MacdOf(data.bars.close, Config.EmaFast, Config.EmaSlow, Config.MacdSignal).histogram)
  {
    var close := data.bars.close;
    var macd := MacdOf(close, Config.EmaFast, Config.EmaSlow, Config.MacdSignal);
    data.(extra := data.extra[MA20 := Sma(Lift(close), Config.MaShort)]
                             [MA50 := Sma(Lift(close), Config.MaMedium)]
                             [MA200 := Sma(Lift(close), Config.MaLong)]
                             [EMA12 := Lift(Ema(close, Config.EmaFast))]
                             [EMA26 := Lift(Ema(close, Config.EmaSlow))]
                             [MACD := Lift(macd.line)]
                             [MACDSignal := Lift(macd.signal)]
                             [MACDHistogram := Lift(macd.histogram)])
  }

  /** Lines 42-54: RSI, the two volatilities and ATR. */
  function AddOscillators(sqrt: real -> real, data: PriceFrame, dailyReturns: Column): (r: PriceFrame)
    requires data.Valid() && |dailyReturns| == data.bars.Rows()
    ensures Extends(r, data, OscillatorColumns)
    ensures r.extra[RSI] == Rsi(Lift(data.bars.close), Config.RsiPeriod)
    ensures r.extra[Volatility20] == AnnualisedVolatility(sqrt, dailyReturns, Config.VolatilityShort)
    ensures r.extra[Volatility50] == AnnualisedVolatility(sqrt, dailyReturns, Config.VolatilityLong)
    ensures r.extra[ATR] == Atr(data.bars, Config.AtrPeriod)
  {
    data.(extra := data.extra[RSI := Rsi(Lift(data.bars.close), Config.RsiPeriod)]
                             [Volatility20 := AnnualisedVolatility(sqrt, dailyReturns, Config.VolatilityShort)]
                             [Volatility50 := AnnualisedVolatility(sqrt, dailyReturns, Config.VolatilityLong)]
                             [ATR := Atr(data.bars, Config.AtrPeriod)])
  }

  /**
   * `add_technical_indicators`: a copy of the frame with the indicator
   * columns added (replacing any of the same label). The frame must already
   * carry `Daily_Return`; without it the volatility step raises KeyError
   * and the partly built copy is discarded.
   */
  function AddTechnicalIndicators(sqrt: real -> real, data: PriceFrame): (r: Outcome<PriceFrame>)
    requires data.Valid()
    ensures r.Raises? <==> DailyReturn !in data.extra
    ensures r.Raises? ==> r.error == KeyError
    ensures r.Ok? ==> Extends(r.value, data, IndicatorColumns)
  {
    if DailyReturn !in data.extra then Raises(KeyError)
    else
      var averaged := AddAverages(data);
      var banded := AddBollingerBands(sqrt, averaged, Config.BollingerPeriod, Config.BollingerStd);
      var oscillating := AddOscillators(sqrt, banded, data.extra[DailyReturn]);
      var done := AddStochasticOscillator(oscillating, StochasticKPeriod, StochasticDPeriod);
      ExtendsTwice(data, averaged, banded, AverageColumns, BandColumns);
      ExtendsTwice(data, banded, oscillating, AverageColumns + BandColumns, OscillatorColumns);
      ExtendsTwice(data, oscillating, done, AverageColumns + BandColumns + OscillatorColumns, StochasticColumns);
      Ok(done)
  }

  // ------------------------------------------------------------ Signals

  /** `df.loc[mask, column] = value`: overwrite the masked rows. */
  function Assign(column: seq<int>, mask: seq<bool>, value: int): (r: seq<int>)
    requires |column| == |mask|
    ensures |r| == |column|
  {
    seq(|column|, i requires 0 <= i < |column| => if mask[i] then value else column[i])
  }

  /**
   * A signal column: 0 everywhere, then 1 where `up` holds, then -1 where
   * `down` holds, so `down` wins where both hold.
   */
  function Flags(up: seq<bool>, down: seq<bool>): (r: seq<int>)
    requires |up| == |down|
    ensures |r| == |up|
  {
    Assign(Assign(seq(|up|, _ => 0), up, 1), down, -1)
  }

  /** Every flag is -1, 0 or 1: -1 exactly where `down` holds, 1 where only `up` holds. */
  lemma FlagsMeaning(up: seq<bool>, down: seq<bool>, i: nat)
    requires |up| == |down| && i < |up|
    ensures Flags(up, down)[i] in {-1, 0, 1}
    ensures Flags(up, down)[i] == -1 <==> down[i]
    ensures Flags(up, down)[i] == 1 <==> up[i] && !down[i]
    ensures Flags(up, down)[i] == 0 <==> !up[i] && !down[i]
  {
  }

  /** Flags from a strict comparison of two columns in both directions. */
  function CompareFlags(a: Column, b: Column): (r: seq<int>)
    requires |a| == |b|
    ensures |r| == |a|
  {
    Flags(seq(|a|, i requires 0 <= i < |a| => Greater(a[i], b[i])), seq(|a|, i requires 0 <= i < |a| => Less(a[i], b[i])))
  }

  /**
   * A comparison flag is 1 exactly where `a > b`, -1 exactly where `a < b`,
   * and 0 on equality or where either side is NaN.
   */
  lemma CompareFlagsMeaning(a: Column, b: Column, i: nat)
    requires |a| == |b| && i < |a|
    ensures CompareFlags(a, b)[i] in {-1, 0, 1}
    ensures CompareFlags(a, b)[i] == 1 <==> Greater(a[i], b[i])
    ensures CompareFlags(a, b)[i] == -1 <==> Less(a[i], b[i])
    ensures CompareFlags(a, b)[i] == 0 <==> a[i].None? || b[i].None? || a[i] == b[i]
  {
    FlagsMeaning(seq(|a|, i requires 0 <= i < |a| => Greater(a[i], b[i])), seq(|a|, i requires 0 <= i < |a| => Less(a[i], b[i])), i);
  }

  /** Flags from a column against two fixed levels: 1 below `low`, -1 above `high`. */
  function LevelFlags(a: Column, low: real, high: real): (r: seq<int>)
    ensures |r| == |a|
  {
    Flags(seq(|a|, i requires 0 <= i < |a| => Less(a[i], Some(low))), seq(|a|, i requires 0 <= i < |a| => Greater(a[i], Some(high))))
  }

  /** The RSI flag is 1 when oversold (below 30), -1 when overbought (above 70), else 0. */
  lemma RsiFlagsMeaning(rsi: Column, i: nat)
    requires i < |rsi|
    ensures LevelFlags(rsi, 30.0, 70.0)[i] == 1 <==> rsi[i].Some? && rsi[i].value < 30.0
    ensures LevelFlags(rsi, 30.0, 70.0)[i] == -1 <==> rsi[i].Some? && rsi[i].value > 70.0
    ensures LevelFlags(rsi, 30.0, 70.0)[i] == 0 <==> rsi[i].None? || 30.0 <= rsi[i].value <= 70.0
  {
    FlagsMeaning(seq(|rsi|, i requires 0 <= i < |rsi| => Less(rsi[i], Some(30.0))), seq(|rsi|, i requires 0 <= i < |rsi| => Greater(rsi[i], Some(70.0))), i);
  }

  /** Flags from the close against the Bollinger bands: 1 below the lower, -1 above the upper. */
  function BandFlags(close: Column, lower: Column, upper: Column): (r: seq<int>)
    requires |close| == |lower| == |upper|
    ensures |r| == |close|
  {
    Flags(seq(|close|, i requires 0 <= i < |close| => Less(close[i], lower[i])),
          seq(|close|, i requires 0 <= i < |close| => Greater(close[i], upper[i])))
  }

  /** The four signal columns and the frame they were computed from. */
  datatype Signals = Signals(data: PriceFrame, ma: seq<int>, rsi: seq<int>, macd: seq<int>, bands: seq<int>)

  const SignalInputs: set<Label> := {MA20, MA50, RSI, MACD, MACDSignal, BBLower, BBUpper}

  /**
   * `identify_signals`: the moving-average, RSI, MACD and Bollinger flags of
   * every row. Reading a missing indicator column raises KeyError.
   */
  function IdentifySignals(data: PriceFrame): (r: Outcome<Signals>)
    requires data.Valid()
    ensures r.Raises? <==> !(SignalInputs <= data.extra.Keys)
    ensures r.Raises? ==> r.error == KeyError
    ensures r.Ok? ==> r.value.data == data
    ensures r.Ok? ==> |r.value.ma| == |r.value.rsi| == |r.value.macd| == |r.value.bands| == data.bars.Rows()
    ensures r.Ok? ==> forall i :: 0 <= i < data.bars.Rows() ==>
      r.value.ma[i] in {-1, 0, 1} && r.value.rsi[i] in {-1, 0, 1} && r.value.macd[i] in {-1, 0, 1} && r.value.bands[i] in {-1, 0, 1}
  {
    if !(SignalInputs <= data.extra.Keys) then Raises(KeyError)
    else
      var e := data.extra;
      var ma := CompareFlags(e[MA20], e[MA50]);
      var rsi := LevelFlags(e[RSI], 30.0, 70.0);
      var macd := CompareFlags(e[MACD], e[MACDSignal]);
      var bands := BandFlags(Lift(data.bars.close), e[BBLower], e[BBUpper]);
      assert forall i :: 0 <= i < |ma| ==> ma[i] in {-1, 0, 1} && macd[i] in {-1, 0, 1} by {
        forall i | 0 <= i < |ma| ensures ma[i] in {-1, 0, 1} && macd[i] in {-1, 0, 1} {
          CompareFlagsMeaning(e[MA20], e[MA50], i);
          CompareFlagsMeaning(e[MACD], e[MACDSignal], i);
        }
      }
      Ok(Signals(data, ma, rsi, macd, bands))
  }

  /**
   * Row by row, the moving-average and MACD flags are 1 exactly on a strict
   * rise of the first column over the second and -1 exactly on a strict
   * fall, the RSI flag marks oversold and overbought readings, and the band
   * flag is -1 exactly where the close is above the upper band.
   */
  lemma SignalsMeaning(data: PriceFrame, i: nat)
    requires data.Valid() && i < data.bars.Rows()
    requires IdentifySignals(data).Ok?
    ensures var s := IdentifySignals(data).value; var e := data.extra;
      (s.ma[i] == 1 <==> Greater(e[MA20][i], e[MA50][i])) &&
      (s.ma[i] == -1 <==> Less(e[MA20][i], e[MA50][i])) &&
      (s.macd[i] == 1 <==> Greater(e[MACD][i], e[MACDSignal][i])) &&
      (s.macd[i] == -1 <==> Less(e[MACD][i], e[MACDSignal][i]))
    ensures var s := IdentifySignals(data).value; var rsi := data.extra[RSI][i];
      (s.rsi[i] == 1 <==> rsi.Some? && rsi.value < 30.0) &&
      (s.rsi[i] == -1 <==> rsi.Some? && rsi.value > 70.0)
    ensures var s := IdentifySignals(data).value; var e := data.extra;
      (s.bands[i] == -1 <==> Greater(Some(data.bars.close[i]), e[BBUpper][i])) &&
      (s.bands[i] == 1 <==> Less(Some(data.bars.close[i]), e[BBLower][i]) && !Greater(Some(data.bars.close[i]), e[BBUpper][i]))
  {
    var e := data.extra;
    CompareFlagsMeaning(e[MA20], e[MA50], i);
    CompareFlagsMeaning(e[MACD], e[MACDSignal], i);
    RsiFlagsMeaning(e[RSI], i);
    var close := Lift(data.bars.close);
    FlagsMeaning(seq(|close|, k requires 0 <= k < |close| => Less(close[k], e[BBLower][k])),
                 seq(|close|, k requires 0 <= k < |close| => Greater(close[k], e[BBUpper][k])), i);
  }
}
