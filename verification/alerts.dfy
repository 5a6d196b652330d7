/**
 * Alert rules (`app/components/alerts.py`): a price move alert, a
 * moving-average crossover alert and a volatility alert for one stock,
 * and their concatenation. The price and volatility alerts write a column
 * into the caller's frame, so the frame is an object whose column map
 * they update; every failure inside the rules is caught and reported as
 * an error alert.
 */
module Alerts {
  import opened Base

  /** The default thresholds of `price_alerts` and `volatility_alert`. */
  const PriceThreshold: real := 0.05
  const VolatilityThreshold: real := 0.03

  /** The alert messages, by kind; the numbers are the ones the message formats. */
  datatype Alert =
    | NoPriceData                              // "No data available to generate alerts."
    | PriceError(stock: string)                // "Error generating alerts for {stock}."
    | Jump(stock: string, change: real)        // "{stock} jumped {change:.2%} today!"
    | Drop(stock: string, change: real)        // "{stock} dropped {change:.2%} today!"
    | NoMovingAverages                         // "Moving average data not available."
    | CrossoverError                           // "Error detecting crossover alert."
    | Bullish(stock: string)                   // "Bullish crossover detected on {stock} ..."
    | Bearish(stock: string)                   // "Bearish crossover detected on {stock} ..."
    | NoVolatilityData                         // "No data to calculate volatility."
    | HighVolatility(stock: string, range: real) // "{stock} showed high volatility today ({range:.2%})."
    | VolatilityError                          // "Error generating volatility alert."

  /** A caller's data frame: labelled float columns of a common length. */
  class Frame {
    var columns: map<Label, Column>
    var rows: nat

    ghost predicate Valid()
      reads this
    {
      forall l :: l in columns ==> |columns[l]| == rows
    }

    /** `DataFrame.empty`: no rows or no columns. */
    predicate Empty()
      reads this
    {
      rows == 0 || columns == map[]
    }

    constructor (columns: map<Label, Column>, rows: nat)
      requires forall l :: l in columns ==> |columns[l]| == rows
      ensures Valid()
      ensures this.columns == columns && this.rows == rows
    {
      this.columns := columns;
      this.rows := rows;
    }
  }

  // ------------------------------------------------------- The rules

  /**
   * The price rule on the latest daily return: a jump at or above the
   * threshold, otherwise a drop at or below its negative, otherwise (and
   * for an undefined return) nothing.
   */
  function PriceRule(latest: Cell, stock: string, threshold: real): (alerts: seq<Alert>)
    ensures |alerts| <= 1
    ensures latest.Some? && latest.value >= threshold ==> alerts == [Jump(stock, latest.value)]
    ensures latest.Some? && threshold > latest.value && latest.value <= -threshold ==> alerts == [Drop(stock, latest.value)]
    ensures latest.None? || (-threshold < latest.value < threshold) ==> alerts == []
  {
    if latest.Some? && latest.value >= threshold then [Jump(stock, latest.value)]
    else if latest.Some? && latest.value <= -threshold then [Drop(stock, latest.value)]
    else []
  }

  /**
   * The crossover rule on the moving averages of the last two rows: bullish
   * when the short average moves from below the long one to above it,
   * bearish for the opposite move; a NaN or a tie on either row is no
   * crossover.
   */
  function CrossoverRule(prevShort: Cell, prevLong: Cell, short: Cell, long: Cell, stock: string): (alerts: seq<Alert>)
    ensures |alerts| <= 1
    ensures alerts == [Bullish(stock)] <==> Less(prevShort, prevLong) && Greater(short, long)
    ensures alerts == [Bearish(stock)] <==> Greater(prevShort, prevLong) && Less(short, long)
  {
    if Less(prevShort, prevLong) && Greater(short, long) then [Bullish(stock)]
    else if Greater(prevShort, prevLong) && Less(short, long) then [Bearish(stock)]
    else []
  }

  /** The volatility rule: an alert when the latest range is strictly above the threshold. */
  function VolatilityRule(latest: Cell, stock: string, threshold: real): (alerts: seq<Alert>)
    ensures |alerts| <= 1
    ensures alerts != [] <==> latest.Some? && latest.value > threshold
    ensures alerts != [] ==> alerts == [HighVolatility(stock, latest.value)]
  {
    if latest.Some? && latest.value > threshold then [HighVolatility(stock, latest.value)] else []
  }

  /** `(data['High'] - data['Low']) / data['Open']`: each day's range relative to its open. */
  function DailyRange(high: Column, low: Column, open: Column): (r: Column)
    requires |high| == |low| == |open|
    ensures |r| == |high|
    ensures forall i :: 0 <= i < |r| ==> r[i] == Over(Minus(high[i], low[i]), open[i])
  {
    DivColumns(SubColumns(high, low), open)
  }

  // ------------------------------------- The alerts on a frame's state

  /** The last cell of a column. */
  function Latest(c: Column): Cell
    requires |c| > 0
  {
    c[|c| - 1]
  }

  /** The columns `price_alerts` leaves: `Daily_Return` added from `Close` only when missing. */
  function PriceColumns(columns: map<Label, Column>): map<Label, Column>
  {
    if DailyReturn !in columns && Close in columns then columns[DailyReturn := PctChange(columns[Close])]
    else columns
  }

  /** What `price_alerts` reports on a non-empty frame with these columns. */
  function PriceAlertsOf(columns: map<Label, Column>, rows: nat, stock: string, threshold: real): seq<Alert>
    requires rows > 0 && forall l :: l in columns ==> |columns[l]| == rows
  {
    if DailyReturn !in columns && Close !in columns then [PriceError(stock)]
    else PriceRule(Latest(PriceColumns(columns)[DailyReturn]), stock, threshold)
  }

  /** What `moving_average_crossover_alert` reports on a frame with these columns. */
  function CrossoverAlertsOf(columns: map<Label, Column>, rows: nat, stock: string): seq<Alert>
    requires forall l :: l in columns ==> |columns[l]| == rows
  {
    if MA20 !in columns || MA50 !in columns then [NoMovingAverages]
    else if rows < 2 then [CrossoverError]
    else
      var short := columns[MA20];
      var long := columns[MA50];
      CrossoverRule(short[rows - 2], long[rows - 2], short[rows - 1], long[rows - 1], stock)
  }

  /** The columns `volatility_alert` leaves: `Volatility` (over)written when the prices are there. */
  function VolatilityColumns(columns: map<Label, Column>, rows: nat): map<Label, Column>
    requires forall l :: l in columns ==> |columns[l]| == rows
  {
    if High in columns && Low in columns && Open in columns then
      columns[Volatility := DailyRange(columns[High], columns[Low], columns[Open])]
    else columns
  }

  /** What `volatility_alert` reports on a non-empty frame with these columns. */
  function VolatilityAlertsOf(columns: map<Label, Column>, rows: nat, stock: string, threshold: real): seq<Alert>
    requires rows > 0 && forall l :: l in columns ==> |columns[l]| == rows
  {
    if High in columns && Low in columns && Open in columns then
      VolatilityRule(Latest(DailyRange(columns[High], columns[Low], columns[Open])), stock, threshold)
    else [VolatilityError]
  }

  // ----------------------------------------------- The alert functions

  /**
   * `price_alerts`: the no-data message for a missing or empty frame;
   * otherwise `Daily_Return` is added to the caller's frame when missing,
   * and the latest return is judged by the price rule. A frame with neither
   * column makes the lookup of `Close` fail, which is reported.
   */
  method PriceAlerts(data: Frame?, stock: string, threshold: real) returns (alerts: seq<Alert>)
    requires data != null ==> data.Valid()
    modifies data
    ensures data != null ==> data.Valid() && data.rows == old(data.rows)
    ensures data == null || old(data.Empty()) ==> alerts == [NoPriceData]
    ensures data != null && old(data.Empty()) ==> data.columns == old(data.columns)
    ensures data != null && !old(data.Empty()) ==>
      data.columns == PriceColumns(old(data.columns)) &&
      alerts == PriceAlertsOf(old(data.columns), old(data.rows), stock, threshold)
  {
    if data == null || data.Empty() {
      return [NoPriceData];
    }
    if DailyReturn !in data.columns {
      if Close !in data.columns {
        return [PriceError(stock)];
      }
      data.columns := data.columns[DailyReturn := PctChange(data.columns[Close])];
    }
    var latest := Latest(data.columns[DailyReturn]);
    alerts := PriceRule(latest, stock, threshold);
  }

  /**
   * `moving_average_crossover_alert`: the crossover rule on the last two
   * rows of `MA_20` and `MA_50`; the info message when either column is
   * missing; the error message for a missing frame or fewer than two rows,
   * where the lookups fail.
   */
  function MovingAverageCrossoverAlert(data: Frame?, stock: string): (alerts: seq<Alert>)
    requires data != null ==> data.Valid()
    reads data
    ensures data == null ==> alerts == [CrossoverError]
    ensures data != null && (MA20 !in data.columns || MA50 !in data.columns) ==> alerts == [NoMovingAverages]
    ensures data != null && MA20 in data.columns && MA50 in data.columns && data.rows < 2 ==> alerts == [CrossoverError]
    ensures data != null && MA20 in data.columns && MA50 in data.columns && data.rows >= 2 ==>
      var short := data.columns[MA20];
      var long := data.columns[MA50];
      alerts == CrossoverRule(short[data.rows - 2], long[data.rows - 2], short[data.rows - 1], long[data.rows - 1], stock)
    ensures data != null ==> alerts == CrossoverAlertsOf(data.columns, data.rows, stock)
  {
    if data == null then [CrossoverError]
    else CrossoverAlertsOf(data.columns, data.rows, stock)
  }

  /**
   * `volatility_alert`: the no-data message for a missing or empty frame;
   * otherwise `Volatility` is (over)written in the caller's frame with each
   * day's range relative to its open, and the latest value is judged by
   * the volatility rule. A missing price column is reported as an error.
   */
  method VolatilityAlert(data: Frame?, stock: string, threshold: real) returns (alerts: seq<Alert>)
    requires data != null ==> data.Valid()
    modifies data
    ensures data != null ==> data.Valid() && data.rows == old(data.rows)
    ensures data == null || old(data.Empty()) ==> alerts == [NoVolatilityData]
    ensures data != null && old(data.Empty()) ==> data.columns == old(data.columns)
    ensures data != null && !old(data.Empty()) ==>
      data.columns == VolatilityColumns(old(data.columns), old(data.rows)) &&
      alerts == VolatilityAlertsOf(old(data.columns), old(data.rows), stock, threshold)
  {
    if data == null || data.Empty() {
      return [NoVolatilityData];
    }
    if High !in data.columns || Low !in data.columns || Open !in data.columns {
      return [VolatilityError];
    }
    var range := DailyRange(data.columns[High], data.columns[Low], data.columns[Open]);
    data.columns := data.columns[Volatility := range];
    alerts := VolatilityRule(Latest(range), stock, threshold);
  }

  /**
   * `generate_all_alerts`: the price alerts, then the crossover alerts,
   * then the volatility alerts, each with its default threshold, run one
   * after the other on the same frame.
   */
  method GenerateAllAlerts(data: Frame?, stock: string) returns (alerts: seq<Alert>)
    requires data != null ==> data.Valid()
    modifies data
    ensures data != null ==> data.Valid() && data.rows == old(data.rows)
    ensures data == null ==> alerts == [NoPriceData, CrossoverError, NoVolatilityData]
    ensures data != null && old(data.Empty()) ==>
      data.columns == old(data.columns) &&
      alerts == [NoPriceData] + CrossoverAlertsOf(old(data.columns), old(data.rows), stock) + [NoVolatilityData]
    ensures data != null && !old(data.Empty()) ==>
      var priced := PriceColumns(old(data.columns));
      data.columns == VolatilityColumns(priced, old(data.rows)) &&
      alerts == PriceAlertsOf(old(data.columns), old(data.rows), stock, PriceThreshold)
                + CrossoverAlertsOf(priced, old(data.rows), stock)
                + VolatilityAlertsOf(priced, old(data.rows), stock, VolatilityThreshold)
  {
    alerts := [];
    var price := PriceAlerts(data, stock, PriceThreshold);
    alerts := alerts + price;
    var crossover := MovingAverageCrossoverAlert(data, stock);
    alerts := alerts + crossover;
    var volatility := VolatilityAlert(data, stock, VolatilityThreshold);
    alerts := alerts + volatility;
  }

  // ----------------------------------------------------------- Lemmas

  /** The price alerts of a non-empty frame are at most one jump or one drop. */
  lemma PriceAlertsAtMostOne(columns: map<Label, Column>, rows: nat, stock: string, threshold: real)
    requires rows > 0 && forall l :: l in columns ==> |columns[l]| == rows
    ensures |PriceAlertsOf(columns, rows, stock, threshold)| <= 1
    ensures forall a :: a in PriceAlertsOf(columns, rows, stock, threshold) ==>
      a.Jump? || a.Drop? || a == PriceError(stock)
  {
  }

  /** An existing `Daily_Return` column is read as it is and not recomputed. */
  lemma PriceKeepsExistingReturns(columns: map<Label, Column>, rows: nat, stock: string, threshold: real)
    requires rows > 0 && forall l :: l in columns ==> |columns[l]| == rows
    requires DailyReturn in columns
    ensures PriceColumns(columns) == columns
    ensures PriceAlertsOf(columns, rows, stock, threshold) == PriceRule(Latest(columns[DailyReturn]), stock, threshold)
  {
  }

  /**
   * A computed `Daily_Return` judges the last close against the one
   * before: with two defined closes and a non-zero earlier one, the alert
   * is a jump exactly when the close rose by at least the threshold.
   */
  lemma PriceFromCloses(columns: map<Label, Column>, rows: nat, stock: string, threshold: real)
    requires rows >= 2 && forall l :: l in columns ==> |columns[l]| == rows
    requires DailyReturn !in columns && Close in columns
    requires columns[Close][rows - 2].Some? && columns[Close][rows - 1].Some? && columns[Close][rows - 2].value > 0.0
    ensures var prev := columns[Close][rows - 2].value;
      var last := columns[Close][rows - 1].value;
      (exists x :: PriceAlertsOf(columns, rows, stock, threshold) == [Jump(stock, x)]) <==> last - prev >= threshold * prev
  {
    var prev := columns[Close][rows - 2].value;
    var last := columns[Close][rows - 1].value;
    var r := Change(Some(prev), Some(last));
    assert Latest(PriceColumns(columns)[DailyReturn]) == r;
    ScaledComparison(r.value, prev, threshold);
  }

  /**
   * With the latest high, low and a positive open present, the volatility
   * alert fires exactly when the day's range exceeds the threshold times
   * the open.
   */
  lemma VolatilityFromPrices(columns: map<Label, Column>, rows: nat, stock: string, threshold: real)
    requires rows > 0 && forall l :: l in columns ==> |columns[l]| == rows
    requires High in columns && Low in columns && Open in columns
    requires columns[High][rows - 1].Some? && columns[Low][rows - 1].Some?
    requires columns[Open][rows - 1].Some? && columns[Open][rows - 1].value > 0.0
    ensures var high := columns[High][rows - 1].value;
      var low := columns[Low][rows - 1].value;
      var open := columns[Open][rows - 1].value;
      VolatilityAlertsOf(columns, rows, stock, threshold) != [] <==> high - low > threshold * open
  {
    var high := columns[High][rows - 1].value;
    var low := columns[Low][rows - 1].value;
    var open := columns[Open][rows - 1].value;
    var r := Div(high - low, open);
    assert Latest(DailyRange(columns[High], columns[Low], columns[Open])) == r;
    ScaledComparison(r.value, open, threshold);
    assert r.value * open == high - low;
  }

  lemma ScaledComparison(q: real, p: real, t: real)
    requires p > 0.0
    ensures q >= t <==> q * p >= t * p
  {
    if q >= t {
      assert (q - t) * p >= 0.0;
    } else {
      assert (t - q) * p > 0.0;
    }
  }

  /** The two crossovers exclude each other, and ties or NaNs on either row give none. */
  lemma CrossoverExclusive(prevShort: Cell, prevLong: Cell, short: Cell, long: Cell, stock: string)
    ensures CrossoverRule(prevShort, prevLong, short, long, stock) != [Bullish(stock)] ||
            CrossoverRule(prevShort, prevLong, short, long, stock) != [Bearish(stock)]
    ensures prevShort.None? || prevLong.None? || short.None? || long.None? ==>
      CrossoverRule(prevShort, prevLong, short, long, stock) == []
    ensures prevShort == prevLong || short == long ==> CrossoverRule(prevShort, prevLong, short, long, stock) == []
  {
  }

  /** Writing `Daily_Return` does not touch the moving averages the crossover rule reads. */
  lemma CrossoverUnaffectedByPrice(columns: map<Label, Column>, rows: nat, stock: string)
    requires forall l :: l in columns ==> |columns[l]| == rows
    ensures forall l :: l in PriceColumns(columns) ==> |PriceColumns(columns)[l]| == rows
    ensures CrossoverAlertsOf(PriceColumns(columns), rows, stock) == CrossoverAlertsOf(columns, rows, stock)
  {
  }
}
