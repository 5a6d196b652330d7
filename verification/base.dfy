/**
 * Values shared by every module of the model: pandas cells (NaN and
 * infinities are `None`), the Python exceptions that escape the modelled
 * functions, OHLCV bars and the two shapes of data frame the source uses.
 */
module Base {

  datatype Option<+T> = None | Some(value: T)

  /** Python exceptions that the modelled code lets escape. */
  datatype Exception = KeyError | TypeError | AttributeError | ZeroDivisionError

  /** The result of a Python call: a value, or an exception that propagates. */
  datatype Outcome<+T> = Ok(value: T) | Raises(error: Exception)

  /** A window length or span: pandas refuses anything below one. */
  type Pos = n: nat | 0 < n witness 1

  /** One float cell of a pandas column; `None` is NaN (or an infinity). */
  type Cell = Option<real>

  type Column = seq<Cell>

  /** A column without missing values, as a pandas column. */
  function Lift(xs: seq<real>): (c: Column)
    ensures |c| == |xs|
    ensures forall i :: 0 <= i < |xs| ==> c[i] == Some(xs[i])
  {
    seq(|xs|, i requires 0 <= i < |xs| => Some(xs[i]))
  }

  /** Float division: dividing by zero yields NaN or an infinity, both `None`. */
  function Div(a: real, b: real): (r: Cell)
    ensures r.Some? <==> b != 0.0
    ensures r.Some? ==> r.value * b == a
  {
    if b == 0.0 then None else Some(a / b)
  }

  /** Element-wise column arithmetic: NaN on either side gives NaN. */
  function Plus(a: Cell, b: Cell): Cell {
    if a.Some? && b.Some? then Some(a.value + b.value) else None
  }

  function Minus(a: Cell, b: Cell): Cell {
    if a.Some? && b.Some? then Some(a.value - b.value) else None
  }

  function Times(a: Cell, k: real): Cell {
    if a.Some? then Some(a.value * k) else None
  }

  /** Element-wise division of two cells. */
  function Over(a: Cell, b: Cell): Cell {
    if a.Some? && b.Some? then Div(a.value, b.value) else None
  }

  /** Column arithmetic of pandas, row by row. */
  function AddColumns(a: Column, b: Column): (r: Column)
    requires |a| == |b|
    ensures |r| == |a|
  {
    seq(|a|, i requires 0 <= i < |a| => Plus(a[i], b[i]))
  }

  function SubColumns(a: Column, b: Column): (r: Column)
    requires |a| == |b|
    ensures |r| == |a|
  {
    seq(|a|, i requires 0 <= i < |a| => Minus(a[i], b[i]))
  }

  function ScaleColumn(a: Column, k: real): (r: Column)
    ensures |r| == |a|
  {
    seq(|a|, i requires 0 <= i < |a| => Times(a[i], k))
  }

  function DivColumns(a: Column, b: Column): (r: Column)
    requires |a| == |b|
    ensures |r| == |a|
  {
    seq(|a|, i requires 0 <= i < |a| => Over(a[i], b[i]))
  }

  /** The change from `prev` to `cur` as a fraction of `prev` (`cur / prev - 1`). */
  function Change(prev: Cell, cur: Cell): (r: Cell)
    ensures r.Some? <==> prev.Some? && cur.Some? && prev.value != 0.0
    ensures r.Some? ==> r.value * prev.value == cur.value - prev.value
  {
    if prev.Some? && cur.Some? && prev.value != 0.0 then
      var q := cur.value / prev.value;
      assert q * prev.value == cur.value;
      assert (q - 1.0) * prev.value == q * prev.value - prev.value;
      Some(q - 1.0)
    else None
  }

  /**
   * `Series.pct_change()` without gap filling: the change from the previous
   * row as a fraction of it; NaN on the first row, next to a NaN and after
   * a zero.
   */
  function PctChange(c: Column): (r: Column)
    ensures |r| == |c|
    ensures |c| > 0 ==> r[0].None?
    ensures forall i :: 0 < i < |c| ==> r[i] == Change(c[i - 1], c[i])
  {
    seq(|c|, i requires 0 <= i < |c| => if i == 0 then None else Change(c[i - 1], c[i]))
  }

  /** Element-wise float comparisons are false as soon as one side is NaN. */
  predicate Greater(a: Cell, b: Cell) {
    a.Some? && b.Some? && a.value > b.value
  }

  predicate Less(a: Cell, b: Cell) {
    a.Some? && b.Some? && a.value < b.value
  }

  function Abs(x: real): real {
    if x < 0.0 then -x else x
  }

  function Max(a: real, b: real): real {
    if a < b then b else a
  }

  /** The OHLCV columns of one instrument, after rows with gaps were dropped. */
  datatype Bars = Bars(open: seq<real>, high: seq<real>, low: seq<real>, close: seq<real>, volume: seq<real>)
  {
    predicate Aligned() {
      |open| == |close| && |high| == |close| && |low| == |close| && |volume| == |close|
    }

    function Rows(): nat {
      |close|
    }
  }

  /**
   * Column labels: the ones the modelled code reads or writes, by their
   * pandas names, and any other label a caller's frame may carry.
   */
  datatype Label =
    | Open | High | Low | Close | Volume                          // "Open" ... "Volume"
    | DailyReturn | CumulativeReturn                              // "Daily_Return", "Cumulative_Return"
    | MA20 | MA50 | MA200 | EMA12 | EMA26                         // "MA_20" ... "EMA_26"
    | MACD | MACDSignal | MACDHistogram                           // "MACD", "MACD_Signal", "MACD_Histogram"
    | BBMiddle | BBUpper | BBLower | BBWidth | BBPercent          // "BB_Middle" ... "BB_Percent"
    | RSI | Volatility20 | Volatility50 | ATR                     // "RSI", "Volatility_20", "Volatility_50", "ATR"
    | StochasticK | StochasticD | Volatility                      // "Stochastic_K", "Stochastic_D", "Volatility"
    | RollingReturn(days: nat)                                    // f"Rolling_Return_{days}d"
    | RollingVolatility(days: nat)                                // f"Rolling_Volatility_{days}d"
    | RollingSharpe(days: nat)                                    // f"Rolling_Sharpe_{days}d"
    | Other(name: string)

  /**
   * A price frame: the OHLCV columns plus any further labelled float
   * columns (such as `Daily_Return`), all of the same length.
   */
  datatype PriceFrame = PriceFrame(bars: Bars, extra: map<Label, Column>)
  {
    predicate Valid() {
      bars.Aligned() && forall name :: name in extra ==> |extra[name]| == bars.Rows()
    }

    /** `DataFrame.empty` for a frame that has its OHLCV columns. */
    predicate Empty() {
      bars.Rows() == 0
    }
  }

  /** Merging labelled columns (`m + n` lets `n` win) keeps every column at the same length. */
  lemma MergeColumns(a: map<Label, Column>, b: map<Label, Column>, n: nat)
    requires forall k :: k in a ==> |a[k]| == n
    requires forall k :: k in b ==> |b[k]| == n
    ensures (a + b).Keys == a.Keys + b.Keys
    ensures forall k :: k in a + b ==> |(a + b)[k]| == n
    ensures forall k :: k in b ==> (a + b)[k] == b[k]
    ensures forall k :: k in a && k !in b ==> (a + b)[k] == a[k]
  {
  }

  /** A frame read only through column names (`'X' in df.columns`, `df['X']`). */
  datatype Table = Table(columns: map<Label, Column>, rows: nat)
  {
    predicate Valid() {
      forall name :: name in columns ==> |columns[name]| == rows
    }

    /** `DataFrame.empty`: no rows or no columns. */
    predicate Empty() {
      rows == 0 || columns == map[]
    }
  }

  /** A Python dict with string keys, in insertion order. */
  type Dict<V> = seq<(string, V)>

  function Keys<V>(d: Dict<V>): (ks: seq<string>)
    ensures |ks| == |d|
    ensures forall i :: 0 <= i < |d| ==> ks[i] == d[i].0
  {
    seq(|d|, i requires 0 <= i < |d| => d[i].0)
  }

  predicate UniqueKeys<V>(d: Dict<V>) {
    forall i, j :: 0 <= i < j < |d| ==> d[i].0 != d[j].0
  }

  /** `d.get(key, default)`. */
  function Get<V>(d: Dict<V>, key: string, default: V): V {
    if d == [] then default
    else if d[|d| - 1].0 == key then d[|d| - 1].1
    else Get(d[..|d| - 1], key, default)
  }

  predicate HasKey<V>(d: Dict<V>, key: string) {
    exists i :: 0 <= i < |d| && d[i].0 == key
  }
}
