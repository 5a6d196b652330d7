/**
 * The current data loader (`app/utils/data_loader1.py`) without its
 * download: the return columns derived from the closes, the preparation of
 * a downloaded frame, and the validation of a frame.
 */
module Loader {
  import opened Base
  import Indicators

  // ------------------------------------------------------- Return columns

  /**
   * `data['Close'].pct_change()` over the gap-free closes: each close's
   * change from the previous one as a fraction of it, missing on the first
   * row and after a zero close.
   */
  function DailyReturns(close: seq<real>): (r: Column)
    ensures |r| == |close|
  {
    seq(|close|, i requires 0 <= i < |close| =>
      if i == 0 then None else Change(Some(close[i - 1]), Some(close[i])))
  }

  /** The same column as the general `pct_change` of the closes. */
  lemma DailyReturnsArePctChange(close: seq<real>)
    ensures DailyReturns(close) == PctChange(Lift(close))
  {
    var l := Lift(close);
    forall i | 0 < i < |close|
      ensures DailyReturns(close)[i] == PctChange(l)[i]
    {
      assert l[i - 1] == Some(close[i - 1]) && l[i] == Some(close[i]);
    }
  }

  lemma GrowthStep(p: real, c: real, v: real)
    requires Change(Some(p), Some(c)) == Some(v)
    ensures (v + 1.0) * p == c
  {
  }

  /**
   * The daily return is missing on the first row and after a zero close;
   * elsewhere it is the fraction by which the close grew:
   * `(1 + r[i]) * close[i - 1] == close[i]`.
   */
  lemma DailyReturnsFromCloses(close: seq<real>, i: nat)
    requires i < |close|
    ensures i == 0 ==> DailyReturns(close)[i].None?
    ensures 0 < i ==> (DailyReturns(close)[i].Some? <==> close[i - 1] != 0.0)
    ensures 0 < i && close[i - 1] != 0.0 ==>
      (DailyReturns(close)[i].value + 1.0) * close[i - 1] == close[i]
  {
    if 0 < i && close[i - 1] != 0.0 {
      GrowthStep(close[i - 1], close[i], DailyReturns(close)[i].value);
    }
  }

  /** The returns between consecutive closes, when no close but the last is zero. */
  function CloseReturns(close: seq<real>): (r: seq<real>)
    requires forall k :: 0 <= k < |close| - 1 ==> close[k] != 0.0
    ensures |close| > 0 ==> |r| == |close| - 1
    ensures forall i {:trigger r[i]} :: 0 <= i < |r| ==> i + 1 < |close| && (r[i] + 1.0) * close[i] == close[i + 1]
  {
    if |close| == 0 then []
    else
      seq(|close| - 1, i requires 0 <= i < |close| - 1 =>
        var v := Change(Some(close[i]), Some(close[i + 1])).value;
        GrowthStep(close[i], close[i + 1], v);
        v)
  }

  /**
   * With no zero close before the last, the daily returns are NaN on the
   * first row only, and the consecutive returns after it.
   */
  lemma DailyReturnsShape(close: seq<real>)
    requires |close| > 0
    requires forall k :: 0 <= k < |close| - 1 ==> close[k] != 0.0
    ensures DailyReturns(close) == [None] + Lift(CloseReturns(close))
  {
    var r := CloseReturns(close);
    forall i | 0 < i < |close|
      ensures DailyReturns(close)[i] == Some(r[i - 1])
    {
      assert r[i - 1] == Change(Some(close[i - 1]), Some(close[i])).value;
    }
  }

  /** The factor row `i` contributes to `(1 + r).cumprod()`: a missing return is skipped. */
  function GrowthFactor(c: Cell): real {
    if c.Some? then 1.0 + c.value else 1.0
  }

  /** The running product of the growth factors up to and including row `i`. */
  function GrowthTo(dailyReturns: Column, i: nat): real
    requires i < |dailyReturns|
  {
    if i == 0 then GrowthFactor(dailyReturns[0])
    else GrowthTo(dailyReturns, i - 1) * GrowthFactor(dailyReturns[i])
  }

  /**
   * `(1 + r).cumprod() - 1`: the compounded return up to each row; a row
   * whose return is missing stays missing and does not break the product.
   */
  function CumulativeReturns(dailyReturns: Column): (r: Column)
    ensures |r| == |dailyReturns|
    ensures forall i :: 0 <= i < |r| ==> (r[i].Some? <==> dailyReturns[i].Some?)
  {
    seq(|dailyReturns|, i requires 0 <= i < |dailyReturns| =>
      if dailyReturns[i].Some? then Some(GrowthTo(dailyReturns, i) - 1.0) else None)
  }

  lemma Regroup(g: real, f: real, c: real)
    ensures g * f * c == (g * c) * f
  {
  }

  /** The product of the growth factors telescopes to the ratio of the closes. */
  lemma {:induction false} GrowthTelescopes(close: seq<real>, i: nat)
    requires forall k :: 0 <= k < |close| ==> close[k] != 0.0
    requires i < |close|
    ensures GrowthTo(DailyReturns(close), i) * close[0] == close[i]
  {
    var d := DailyReturns(close);
    if i > 0 {
      GrowthTelescopes(close, i - 1);
      DailyReturnsFromCloses(close, i);
      Regroup(GrowthTo(d, i - 1), GrowthFactor(d[i]), close[0]);
      assert GrowthFactor(d[i]) == d[i].value + 1.0;
    }
  }

  /**
   * Over closes that are never zero the cumulative return is missing on the
   * first row and is `close[i] / close[0] - 1` after it.
   */
  lemma CumulativeFromCloses(close: seq<real>, i: nat)
    requires forall k :: 0 <= k < |close| ==> close[k] != 0.0
    requires i < |close|
    ensures var c := CumulativeReturns(DailyReturns(close));
      (i == 0 ==> c[i].None?) &&
      (0 < i ==> c[i].Some? && (c[i].value + 1.0) * close[0] == close[i])
  {
    DailyReturnsFromCloses(close, i);
    GrowthTelescopes(close, i);
  }

  const ReturnColumns: set<Label> := {DailyReturn, CumulativeReturn}

  /** Lines 42-43 of `get_data`: the frame with `Daily_Return` and `Cumulative_Return` assigned. */
  function AddReturns(data: PriceFrame): (r: PriceFrame)
    requires data.Valid()
    ensures Indicators.Extends(r, data, ReturnColumns)
    ensures r.extra[DailyReturn] == DailyReturns(data.bars.close)
    ensures r.extra[CumulativeReturn] == CumulativeReturns(DailyReturns(data.bars.close))
  {
    var daily := DailyReturns(data.bars.close);
    data.(extra := data.extra[DailyReturn := daily][CumulativeReturn := CumulativeReturns(daily)])
  }

  /**
   * `get_data` after the download: nothing for an empty download, otherwise
   * the bars with the return columns and, when asked for, the indicators.
   * The return columns are what the indicator engine needs, so its
   * KeyError (which the `except` would turn into `None`) never happens.
   */
  function GetData(sqrt: real -> real, downloaded: PriceFrame, includeIndicators: bool): (r: Option<PriceFrame>)
    requires downloaded.Valid()
    ensures r.None? <==> downloaded.Empty()
    ensures r.Some? ==> r.value.Valid() && r.value.bars == downloaded.bars
    ensures r.Some? ==>
      ReturnColumns <= r.value.extra.Keys &&
      r.value.extra[DailyReturn] == DailyReturns(downloaded.bars.close) &&
      r.value.extra[CumulativeReturn] == CumulativeReturns(DailyReturns(downloaded.bars.close))
    ensures r.Some? && includeIndicators ==> Indicators.Extends(r.value, AddReturns(downloaded), Indicators.IndicatorColumns)
    ensures r.Some? && !includeIndicators ==> r.value == AddReturns(downloaded)
  {
    if downloaded.Empty() then None
    else
      var data := AddReturns(downloaded);
      if includeIndicators && data.bars.Rows() > 0 then
        IndicatorsKeepReturns(sqrt, data);
        match Indicators.AddTechnicalIndicators(sqrt, data)
        case Raises(_) => None
        case Ok(f) => Some(f)
      else Some(data)
  }

  /** The indicator engine accepts a frame with the return columns and leaves them as they are. */
  lemma IndicatorsKeepReturns(sqrt: real -> real, data: PriceFrame)
    requires data.Valid() && ReturnColumns <= data.extra.Keys
    ensures Indicators.AddTechnicalIndicators(sqrt, data).Ok?
    ensures var f := Indicators.AddTechnicalIndicators(sqrt, data).value;
      f.Valid() && f.bars == data.bars && ReturnColumns <= f.extra.Keys &&
      f.extra[DailyReturn] == data.extra[DailyReturn] &&
      f.extra[CumulativeReturn] == data.extra[CumulativeReturn]
  {
    assert DailyReturn in data.extra;
    assert DailyReturn !in Indicators.IndicatorColumns && CumulativeReturn !in Indicators.IndicatorColumns;
  }

  // ----------------------------------------------------------- Validation

  /** The columns `validate_data` requires. */
  const RequiredColumns: set<Label> := {Open, High, Low, Close, Volume}

  /**
   * `validate_data`: false for a missing or empty frame, for a frame that
   * lacks one of the OHLCV columns and for fewer than two rows.
   */
  function ValidateData(data: Option<Table>): (valid: bool)
  {
    if data.None? || data.value.Empty() then false
    else if !(RequiredColumns <= data.value.columns.Keys) then false
    else if data.value.rows < 2 then false
    else true
  }

  /**
   * A frame is valid exactly when it exists, has every required column
   * (whatever else it has) and at least two rows.
   */
  lemma ValidateDataMeaning(data: Option<Table>)
    ensures ValidateData(data) <==>
      data.Some? && data.value.rows >= 2 &&
      forall c :: c in RequiredColumns ==> c in data.value.columns
  {
    if data.Some? && RequiredColumns <= data.value.columns.Keys {
      assert Open in data.value.columns;
    }
  }

  /** A price frame read through its column names: the OHLCV bars and its other columns. */
  function AsTable(f: PriceFrame): (t: Table)
    requires f.Valid()
    ensures t.Valid() && t.rows == f.bars.Rows()
    ensures t.columns.Keys == f.extra.Keys + RequiredColumns
  {
    var b := f.bars;
    Table(f.extra + map[Open := Lift(b.open), High := Lift(b.high), Low := Lift(b.low),
                        Close := Lift(b.close), Volume := Lift(b.volume)],
          b.Rows())
  }

  /** A frame prepared by `get_data` from at least two bars passes validation. */
  lemma PreparedFrameValid(sqrt: real -> real, downloaded: PriceFrame, includeIndicators: bool)
    requires downloaded.Valid() && downloaded.bars.Rows() >= 2
    ensures GetData(sqrt, downloaded, includeIndicators).Some?
    ensures ValidateData(Some(AsTable(GetData(sqrt, downloaded, includeIndicators).value)))
  {
    var t := AsTable(GetData(sqrt, downloaded, includeIndicators).value);
    assert Open in t.columns;
  }

  /** The cases the loader's tests check: no frame, an empty frame, foreign columns, a single row. */
  lemma ValidateDataExamples()
    ensures !ValidateData(None)
    ensures !ValidateData(Some(Table(map[], 0)))
    ensures !ValidateData(Some(Table(map[Other("A") := [Some(1.0), Some(2.0)], Other("B") := [Some(3.0), Some(4.0)]], 2)))
    ensures !ValidateData(Some(Table(map[Open := [Some(100.0)], High := [Some(105.0)], Low := [Some(95.0)],
                                         Close := [Some(102.0)], Volume := [Some(1000000.0)]], 1)))
  {
    var foreign := map[Other("A") := [Some(1.0), Some(2.0)], Other("B") := [Some(3.0), Some(4.0)]];
    assert Open !in foreign;
  }
}
