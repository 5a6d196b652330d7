# Stock-Market-Analysis: indicators, risk metrics, alerts and loaders in Dafny

This project models the deterministic core of the Stock-Market-Analysis
dashboard and proves properties of that model:

- the technical-indicator engine (`app/utils/indicators.py`): moving
  averages, the `adjust=False` exponential average, MACD, Bollinger bands,
  RSI, ATR, the stochastic oscillator and the buy/sell signal flags;
- the risk and performance metrics (`app/components/metrics.py`): summary
  statistics, maximum drawdown, Sharpe, Sortino and Calmar ratios,
  value at risk and conditional value at risk, weight defaulting and
  normalisation, alignment of the daily returns, weighted portfolio
  returns, beta, rolling metrics and the sorted stock comparison;
- the alert rules (`app/components/alerts.py`), over a frame object whose
  column map the price and volatility alerts update in place;
- the current loader (`app/utils/data_loader1.py`): the derived
  `Daily_Return` and `Cumulative_Return` columns, the preparation of a
  downloaded frame, and `validate_data`;
- the older loader (`app/utils/data_loader.py`) as written. It has its own
  indicator step, whose RSI call fails, and its own portfolio metrics and
  summary statistics, which diverge from those of `metrics.py`.

Conventions of the model:

- A pandas float cell is `Option<real>`. NaN and the infinities are
  `None`, and arithmetic is exact over `real`.
- Rolling windows need a full window of numbers (`min_periods` is the
  window). Standard deviations are sample deviations (ddof 1).
- `np.sqrt` is a parameter `sqrt: real -> real`. Lemmas that need it
  assume `Stats.IsSqrt(sqrt)`: it is non-negative, zero only at zero, and
  squares back.
- A Python exception that escapes a function is `Outcome.Raises` with its
  class (`KeyError`, `TypeError`, `AttributeError`, `ZeroDivisionError`).
  An exception that the source catches becomes the value the `except`
  produces.
- A Python dict is a sequence of `(key, value)` pairs in insertion order.
  Column labels are the enumeration `Base.Label`.

Modules:

- `Base`: cells, outcomes, bars and frames.
- `Stats`: sums, means, variance, extrema, sorting and percentiles.
- `Rolling`: trailing windows.
- `Config`: the constants of `app/utils/config.py`.
- One module for each modelled source file: `Indicators`, `Metrics`,
  `Alerts`, `Loader` (data_loader1.py) and `LegacyLoader` (data_loader.py).

## Model

| member | source | states |
|---|---|---|
| Indicators.SmaWindow | app/utils/indicators.py:178-189 | the simple moving average at row i is NaN before a full window and otherwise the mean of the last `window` prices |
| Indicators.SmaOfConstant | app/utils/indicators.py:189 | a constant price gives that constant wherever the window is full |
| Indicators.Alpha | app/utils/indicators.py:175 | the smoothing factor 2/(span+1) lies in (0, 1] |
| Indicators.EmaPrefix | app/utils/indicators.py:164-175 | the exponential average at row i depends only on the prices up to row i |
| Indicators.EmaWithin | app/utils/indicators.py:164-175 | prices within [lo, hi] give an exponential average within [lo, hi] |
| Indicators.EmaBetweenExtremes | app/utils/indicators.py:164-175 | the exponential average at row i lies between the lowest and highest price seen so far |
| Indicators.EmaOfConstant | app/utils/indicators.py:30-31 | a constant price series has that constant as its exponential average |
| Indicators.MacdOf | app/utils/indicators.py:34-36 | the MACD line, signal and histogram are as long as the closes |
| Indicators.MacdDecomposes | app/utils/indicators.py:34-36 | MACD is EMA_12 minus EMA_26, and signal plus histogram is MACD at every row |
| Indicators.MacdOfConstant | app/utils/indicators.py:34-36 | constant closes give a zero MACD line, signal and histogram |
| Indicators.BandAtShape | app/utils/indicators.py:80-85 | upper minus middle equals middle minus lower equals multiplier times std; lower ≤ middle ≤ upper and width = 2·multiplier·std ≥ 0; %B is NaN exactly at zero width |
| Indicators.BandAtMissing | app/utils/indicators.py:80-85 | a NaN mean or std makes every band column NaN |
| Indicators.BollingerDefined | app/utils/indicators.py:80-81 | the bands of row i are defined exactly from the first full window on, for a period of at least two |
| Indicators.BollingerShape | app/utils/indicators.py:82-84 | wherever defined, the bands are symmetric about the middle and the width is non-negative |
| Indicators.BollingerPercent | app/utils/indicators.py:85 | %B is NaN at zero width and otherwise places the close relative to the lower band, in widths |
| Indicators.Gains | app/utils/indicators.py:104-105 | the gains of `delta.where(delta > 0, 0)` are non-negative, with zero for the missing first difference |
| Indicators.Losses | app/utils/indicators.py:106 | the losses are non-negative, with zero for the missing first difference |
| Indicators.GainsLosses | app/utils/indicators.py:103-106 | the gain and the loss of a row are the positive and negative parts of its price change: one of them is zero, and gain minus loss is the change (zero where it is NaN) |
| Indicators.RsiValueRange | app/utils/indicators.py:108-109 | RSI is NaN exactly when both averages are zero; otherwise it is in [0, 100]; 100 with no loss and 0 with no gain |
| Indicators.RsiWarmUp | app/utils/indicators.py:104-109 | RSI is NaN before row period−1 |
| Indicators.RsiAt | app/utils/indicators.py:104-109 | RSI at row i is the value of the window means of gains and losses, and lies in [0, 100] where defined |
| Indicators.TrueRangeBounds | app/utils/indicators.py:128-133 | the true range is at least High−Low and at least both distances to the previous close; on the first row it is High−Low |
| Indicators.AtrAt | app/utils/indicators.py:134 | ATR is defined exactly from row period−1 on, is the mean of the window's true ranges, and is non-negative when every Low ≤ High |
| Indicators.KAtRange | app/utils/indicators.py:156 | %K is NaN for a flat range; otherwise %K·(high−low) = 100·(close−low), within [0, 100] for a close inside the range |
| Indicators.StochasticKWindow | app/utils/indicators.py:154-156 | %K at row i uses the lowest low and the highest high of the last k rows, and is NaN before a full window |
| Indicators.StochasticKAt | app/utils/indicators.py:154-156 | %K is first defined at row k−1; a defined %K at row i lies in [0, 100] when that row's own close lies within its low and high |
| Indicators.StochasticDWarmUp | app/utils/indicators.py:159 | %D is NaN before row k+d−2 |
| Indicators.AnnualisedVolatilityAt | app/utils/indicators.py:45-51 | the volatility column is defined exactly on a full, gap-free window of at least two returns, is non-negative, is zero exactly when the window's sample variance is, and equals the window's sample std times sqrt(252) |
| Indicators.ExtendsTwice | app/utils/indicators.py:22 | two column-adding steps on copies add the union of their columns and leave every other column and the bars unchanged |
| Indicators.AddBollingerBands | app/utils/indicators.py:62-87 | the copy gains the five band columns, equal to the bands of the closes, and nothing else changes |
| Indicators.AddStochasticOscillator | app/utils/indicators.py:139-161 | the copy gains %K and %D of the bars, and nothing else changes |
| Indicators.AddAverages | app/utils/indicators.py:25-36 | the copy gains MA_20/50/200, EMA_12/26 and the MACD columns with the configured windows |
| Indicators.AddOscillators | app/utils/indicators.py:42-54 | the copy gains RSI(14), the 20- and 50-row annualised volatilities of the daily returns and ATR(14) |
| Indicators.AddTechnicalIndicators | app/utils/indicators.py:12-59 | KeyError exactly when `Daily_Return` is missing; otherwise every indicator column is added to a copy and the input's columns and bars are unchanged |
| Indicators.FlagsMeaning | app/utils/indicators.py:205-207 | a flag is −1 exactly where the later mask holds, 1 where only the earlier one holds, 0 elsewhere |
| Indicators.CompareFlagsMeaning | app/utils/indicators.py:205-207 | a comparison flag is 1 exactly when a > b, −1 exactly when a < b, and 0 on equality or NaN |
| Indicators.RsiFlagsMeaning | app/utils/indicators.py:210-212 | the RSI flag is 1 exactly below 30, −1 exactly above 70, and 0 otherwise or on NaN |
| Indicators.IdentifySignals | app/utils/indicators.py:192-224 | KeyError exactly when an input column is missing; otherwise the frame is unchanged and every flag is in {−1, 0, 1} |
| Indicators.SignalsMeaning | app/utils/indicators.py:215-222 | the MACD flag compares MACD with its signal, the band flag is 1 below the lower band and −1 above the upper band |
| Rolling.AllDefined | app/utils/indicators.py:189 | a window has a value exactly when all of its cells are numbers, and then those numbers |
| Rolling.WindowLength | app/utils/indicators.py:189 | a defined window has `window` numbers, the cells of the last `window` rows |
| Rolling.WindowDefined | app/utils/indicators.py:189 | a defined window ends at least `window` rows in, with every cell a number |
| Stats.SortAsc | app/components/metrics.py:186 | the sorted sample is ascending and a permutation of the returns |
| Stats.Percentile | app/components/metrics.py:186 | the linearly interpolated percentile lies between the smallest and largest value |
| Stats.StdZeroIffVarianceZero | app/components/metrics.py:125 | the sample std is non-negative and zero exactly when the sample variance is zero |
| Stats.Filter | app/components/metrics.py:146 | boolean indexing keeps only elements satisfying the mask, taken from the input, and is empty exactly when none does |
| Stats.FilterMultiset | app/components/metrics.py:146 | boolean indexing keeps every element satisfying the mask, as often as it occurs, and nothing else |
| Stats.FilterAppend | app/components/metrics.py:146 | boolean indexing of a concatenation is the concatenation of each part's, so the order is kept |
| Stats.MinSkipNa | app/components/metrics.py:111 | `Series.min()` skips NaN: it is NaN only when every cell is, and is otherwise a present value no greater than any other |
| Metrics.PeakBounds | app/components/metrics.py:108-109 | the running maximum is at least every growth up to that row |
| Metrics.FirstDrawdown | app/components/metrics.py:110 | the first drawdown is zero unless the first return is −1, after which every drawdown is NaN |
| Metrics.MaxDrawdownNonPositive | app/components/metrics.py:108-111 | the maximum drawdown of a non-empty series is defined exactly when the first return is not −1, and is then ≤ 0 |
| Metrics.MaxDrawdownAboveMinusOne | app/components/metrics.py:108-111 | when every return is above −1 the maximum drawdown is in (−1, 0] |
| Metrics.MaxDrawdownWithoutLosses | app/components/metrics.py:108-111 | without a negative return the maximum drawdown is exactly 0 |
| Metrics.Sharpe | app/components/metrics.py:114-131 | the Sharpe ratio needs at least two returns |
| Metrics.SharpeSign | app/components/metrics.py:125-131 | with two or more returns it is defined, zero when the std is zero, and otherwise has the sign of mean·252 − rate |
| Metrics.Losses | app/components/metrics.py:146 | the downside returns are exactly the negative returns, each as often as it occurs |
| Metrics.SortinoSign | app/components/metrics.py:145-153 | Sortino is zero without losses or with identical losses, NaN for a single loss, and otherwise has the sign of the excess return |
| Metrics.CalmarSign | app/components/metrics.py:166-172 | with a negative drawdown d, Calmar is the annualised mean over −d and has the mean's sign |
| Metrics.CalmarWithoutLosses | app/components/metrics.py:169-170 | without a negative return the Calmar ratio is 0 |
| Metrics.ValueAtRisk | app/components/metrics.py:175-186 | VaR lies between the worst and the best return |
| Metrics.Tail | app/components/metrics.py:201 | the tail holds exactly the returns at or below the threshold, each as often as it occurs |
| Metrics.TailHoldsMinimum | app/components/metrics.py:200-201 | the tail at or below VaR is never empty |
| Metrics.TailBounds | app/components/metrics.py:200-201 | the mean of the tail lies between the worst return and the threshold |
| Metrics.ConditionalValueAtRisk | app/components/metrics.py:189-201 | CVaR lies between the worst return and VaR |
| Metrics.EqualWeights | app/components/metrics.py:57-58 | the default weights name the stocks in order and sum to one |
| Metrics.Normalise | app/components/metrics.py:61-64 | ZeroDivisionError exactly for non-empty weights summing to zero; otherwise the names are kept, and weights not close to one are divided by their sum |
| Metrics.NormaliseSumsToOne | app/components/metrics.py:61-64 | weights close to one are kept; others sum to one after normalising |
| Metrics.NormaliseEqualPair | app/components/metrics.py:61-64 | {A: 2, B: 2} becomes {A: 0.5, B: 0.5} |
| Metrics.CompleteRows | app/components/metrics.py:67-70 | the kept rows are increasing and are exactly the rows where every stock has a return |
| Metrics.DropIncomplete | app/components/metrics.py:67-70 | the aligned table has the stocks in order, each with one number per complete row |
| Metrics.DropIncompleteRows | app/components/metrics.py:67-70 | each kept number is that stock's return on that complete row |
| Metrics.PortfolioReturns | app/components/metrics.py:77-78 | the portfolio has one return per aligned row |
| Metrics.UnweightedStock | app/components/metrics.py:77-78 | a stock absent from the weights does not change the portfolio returns |
| Metrics.SingleStock | app/components/metrics.py:77-78 | one stock of weight one is the portfolio |
| Metrics.DailyReturns | app/components/metrics.py:67-69 | KeyError exactly when some frame lacks `Daily_Return`; otherwise each stock's column, in order |
| Metrics.WithoutMarket | app/components/metrics.py:220-221 | the summed columns are the non-market columns, every one of them; there are none exactly when every column is the market |
| Metrics.WithoutMarketAppend | app/components/metrics.py:220-221 | dropping the market from a concatenation drops it from each part, so the non-market columns keep their order |
| Metrics.MarketReturns | app/components/metrics.py:223 | the market's returns are the market column |
| Metrics.Beta | app/components/metrics.py:204-231 | a beta exactly when there is a market column, another column, two rows or more and a market that moves; otherwise NaN, except that it is AttributeError exactly when the market is the only column name; a defined beta times the market's non-zero variance is the covariance of the weighted non-market returns with the market |
| Metrics.MarketBeta | app/components/metrics.py:216-231 | a portfolio holding exactly the market (with variance) has beta 1 |
| Metrics.MarketAloneFails | app/components/metrics.py:220-225 | with only the market column the beta raises AttributeError |
| Metrics.MetricsOf | app/components/metrics.py:81-93 | CVaR ≤ VaR and the maximum drawdown is ≤ 0 |
| Metrics.CalculatePortfolioMetrics | app/components/metrics.py:41-95 | None exactly for no stocks or no complete row; ZeroDivisionError exactly for non-empty supplied weights summing to zero; KeyError exactly for a frame without returns; AttributeError exactly when the beta raises it; never TypeError; a result is the metrics of the normalised-weight returns over the complete rows, with that beta, and has CVaR ≤ VaR and a maximum drawdown ≤ 0 |
| Metrics.OneColumnRows | app/components/metrics.py:67-70 | for one column, the complete rows are the rows where it has a number, in order |
| Metrics.AlignSingle | app/components/metrics.py:67-70 | aligning one column keeps exactly its numbers, in order |
| Metrics.SingleStockPortfolio | app/components/metrics.py:52-93 | one stock (not the market) with default weights has the metrics of its own present returns and no beta, or None when it has none |
| Metrics.PresentOfLift | app/components/metrics.py:22 | `dropna()` of a gap-free column is that column |
| Metrics.PresentMultiset | app/components/metrics.py:22 | `dropna()` keeps every number of the column, as often as it occurs, and nothing else |
| Metrics.PresentAppend | app/components/metrics.py:22 | `dropna()` of a concatenation is the concatenation of each part's, so the order is kept |
| Metrics.PresentAfterFirstRow | app/components/metrics.py:22 | a column that is NaN on its first row only presents the rest |
| Metrics.PercentChange | app/components/metrics.py:28 | the change in percent is defined exactly for a non-zero base and scales back to 100·(b − a) |
| Metrics.GetSummaryStatistics | app/components/metrics.py:9-38 | None for a missing or empty frame; KeyError exactly without `Daily_Return`; otherwise the latest close, a previous close and change exactly when there are two rows or more, the change in percent from the previous close, the total return from the first, the highest high, the lowest low, the mean volume, and the volatility (std times sqrt(252)), Sharpe ratio and maximum drawdown of the present daily returns |
| Metrics.SummaryRange | app/components/metrics.py:29-30 | with closes inside each bar's range, the latest close lies between the reported Low and High |
| Metrics.SummaryOfOneRow | app/components/metrics.py:26-28 | one row gives no previous close, change or change in percent, and a zero total return |
| Metrics.SummaryRisk | app/components/metrics.py:33-35 | on a frame built by `get_data` from closes with no zero before the last, the volatility, Sharpe ratio (2% rate) and maximum drawdown are those of the returns between consecutive closes |
| Metrics.RollingSharpeRatio | app/components/metrics.py:250-253 | the rolling Sharpe column is as long as the returns |
| Metrics.RollingMetrics | app/components/metrics.py:234-255 | KeyError exactly without `Daily_Return`; otherwise a copy with the three rolling columns added |
| Metrics.RollingReturnAt | app/components/metrics.py:248 | the rolling return is defined exactly on a full window and is its length times its mean |
| Metrics.RollingSharpeAt | app/components/metrics.py:250-253 | the rolling Sharpe is defined on a full window of at least two unequal returns, with the sign of the rolling return |
| Metrics.InsertDescending | app/components/metrics.py:286 | inserting keeps the rows sorted highest first with NaN last, and adds exactly the new row |
| Metrics.SortDescending | app/components/metrics.py:286 | the sorted table is ordered highest first, NaN last, and is a permutation of the rows |
| Metrics.Rows | app/components/metrics.py:269-281 | the collected rows are at most one per stock; the collection fails exactly when some stock's summary raises, and then with KeyError |
| Metrics.RowsAppend | app/components/metrics.py:269-281 | collecting over a concatenation collects over each part, in order |
| Metrics.RowsComplete | app/components/metrics.py:271-281 | every stock with a summary has its row, after the rows of the stocks before it and before those of the stocks after it |
| Metrics.RowsFromSummaries | app/components/metrics.py:271-281 | every collected row is the summary of a stock of the dict, under its name |
| Metrics.RowsRaise | app/components/metrics.py:272 | a stock whose summary raises KeyError makes the comparison raise it |
| Metrics.CompareStocks | app/components/metrics.py:258-288 | the loop raises exactly when collecting raises; the result is a permutation of the collected rows, sorted when the metric is a column, in dict order otherwise |
| Alerts.Frame.constructor | app/components/alerts.py:6 | a frame holds the given columns of a common length |
| Alerts.PriceRule | app/components/alerts.py:31-34 | at most one alert: a jump at or above the threshold, a drop at or below its negative, nothing otherwise or for NaN |
| Alerts.CrossoverRule | app/components/alerts.py:62-65 | bullish exactly when short crosses above long, bearish exactly when it crosses below; at most one |
| Alerts.VolatilityRule | app/components/alerts.py:85-86 | an alert exactly when the latest range is strictly above the threshold |
| Alerts.DailyRange | app/components/alerts.py:82 | each row's range is (High − Low) / Open |
| Alerts.PriceAlerts | app/components/alerts.py:6-38 | the no-data message for a missing or empty frame; otherwise `Daily_Return` is added to the caller's frame only when missing, and the alerts are the price rule's |
| Alerts.MovingAverageCrossoverAlert | app/components/alerts.py:40-71 | the error message for a missing frame; otherwise the crossover rule on the last two rows, the info message without the averages, the error message for fewer than two rows |
| Alerts.VolatilityAlert | app/components/alerts.py:73-92 | the no-data message for a missing or empty frame; otherwise the caller's `Volatility` column is overwritten with the ranges and the latest is judged |
| Alerts.GenerateAllAlerts | app/components/alerts.py:95-103 | the price, crossover and volatility alerts in that order, each seeing the columns the previous wrote; the rows are unchanged, and so are the columns of an empty frame |
| Alerts.PriceAlertsAtMostOne | app/components/alerts.py:29-37 | a non-empty frame gives at most one alert: a jump, a drop or the error message |
| Alerts.PriceKeepsExistingReturns | app/components/alerts.py:26-27 | an existing `Daily_Return` column is neither recomputed nor changed |
| Alerts.PriceFromCloses | app/components/alerts.py:26-31 | with a computed return, a jump fires exactly when the last close rose by at least the threshold times the previous one |
| Alerts.VolatilityFromPrices | app/components/alerts.py:82-86 | with a positive open, the alert fires exactly when High − Low exceeds the threshold times the open |
| Alerts.CrossoverExclusive | app/components/alerts.py:62-65 | the two crossovers never fire together; a tie or a NaN on either row gives none |
| Alerts.CrossoverUnaffectedByPrice | app/components/alerts.py:27 | the column the price alerts write does not change the crossover alerts |
| Loader.DailyReturns | app/utils/data_loader1.py:42 | the daily return column is as long as the closes |
| Loader.DailyReturnsArePctChange | app/utils/data_loader1.py:42 | it is `pct_change` of the closes |
| Loader.DailyReturnsFromCloses | app/utils/data_loader1.py:42 | NaN on the first row and after a zero close; otherwise (1 + r[i])·close[i−1] = close[i] |
| Loader.CloseReturns | app/utils/data_loader1.py:42 | the returns between consecutive closes: one fewer than the closes, with (1 + r[i])·close[i] = close[i+1] |
| Loader.DailyReturnsShape | app/utils/data_loader1.py:42 | with no zero close before the last, the daily returns are NaN on the first row and the consecutive returns after it |
| Loader.CumulativeReturns | app/utils/data_loader1.py:43 | the cumulative return is defined exactly where the daily return is |
| Loader.GrowthTelescopes | app/utils/data_loader1.py:43 | the running product of the growth factors times the first close is the current close |
| Loader.CumulativeFromCloses | app/utils/data_loader1.py:43 | for non-zero closes the cumulative return is NaN on the first row and close[i]/close[0] − 1 after it |
| Loader.AddReturns | app/utils/data_loader1.py:42-43 | the frame gains exactly the two return columns, with those contents |
| Loader.GetData | app/utils/data_loader1.py:18-53 | None exactly for an empty download; otherwise the bars with the return columns and, when asked, the indicators |
| Loader.IndicatorsKeepReturns | app/utils/data_loader1.py:45-46 | the indicator engine accepts the prepared frame and keeps its return columns |
| Loader.ValidateDataMeaning | app/utils/data_loader1.py:126-148 | valid exactly when the frame exists, has every OHLCV column and at least two rows |
| Loader.AsTable | app/utils/data_loader1.py:139-140 | a price frame read by column name has its own columns and the OHLCV columns |
| Loader.PreparedFrameValid | app/utils/data_loader1.py:42-46 | a frame prepared from at least two bars passes validation |
| Loader.ValidateDataExamples | tests/test_data_loader.py:46-68 | no frame, an empty frame, foreign columns only, and a single row are all invalid |
| LegacyLoader.AddBands | app/utils/data_loader.py:71-75 | the copy gains the four band columns, equal to the engine's bands with period 20 and multiplier 2 |
| LegacyLoader.BandsAgree | app/utils/data_loader.py:71-75 | the literal 20/2 bands are those of the engine's configured bands |
| LegacyLoader.CalculateRsi | app/utils/data_loader.py:78-85 | TypeError exactly when the window is missing; otherwise the engine's RSI |
| LegacyLoader.AddOscillators | app/utils/data_loader.py:86-101 | the copy gains RSI, the two volatilities and ATR |
| LegacyLoader.Prepared | app/utils/data_loader.py:50-75 | the copy gains the return, average and band columns, with the loader's daily returns and the engine's MA_20 and upper band |
| LegacyLoader.AddTechnicalIndicators | app/utils/data_loader.py:40-103 | every call raises TypeError at the RSI line |
| LegacyLoader.AddTechnicalIndicatorsCorrected | app/utils/data_loader.py:50-103 | with the window passed it completes, adding the return, average, band and oscillator columns but no `BB_Percent`, each equal to the engine's |
| LegacyLoader.ColumnOf | app/utils/data_loader.py:198 | `returns_df[name]` is that stock's aligned column |
| LegacyLoader.PortfolioReturns | app/utils/data_loader.py:198 | KeyError exactly when a weight names no stock; no sum at all for no weights; otherwise one return per row |
| LegacyLoader.RowsAgree | app/utils/data_loader.py:198 | summing over the weight names equals summing over the columns when the names match |
| LegacyLoader.SameNamesSamePortfolio | app/utils/data_loader.py:198 | with weights naming the stocks in order, the portfolio is that of metrics.py |
| LegacyLoader.MaxDrawdown | app/utils/data_loader.py:166-171 | NaN without returns or after a first-day total loss; otherwise ≤ 0, and 0 without a negative return |
| LegacyLoader.Sharpe | app/utils/data_loader.py:205 | the ratio needs at least two returns |
| LegacyLoader.SharpeAtZeroRate | app/utils/data_loader.py:205 | NaN where metrics.py gives 0 (no spread); otherwise the Sharpe ratio of metrics.py at a zero rate |
| LegacyLoader.MetricsOf | app/utils/data_loader.py:201-208 | the maximum drawdown is ≤ 0 |
| LegacyLoader.CalculatePortfolioMetrics | app/utils/data_loader.py:174-209 | None exactly for no stocks; KeyError exactly for a frame without returns or a weight naming no stock; AttributeError for empty weights; a result is the metrics of the returns weighted by the weights as given (not normalised) over the complete rows |
| LegacyLoader.UnnormalisedPair | app/utils/data_loader.py:198 | weights of 2 and 2 double both returns rather than halving them |
| LegacyLoader.PricedIffKnown | app/utils/data_loader.py:192-198 | every weight name finds a column exactly when it names a stock |
| LegacyLoader.DefaultWeightsKnown | app/utils/data_loader.py:188-189 | with default weights the computation does not fail once every frame has returns |
| LegacyLoader.WholeWeight | app/utils/data_loader.py:198 | one stock of weight one is the portfolio |
| LegacyLoader.SingleStockPortfolio | app/utils/data_loader.py:184-209 | one stock with default weights has the metrics of its own present returns |
| LegacyLoader.TotalReturnsDiverge | app/utils/data_loader.py:202 | returns 0.1, 0.1 give a total of 0.2 here and 0.21 compounded in metrics.py |
| LegacyLoader.GetSummaryStatistics | app/utils/data_loader.py:211-240 | the summary of metrics.py except that the Sharpe ratio has no risk-free rate |
| LegacyLoader.SharpeFallsWithRate | app/utils/data_loader.py:236 | a higher risk-free rate gives a strictly lower Sharpe ratio |
| LegacyLoader.SummarySharpeExceeds | app/utils/data_loader.py:236 | with varying returns this summary's Sharpe exceeds that of metrics.py |

`Config` holds the constants of app/utils/config.py:16 and :23-36. The
older loader's `calculate_max_drawdown` (app/utils/data_loader.py:166-171)
is the same computation as that of metrics.py, so `LegacyLoader.MaxDrawdown`
is defined through `Metrics.MaxDrawdown`.

## Left out

- Downloading (`yf.download`, `yf.Ticker`), `get_fundamentals`,
  `get_multiple_tickers` in both loaders, logging and the Streamlit pages
  and charts. These are I/O or presentation. `Loader.GetData` takes the
  downloaded frame as a parameter.
- The `dropna(inplace=True)` of `get_data`: the bars are taken as already
  free of gaps. Only the `KeyError` of the indicator engine is modelled
  among the failures the `try` of `get_data` catches.
- The older loader's `get_data`: `logger` is used there although `logging`
  is not imported, so it fails with NameError. This is on the I/O path only.
- Floating point: arithmetic is exact, and NaN and the infinities are one
  value (`None`). `np.sqrt` is a parameter. `np.isclose` is numpy's default
  tolerance test `|a − b| <= 1e-8 + 1e-5·|b|` over exact reals
  (`Stats.IsClose`).
- Alignment by date index: columns are aligned by row position on a common
  index, and `dropna()` keeps the rows where every column has a number.
- `pct_change` gap filling: the model's `pct_change` (`Base.PctChange`)
  does not forward-fill over NaN, as pandas' default `fill_method='pad'`
  does. The loaders apply it to gap-free closes, where the two agree.
- Alerts.PriceAlerts: when the frame has no `Daily_Return`, the alert
  computes one from a `Close` column that may have gaps. A NaN among the
  last two closes makes the latest return NaN in the model, so no price
  alert fires. pandas first fills each gap with the close before it and
  judges that return instead: for closes 100, NaN, 110 and a 5% threshold
  it raises a jump alert, where the model raises none.
- `ewm` over NaN: the exponential averages are applied to gap-free closes
  only.
- Indicators.AddTechnicalIndicators: states the columns it adds and that
  every other column is unchanged, but not the contents of the added
  columns; those are stated by its stages (`AddAverages`,
  `AddBollingerBands`, `AddOscillators`, `AddStochasticOscillator`).
- Metrics.SortDescending: states a permutation ordered highest first with
  NaN last, but not the order of ties. pandas' default sort is not stable.
- Sorting the comparison by its `Stock` column is not modelled.
  `ComparedBy` covers the numeric columns and a name that is not a column.
- `calculate_correlation_summary` and the `Correlation_Matrix` entries
  (Pearson correlation) are not modelled.
- The text, emojis and `:.2%` formatting of the alert messages are not
  modelled. An alert is a kind plus the number it formats.
- Column labels outside the modelled set are `Label.Other(name)`.
  Labels are not checked for collisions with the computed rolling labels.

## Findings

| source | as written | input that shows it | evidently intended | confidence | as-written member | corrected member |
|---|---|---|---|---|---|---|
| app/utils/data_loader.py:86 | `calculate_rsi(df['Close'])` calls the nested function without its required `window` argument, so Python raises TypeError and `add_technical_indicators` never returns | any frame | pass the RSI period of the configuration (14), as the indicator engine does | high (not executed) | LegacyLoader.AddTechnicalIndicators | LegacyLoader.AddTechnicalIndicatorsCorrected |
