/** The numeric settings of the dashboard (`app/utils/config.py`). */
module Config {
  import opened Base

  /** Trading periods per year, used to annualise returns and volatilities. */
  const TradingDaysPerYear: real := 252.0

  const RsiPeriod: Pos := 14
  const AtrPeriod: Pos := 14
  const MaShort: Pos := 20
  const MaMedium: Pos := 50
  const MaLong: Pos := 200
  const EmaFast: Pos := 12
  const EmaSlow: Pos := 26
  const MacdSignal: Pos := 9
  const BollingerPeriod: Pos := 20
  const BollingerStd: real := 2.0
  const VolatilityShort: Pos := 20
  const VolatilityLong: Pos := 50
}
