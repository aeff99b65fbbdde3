/**
 * The bot's configuration constants, as set at the top of funding-bot.py. The lead time and the
 * holding period only drive the scheduling and the sleep, which are not modelled, and
 * `Isolated` is the other margin mode the exchange accepts; they are listed for completeness.
 */
module Config {

  datatype MarginType = Cross | Isolated

  /** Position size in USD for every ticker traded. */
  const TargetUsdSize: real := 100.0
  /** `MARGIN_TYPE.upper()`: the margin mode sent with every order. */
  const MarginMode: MarginType := Cross
  const Leverage: nat := 10
  /** At most this many tickers survive the pre-filter ranking. */
  const MaxTickersToTrade: nat := 3
  /** Lead time, in seconds, between a trigger and the funding reset it precedes. */
  const SecondsBeforeFundingReset: nat := 15
  /** Hours between two funding resets. */
  const FundingResetTimeframe: nat := 8
  /** Minutes a position is held before it is closed. */
  const PositionLifecycle: nat := 60
  /** Threshold in percent: `-1` means a funding rate below -1%, i.e. below -0.01 as a fraction. */
  const MinFundingRateToShort: real := -1.0
}
