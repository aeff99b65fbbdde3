# Funding-rate short bot — a Dafny model of its decision logic

`funding-bot.py` is a single-file bot. A few seconds before each funding reset it scans
Binance and Bybit perpetual-futures funding rates and picks the tickers whose rate is deeply
negative. It shorts them with market orders of a fixed USD size, attaches a stop-loss to every
fill, and after a holding period closes the positions and cancels the stop-losses. This project
models the parts of that program that make decisions. The exchange calls are left out: their
answers are inputs.

- `Ranker` (`ranker.dfy`): `find_tickers`. Pre-filter the Binance quotes against
  `MIN/100*0.8`, sort them stably by rate, keep the first `MAX_TICKERS_TO_TRADE`, join each
  one with its Bybit quote, and keep it when the two-rate mean is strictly below `MIN/100`.
  Every exception inside the scan collapses its result to `[]`. The model makes that visible
  as `Scan`'s `Result`, which `FindTickers` turns into the empty sequence.
- `RateSort` (`rate_sort.dfy`): Python's stable `sorted(..., key=rate)` as an insertion sort.
  Its specification says the output is ascending and every equal-rate run keeps input order.
  `SortSpecIsUnique` proves that specification allows exactly one output.
- `Orders` (`orders.dfy`): construction of the batch orders inside
  `place_market_short_orders`. This covers the entry orders, the `fundingRates` table, the
  stop-loss and closing orders built from each fill, and the stop-loss id table.
  `amount_to_precision` and `price_to_precision` are function-valued parameters (`Precision`)
  about which nothing is assumed.
- `Lifecycle` (`lifecycle.dfy`): `run()` → `place_market_short_orders` → `close_possitions`.
  It records the batches submitted and the cancellations attempted, in order. A `Gateway`
  value supplies the exchange's answers: which calls raise, the fills, the stop-loss
  acknowledgments, and which cancellations fail.
- `Schedule` (`schedule.dfy`): `next_run_hour` and the daily trigger offsets `k * 8` hours.
- `Config` holds the constants from the top of the script. `Quotes`, `Sequences` and
  `Outcomes` hold the quote record, the subsequence / dictionary facts, and the
  `Option` / `Result` / `Fetch` types.

Rates and prices are exact `real`s. Symbols are strings. A Python dictionary built by
assignment is modelled as `LastWins`, where the last write wins. Its iteration order is
modelled as `InsertionOrder`, the order in which each key was first assigned.

### Behaviour that is easy to miss

- A candidate with no Bybit quote is not skipped. `next(..., None)` yields `None`,
  and `None[1]` raises inside the `try` of `find_tickers`. The whole scan then returns `[]`,
  even when other candidates would have signalled (`Ranker.AbortEmptiesScan`).
- The thresholds are used the same way in both comparisons. `MIN_FUNDING_RATE_TO_SHORT` is
  in percent and divided by 100 both in the pre-filter (`MIN/100*0.8`, line 37) and in the
  final check (`MIN/100`, line 49). The model keeps exactly these two bounds
  (`Ranker.PreFilterBound`, `Ranker.SignalBound`).
- Errors after the scan are not caught anywhere. A zero mark price, a fill whose symbol has
  no entered rate, or a rejected batch raises out of `place_market_short_orders`. The model
  ends the cycle in `Failed(step)` at that point, with the batches already submitted left
  in place.

## Model

| member | source | states |
|---|---|---|
| `Ranker.PreFilter` | funding-bot.py:37 | A quote survives exactly when it is a Binance quote with rate below `MIN/100*0.8`; survivors keep fetch order (subsequence). |
| `RateSort.Sort` | funding-bot.py:38 | The sorted quotes are ascending by rate, as many as the input, and for every rate value the quotes carrying it are in input order (stable). |
| `RateSort.InsertKeepsRuns` | funding-bot.py:38 | Inserting a quote puts it ahead of the quotes already present with its rate and leaves every other rate's run unchanged, which makes the sort stable. |
| `RateSort.SortIsPermutation` | funding-bot.py:38 | Sorting neither adds nor drops a quote: same multiset. |
| `RateSort.SortSpecIsUnique` | funding-bot.py:38 | Ascending plus stable-per-rate determines the output uniquely, so `Sort` is the stable sort. |
| `Ranker.PrefixShape` | funding-bot.py:37-39 | The candidates are the `cap` lowest-rate pre-filter survivors (all of them when fewer survive): a leading slice of the sorted survivors, of length `min(cap, survivors)`, with no left-out survivor ranked below a kept one; ascending, all Binance quotes below the pre-filter bound. |
| `Ranker.LookupBybit` | funding-bot.py:44 | Returns nothing exactly when no Bybit quote has the symbol; otherwise the first Bybit quote with that symbol. |
| `Ranker.Join` | funding-bot.py:43-50 | Succeeds iff every candidate has a Bybit quote; then keeps, in order, exactly the candidates whose two-rate mean is strictly below `MIN/100`; otherwise names a candidate symbol with no Bybit quote. |
| `Ranker.Scan` | funding-bot.py:32-56 | A failed Binance fetch or a failed Bybit fetch is reported as such. |
| `Ranker.ScanWithinPrefix` | funding-bot.py:37-50 | A successful scan returns a subsequence of the candidates: at most `cap` long, ascending, all below the pre-filter bound. |
| `Ranker.FindTickers` | funding-bot.py:32-56 | The ranked list never exceeds `cap`, is ascending by Binance rate, and only holds quotes below `MIN/100*0.8`. |
| `Ranker.FindTickersConfigured` | funding-bot.py:13-17 | With the script's constants, at most 3 tickers, every rate below -0.008. |
| `Ranker.RankedMembership` | funding-bot.py:37-50 | A quote is ranked iff both fetches succeeded, every candidate has a Bybit quote, the quote is a candidate, and its mean with the Bybit rate is below `MIN/100`. |
| `Ranker.AbortEmptiesScan` | funding-bot.py:33-56 | A failed fetch, or a single candidate without a Bybit quote, gives `[]`; a non-empty result implies both fetches succeeded and every candidate matched (never a partial list). |
| `Ranker.RankedTiesKeepFetchOrder` | funding-bot.py:37-39 | For every rate value, the ranked quotes with that rate appear in the order Binance returned them. |
| `Ranker.WorkedExample` | funding-bot.py:37-50 | A at -2% and B at -0.5% with threshold -1% and Bybit A at -1.8% rank exactly [A]. |
| `Orders.EntryOrders` | funding-bot.py:70-88 | One order per ranked ticker, in order: SELL, MARKET, SHORT, quantity `amount_to_precision(symbol, 100 / markPrice)`, leverage 10, CROSS; raises exactly when some mark price is zero. |
| `Orders.RateTableContents` | funding-bot.py:68-73 | `fundingRates` holds exactly the entered symbols, each with the rate of its last ticker. |
| `Orders.RawStopPrice` | funding-bot.py:100 | For a positive fill price and a negative rate the unrounded stop is strictly above the fill price; it always exceeds the fill price by `avgPrice * 2 * -rate`, and equals it at rate 0. |
| `Orders.StopPriceExample` | funding-bot.py:100 | A fill at 100 with rate -1.5% gets stop 103. |
| `Orders.ProtectionOrders` | funding-bot.py:92-131 | Succeeds iff every fill's symbol was entered; then exactly one stop-loss (BUY, STOP_MARKET, SHORT, GTC, rounded stop price) and one close (BUY, MARKET, SHORT) per fill, in fill order, both for `amount_to_precision(executedQty)`. |
| `Orders.PartialFillSizesProtection` | funding-bot.py:75-124 | An entry for 2 units that fills 1.5 gets stop-loss and close orders for 1.5, not 2. |
| `Orders.ProtectionForEnteredFills` | funding-bot.py:73-131 | When fills are for entered symbols, protection is built for all; stop-loss and close batches list the same symbols with equal quantities; with negative rates and positive prices every stop is above its fill. |
| `Orders.StopLossIdsContents` | funding-bot.py:135-137 | `sl_orders_ids` holds exactly the acknowledged symbols, each with its last acknowledged id. |
| `Orders.StopLossOrderContents` | funding-bot.py:135-145 | Iterating `sl_orders_ids` visits exactly its keys, each once. |
| `Orders.StopLossOrderHasIds` | funding-bot.py:145-147 | Every symbol the cancel loop visits has an id in the table. |
| `Sequences.LastWinsContents` | funding-bot.py:135-137 | A dictionary built by successive assignments contains every assigned key, each with the value of its last assignment. |
| `Sequences.InsertionOrderContents` | funding-bot.py:145 | Iterating such a dictionary visits every assigned key exactly once. |
| `Lifecycle.ClosePositions` | funding-bot.py:141-149 | If the close batch raises, nothing is cancelled; otherwise one cancellation per id-table symbol, in table order, with that symbol's id, failing exactly for the failing symbols, and the cancelled set is the table's symbols minus the failing ones. |
| `Lifecycle.OpenPositions` | funding-bot.py:64-133 | Entries are submitted first and stop-losses only after an accepted entry batch; a zero mark price submits nothing; a failed protection step leaves the entries submitted and unprotected. |
| `Lifecycle.PlaceMarketShortOrders` | funding-bot.py:64-149 | After a successful opening the close batch is the third submission, always before any cancellation; a closed cycle attempts one cancellation per stop-loss id, in table order. |
| `Lifecycle.Run` | funding-bot.py:172-179 | The cycle ends at `NoTickers` (no orders, no log) exactly when the scan returned nothing, in particular whenever a fetch failed; otherwise it trades exactly the scanned tickers: a buildable entry batch for them is the first submission, an unbuildable one (zero mark price) ends at `Failed(Building)` with nothing sent, and the rest of the cycle is `OpenPositions` then the close batch on them. |
| `Lifecycle.RankedStopsAboveFills` | funding-bot.py:37-100 | With a non-positive threshold, fills of ranked tickers at positive prices all get protection with stops strictly above the fill price. |
| `Schedule.NextResetBoundary` | funding-bot.py:166 | The pre-wrap value is a multiple of the cadence, strictly after the current hour and at most one cadence later. |
| `Schedule.NextRunHour` | funding-bot.py:164-170 | The next run hour is non-negative and is the pre-wrap value or that value minus 24. |
| `Schedule.NextRunHourIsResetHour` | funding-bot.py:164-170 | When the cadence divides 24 the next run hour is in `[0, 24)`, a multiple of the cadence, and the pre-wrap value modulo 24. |
| `Schedule.ConfiguredNextRunHour` | funding-bot.py:164-170 | With the 8-hour cadence the next run hour is 0, 8 or 16. |
| `Schedule.CeilDiv` | funding-bot.py:188 | `math.ceil(a / d)` is the least count whose multiple of `d` reaches `a`. |
| `Schedule.TriggerOffsets` | funding-bot.py:184-189 | `ceil(24 / T)` offsets, strictly increasing, each a multiple of `T` below 24. |
| `Schedule.TriggerOffsetsCoverDay` | funding-bot.py:188-189 | Every multiple of the cadence below 24 is one of the trigger offsets. |

## Left out

- Network I/O: `fetch_funding_rates`, `fapiPrivatePostBatchOrders`, `fetch_order`,
  `cancel_order` and `load_markets` are not modelled. Their results are inputs (`Fetch`, `Gateway`).
- `submit_batch_orders` (lines 58-62) is not modelled. It only URI- and JSON-encodes the orders.
- `amount_to_precision` / `price_to_precision`: exchange rounding whose rules are not part of
  this model. They are uninterpreted `Precision` parameters.
- `time.sleep` before closing (line 142), the `schedule` library and the polling loop
  (lines 191-207) are not modelled. The polling loop calls `find_tickers` only to print the result.
- Printing, `format_time`, `convert_to_readable_time`, the UTC/local hour offset and
  `replace(hour=...)` (lines 156-162, 185-186) are not modelled. Neither is the 15-second lead
  time subtracted from the first trigger. That covers wall-clock and time-zone handling;
  `replace` can be handed an hour of 24 or more, which the model does not follow.
- Credentials and client construction (lines 19-30) are not modelled.
- `float(...)` conversions are not modelled as IEEE doubles. Rates and prices are exact reals,
  and a `fundingRate` that is not numeric (which would raise) is not modelled.
- Symbols: ccxt's unified dictionary key, `info['symbol']` and `market(symbol)['id']` are taken
  to be one string. The symbol of an entry acknowledgment is taken to be the symbol of the
  fill fetched for it.
- `newOrderRespType: 'FULL'` is not modelled. It is a field on every order that only selects
  the response format.
- `binance.market(symbol)` raising (line 74) and `binance.fetch_order` raising (line 95) are not
  modelled as separate exceptions. The model reaches the same outcomes through other inputs:
  `Failed(Building)` with nothing sent, and `Failed(Protecting)` with only the entry batch sent.
- What happens after an uncaught exception is not modelled. In the script it escapes `run()`
  through `schedule.run_pending()` and ends the process. The model stops at `Failed(step)`.
- Lifecycle.ClosePositions: requires every visited symbol to have an id. In the script this
  always holds, because the loop walks the dictionary's own keys (`Orders.StopLossOrderHasIds`).
