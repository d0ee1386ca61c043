# klineio price monitor in Dafny

This project models the price-monitoring core of klineio, a Go service. The
core polls two cryptocurrency exchanges, Binance and OKEX, and does the
following for each exchange:

- it takes the top-volume USDT pairs;
- for each pair it fetches the latest price and stores it as a daily-unique
  record, one row per (symbol, exchange, UTC day);
- it averages the closes of the last thirty daily candles;
- it sends an alert when the latest price is below that average by more than
  the configured drop threshold.

The model has these modules:

- `Exchange`: the values exchanged with the clients (`Kline`, `Ticker`), their
  errors, and the `ExchangeClient` interface as three oracles.
- `GoStrings`: the few `strings` functions the clients use: `Contains`,
  `HasSuffix`, `Index`, `Replace(…, 1)` and `ReplaceAll` with an empty
  replacement.
- `VolumeRanking`: the step both clients share. The kept tickers are sorted in
  place in an array by descending volume, then cut to `limit`.
- `Okex` and `Binance`: what each client does with a decoded answer. This covers
  the symbol/instId translation, the interval table, row conversion with its
  error and panic cases, and the ticker filter.
- `Repository`: the `exchange_prices` table. It is a class whose `map` field is
  keyed by the unique index and updated in place by the upsert, with the two
  read queries as methods. Pure functions (`Upserted`, `Matching`, `InWindow`,
  `AverageOver`) specify them.
- `MonitorSpec`: one `RunMonitor` pass as pure functions of:
  - the clients;
  - the settings;
  - an `Env` recording how the context, clock, database and notifier answer
    each call, numbered by its position in the pass.
- `PriceMonitor`: the `PriceMonitorService` class. Its loop methods are proved
  step by step to compute exactly what `MonitorSpec` says.
- `MonitorProperties`: what a pass guarantees, proved on the spec:
  - every alert obeys the alert rule;
  - every stored price keeps its row;
  - no row disappears;
  - the pass stops exactly at the first checkpoint that finds the context done;
  - the pass is aborted only by a client call that panics;
  - the number of delays is bounded.

The pass also carries a ghost trace of events. A price is `Stored`, an alert is
`Alerted` (with whether the notifier accepted it), a wait between tickers is
`Delayed`, and an exchange or symbol that is skipped is `SkippedExchange` or
`SkippedSymbol`, with the reason. The trace is how the model states what the
service logs and notifies, without modelling the logger or the notifier.

The HTTP transport and JSON decoding are parameters. A `fetch` function (or a
decoded `response`) stands for them, and `None` stands for any failure up to
and including decoding. `strconv.ParseFloat` and `ParseInt` are an abstract
`Parsers` value.

Go runtime panics are the `Panic` error. These include short candle rows, a
failed `.(string)` type assertion and a negative slice bound. `RunMonitor`
does not recover from them: a client call that answers `Panic` ends the pass
as `Aborted`, with the table as it stood, and `RunMonitor` then neither
returns an error nor nil but is unwound (`Unwound`). Go's map-iteration order
over the exchange clients is the `order` parameter of `RunMonitor`, which may
be any permutation of the client names.

With no matching rows, `GetAveragePriceForLastNDays` yields no average:
`AVG` over no rows is SQL `NULL`, and scanning `NULL` into a `float64` fails.
The model returns `None` for an empty window.

## Model

| member | source | states |
|---|---|---|
| GoStrings.IndexFrom | pkg/exchange/okex.go:54-57 | The first occurrence of the pattern at or after `i`; `None` exactly when there is none. |
| GoStrings.ReplaceFirst | pkg/exchange/okex.go:124-126 | `Replace(s, pat, rep, 1)` returns `s` when `pat` does not occur. Otherwise, at the first occurrence `k`: the text before `k` is kept, `rep` stands at `k`, the text after the occurrence follows, and the length changes by `|rep| - |pat|`. |
| GoStrings.RemoveAll | pkg/exchange/okex.go:244 | `ReplaceAll(s, "-", "")` leaves no dash and never lengthens the string. |
| GoStrings.RemoveAllAppend | pkg/exchange/okex.go:244 | Removing a character distributes over concatenation. |
| GoStrings.RemoveAllAbsent | pkg/exchange/okex.go:244 | A string without the character is unchanged. |
| GoStrings.RemoveAllKeeps | pkg/exchange/okex.go:244 | Every other character is kept, with its multiplicity. |
| VolumeRanking.Swap | pkg/exchange/okex.go:251-253 | Exchanges two array cells and touches no other. |
| VolumeRanking.SortByVolumeDesc | pkg/exchange/okex.go:251-253 | The array is sorted in place by descending volume and is a permutation of what it held. |
| VolumeRanking.SortedSplitDominates | pkg/exchange/binance.go:206-214 | In a sorted sequence, nothing after a cut has more volume than anything before it. |
| VolumeRanking.SortedPrefixIsTopN | pkg/exchange/binance.go:206-214 | The first `k` of a sorted sequence are a top-`k` selection of it. |
| VolumeRanking.TopByVolume | pkg/exchange/binance.go:206-214 | It succeeds if and only if `limit >= 0`, and panics otherwise. The result is sorted, has `min(limit, n)` elements and is drawn from the input; nothing left out beats anything kept. |
| Okex.InstIdUnchanged | pkg/exchange/okex.go:54-57 | A symbol holding a dash, or not ending in "USDT", is sent as it is. |
| Okex.InstIdOfUsdtSymbol | pkg/exchange/okex.go:54-57 | Otherwise the dash is inserted in front of the FIRST "USDT". |
| Okex.FirstUsdtAfterBase | pkg/exchange/okex.go:54-57 | In `B + "USDT"` with no "USDT" in B, the first "USDT" is the appended one. |
| Okex.TickerSymbolOfUsdtPair | pkg/exchange/okex.go:244 | The ticker symbol of `B-USDT` is B without dashes, followed by "USDT". |
| Okex.SingleDash | pkg/exchange/okex.go:54-57 | A translated USDT symbol holds exactly one dash, at the first "USDT". |
| Okex.RoundTripIff | pkg/exchange/okex.go:54-57 | instId → ticker symbol → instId gives back `B-USDT` if and only if B holds neither a dash nor "USDT". |
| Okex.RoundTripOfCanonicalPair | pkg/exchange/okex.go:244 | For such B the round trip holds, and `BUSDT` is sent as `B-USDT`. |
| Okex.DashedBaseBreaksRoundTrip | pkg/exchange/okex.go:244 | `X-Y-USDT` comes back as `XY-USDT`. |
| Okex.EmbeddedQuoteBreaksRoundTrip | pkg/exchange/okex.go:54-57 | `USDTX-USDT` comes back as `-USDTXUSDT`. |
| Okex.IntervalKeys | pkg/exchange/okex.go:107-115 | Exactly seven intervals are supported. |
| Okex.IntervalBars | pkg/exchange/okex.go:107-115 | Each maps to itself with an upper-case unit for hours and days. |
| Okex.IntervalsRefused | pkg/exchange/okex.go:117-120 | Intervals OKEX offers but the table omits, and OKEX's own "1D", are refused. |
| Okex.InstId | pkg/exchange/okex.go:54-57 | The instId sent for a symbol. Its cases are stated by `InstIdUnchanged`, `InstIdOfUsdtSymbol` and `SingleDash`. |
| Okex.TickerSymbol | pkg/exchange/okex.go:244 | The ticker symbol of an instId. Its properties are stated by `TickerSymbolOfUsdtPair` and the round-trip lemmas. |
| Okex.GetLatestPrice | pkg/exchange/okex.go:52-102 | The price lookup on a decoded ticker answer. Its outcomes are stated by `LatestPriceOutcome`. |
| Okex.LatestPriceOutcome | pkg/exchange/okex.go:52-102 | Transport failure; API error on a code other than "0" or empty data; otherwise the price is returned if and only if the first `last` parses, and is that number. |
| Okex.CandleOf | pkg/exchange/okex.go:164-179 | One candle row with parse errors ignored. Its fields are stated by `CandlesOneToOne`. |
| Okex.CandlesOutcome | pkg/exchange/okex.go:158-182 | A decoded candles answer: transport error, API error, a panic on a row shorter than six, or the converted rows. The success case is stated by `CandlesOneToOne`. |
| Okex.CandlesOneToOne | pkg/exchange/okex.go:162-182 | One candle per row, in order. Open time, open, high, low, close and volume are the parsed elements 0 to 5, each 0 when it does not parse, and the close time equals the open time. |
| Okex.GetKlines | pkg/exchange/okex.go:105-183 | Unsupported interval fails before any request; otherwise the mapped bar of the translated instId is fetched; a code other than "0" is an API error; a row shorter than six panics. |
| Okex.Survivor | pkg/exchange/okex.go:227-248 | The filter and conversion of one raw ticker. What it keeps is stated by `SurvivorsExactly`. |
| Okex.Survivors | pkg/exchange/okex.go:226-248 | The kept tickers in response order. Which are kept is stated by `SurvivorsExactly`. |
| Okex.SurvivorsExactly | pkg/exchange/okex.go:226-248 | A ticker is kept if and only if some row ends in "-USDT" and has a parsing price and volume; its symbol is dash-free and ends in "USDT". |
| Okex.GetTopVolumeTickers | pkg/exchange/okex.go:186-260 | Transport and API errors. With code "0" it succeeds if and only if `limit >= 0`, and panics otherwise. The result is a top-`limit` selection by volume of exactly the kept tickers. |
| Binance.GetLatestPrice | pkg/exchange/binance.go:52-88 | The symbol is sent unchanged; the price is returned if and only if the answer arrived and its price text parses; otherwise a transport or parse error. |
| Binance.Trunc | pkg/exchange/binance.go:135 | `int64(f)` drops the fraction toward zero. |
| Binance.RowToKline | pkg/exchange/binance.go:120-142 | One candle row. Its outcomes are stated by `RowOutcome`. |
| Binance.RowOutcome | pkg/exchange/binance.go:119-143 | A row converts if and only if it has at least seven elements of the right types. A non-number first element is an invalid open time. A non-number seventh element, after a number and five strings, is an invalid close time. On success the times are the truncated elements 0 and 6, and open, high, low, close and volume are the parsed elements 1 to 5, each 0 when it does not parse. |
| Binance.ConvertRows | pkg/exchange/binance.go:119-143 | The rows converted front to back. Its outcomes are stated by `ConvertRowsAll` and `ConvertRowsFirstFailure`. |
| Binance.ConvertRowsAll | pkg/exchange/binance.go:119-143 | When every row converts, the candles are the rows' conversions in order. |
| Binance.ConvertRowsFirstFailure | pkg/exchange/binance.go:119-143 | Otherwise the result is the error of the first bad row. |
| Binance.ConvertRow | pkg/exchange/binance.go:120-142 | The loop body checks element 0, asserts elements 1-5 are strings (panicking otherwise), then checks element 6. |
| Binance.KlinesOutcome | pkg/exchange/binance.go:113-146 | A decoded klines answer: transport error or the converted rows. Its outcomes are stated by `ConvertRowsAll` and `ConvertRowsFirstFailure`, and `GetKlines` is proved equal to it. |
| Binance.GetKlines | pkg/exchange/binance.go:91-146 | The interval is forwarded unchecked; the result is the ordered conversion, or the first row's error. |
| Binance.Survivor | pkg/exchange/binance.go:181-203 | The filter and conversion of one raw ticker. What it keeps is stated by `SurvivorsExactly`. |
| Binance.Survivors | pkg/exchange/binance.go:181-203 | The kept tickers in response order. Which are kept is stated by `SurvivorsExactly`. |
| Binance.SurvivorsExactly | pkg/exchange/binance.go:181-203 | A ticker is kept if and only if some row has a parsing price and volume and a symbol ending in "USDT"; the symbol is kept as it is. |
| Binance.GetTopVolumeTickers | pkg/exchange/binance.go:149-215 | Transport error. With an answer it succeeds if and only if `limit >= 0`, and panics otherwise. The result is a top-`limit` selection by volume of exactly the kept tickers. |
| Repository.DayOf | internal/repository/crypto.go:87-91 | `Truncate(24h)` in UTC gives the day whose span holds the instant. |
| Repository.DayOfUnique | internal/repository/crypto.go:87-91 | Only one day holds a given instant. |
| Repository.SameDateIffSameDay | internal/model/crypto.go:15-19 | Two timestamps share a `date` if and only if one UTC day holds both. |
| Repository.EmptyTableValid | internal/model/crypto.go:10-20 | The empty table satisfies the unique-index invariant. |
| Repository.Upserted | internal/repository/crypto.go:93-96 | The table after the `INSERT ... ON CONFLICT DO UPDATE`. Its properties are stated by `UpsertLeavesExactlyOne`, `UpsertConflictKeeps`, `UpsertFramesOtherKeys`, `UpsertKeepsValid`, `UpsertIdempotent`, `UpsertLastWriteWins` and `UpsertMatching`. |
| Repository.UpsertLeavesExactlyOne | internal/repository/crypto.go:93-96 | After an upsert exactly one row has the record's symbol, exchange and date, with its price and timestamp. |
| Repository.UpsertConflictKeeps | internal/repository/crypto.go:93-96 | On conflict only price, timestamp and updated_at change. Otherwise a new row with the next id is inserted. |
| Repository.UpsertFramesOtherKeys | internal/repository/crypto.go:93-96 | No row disappears, and rows under other keys are untouched. |
| Repository.UpsertKeepsValid | internal/model/crypto.go:15-19 | The upsert keeps the unique-index and id invariants. |
| Repository.UpsertIdempotent | internal/repository/crypto.go:93-96 | Upserting the same record twice at the same write time equals upserting it once. |
| Repository.UpsertLastWriteWins | internal/repository/crypto.go:93-96 | A second write on the same UTC day overwrites price, timestamp and updated_at, adds no row, and keeps id and creation time. |
| Repository.UpsertMatching | internal/repository/crypto.go:93-96 | For the record's symbol and exchange, an upsert adds the record's key to the rows that `Matching` selects. For every other pair those rows are unchanged. |
| Repository.LatestIsUnique | internal/repository/crypto.go:44 | `ORDER BY timestamp DESC` with GORM's id tie-break picks at most one row. |
| Repository.WindowIsWholeDays | internal/repository/crypto.go:60-68 | `InWindow` selects the matching rows whose date is at or after now minus `days` days. Every windowed row was stamped at or after the threshold. Every later day is included. The threshold's own day is excluded unless the threshold is a midnight. |
| Repository.SumPricesRemove | internal/repository/crypto.go:67-68 | The sum behind `AVG` does not depend on row order. |
| Repository.SumPricesBounds | internal/repository/crypto.go:67-68 | A sum of prices within bounds is within the count times those bounds. |
| Repository.AverageWithinBounds | internal/repository/crypto.go:67-68 | The average lies between the lowest and highest averaged price. |
| Repository.ExchangePrice.constructor | internal/service/pricemonitor.go:193-198 | The record carries symbol, exchange, price and timestamp, with the zero date. |
| Repository.PriceStore.constructor | internal/model/crypto.go:10-20 | An empty, valid table. |
| Repository.PriceStore.UpsertExchangePrice | internal/repository/crypto.go:85-110 | Writes the record's date from its timestamp. An accepted write makes the table `Upserted(old table, record)`. A refused write leaves the table unchanged and returns the error. |
| Repository.PriceStore.GetLatestExchangePriceBySymbolAndExchange | internal/repository/crypto.go:40-56 | Record-not-found if and only if no row has this symbol and exchange (`Matching` is empty); otherwise the latest matching row by timestamp, with ties broken by the lowest id. |
| Repository.PriceStore.GetAveragePriceForLastNDays | internal/repository/crypto.go:59-82 | The mean price over exactly the window rows; `None` for an empty window. |
| MonitorSpec.Mean | internal/service/pricemonitor.go:209-217 | `CalculateAveragePrice` as a function. Its properties are stated by `MeanBounds` and `MeanOfConstant`. |
| MonitorSpec.SumBounds | internal/service/pricemonitor.go:209-217 | A sum of prices within bounds is within the length times those bounds. |
| MonitorSpec.MeanBounds | internal/service/pricemonitor.go:209-217 | The average of a non-empty slice lies between its smallest and largest price. |
| MonitorSpec.MeanOfConstant | internal/service/pricemonitor.go:209-217 | Equal prices average to that price, and an empty slice to 0. |
| MonitorSpec.ShouldAlert | internal/service/pricemonitor.go:134 | The alert rule. Its meaning is stated by `AlertIffDropExceedsThreshold`. |
| MonitorSpec.DropPercentage | internal/service/pricemonitor.go:135 | The reported drop. Its relation to the threshold is stated by `AlertIffDropExceedsThreshold`. |
| MonitorSpec.AlertIffDropExceedsThreshold | internal/service/pricemonitor.go:134-135 | The alert fires if and only if the average is positive and the drop percentage exceeds the threshold in percent. |
| MonitorSpec.AlertExamples | internal/service/pricemonitor.go:134-135 | At average 100 and threshold 0.20, price 79 alerts with a 21% drop; 85 and 80 do not alert. |
| MonitorSpec.FetchAndStore | internal/service/pricemonitor.go:184-206 | `FetchAndStorePrice` on the table. Its outcomes are stated by `FetchAndStoreOutcome`. |
| MonitorSpec.ProcessSymbol | internal/service/pricemonitor.go:97-154 | Steps 1 to 4 for one symbol. Its outcomes are stated by `ProcessSymbolOutcome`, `ProcessSymbolStores` and `ProcessSymbolAlerts`. |
| MonitorSpec.AfterSymbol | internal/service/pricemonitor.go:157-165 | The delay after a symbol. Its properties are stated by `AfterSymbolFollows`. |
| MonitorSpec.TickerStep | internal/service/pricemonitor.go:89-165 | One turn of the ticker loop. Its properties are stated by `TickerStepFollows` and `TickerStepAborts`. |
| MonitorSpec.Tickers | internal/service/pricemonitor.go:88-166 | The ticker loop of one exchange. Its properties are stated by `TickersFollows`, `TickersAbortOnlyOnPanic` and `TickersHaltSticks`. |
| MonitorSpec.ExchangeStep | internal/service/pricemonitor.go:77-166 | One turn of the exchange loop. Its properties are stated by `ExchangeSkipped`, `ExchangeAbortsOnPanic`, `ExchangeStepFollows` and `ExchangeAbortsOnlyOnPanic`. |
| MonitorSpec.Exchanges | internal/service/pricemonitor.go:74-167 | The exchange loop. Its properties are stated by `ExchangesFollows`, `ExchangesAbortOnlyOnPanic` and `ExchangesHaltSticks`. |
| MonitorSpec.MonitorPass | internal/service/pricemonitor.go:64-181 | A whole pass. What it guarantees is stated by `PassGuarantees`. |
| MonitorSpec.TickersHaltSticks | internal/service/pricemonitor.go:90-93 | Once a checkpoint returns or a call panics, no later ticker changes anything. |
| MonitorSpec.ExchangesHaltSticks | internal/service/pricemonitor.go:90-93 | Once a checkpoint returns or a call panics, no later exchange changes anything. |
| MonitorSpec.PassHaltsAtTicker | internal/service/pricemonitor.go:159-161 | A stop or an abort at a ticker is the outcome of the whole pass. |
| MonitorProperties.FetchAndStoreOutcome | internal/service/pricemonitor.go:184-206 | The upsert happens only after a successful fetch. The price is returned if and only if both succeed, and the stored row is then the only one for its symbol, exchange and day. |
| MonitorProperties.ProcessSymbolOutcome | internal/service/pricemonitor.go:97-154 | A symbol panics if and only if the price call panics, or the price was stored and the candles call panics; a panic logs no skip. A symbol gets through if and only if its price was stored and candles came back. Otherwise exactly one skip is logged. It alerts if and only if the rule holds, with the exact alert contents; the notifier plays no part. |
| MonitorProperties.ProcessSymbolStores | internal/service/pricemonitor.go:99-107 | A symbol keeps the table valid, removes no row, and keeps a row for every stored price. |
| MonitorProperties.ProcessSymbolAlerts | internal/service/pricemonitor.go:134-153 | Every alert a symbol adds carries the threshold, satisfies the rule and reports the drop exactly. |
| MonitorProperties.ProcessSymbolFollows | internal/service/pricemonitor.go:97-154 | A symbol keeps soundness, and the trace only grows. |
| MonitorProperties.SymbolTurnFollows | internal/service/pricemonitor.go:97-154 | The symbol part of a ticker turn, past its checkpoint, keeps soundness, only grows the trace, and adds no wait. |
| MonitorProperties.DelayCountAppend | internal/service/pricemonitor.go:157-165 | Delays in a concatenated trace add up. |
| MonitorProperties.AfterSymbolFollows | internal/service/pricemonitor.go:157-165 | The wait is taken if and only if the symbol got through, the delay is positive and the ticker is not the last; after a skipped symbol nothing changes. Its checkpoint stops the pass exactly when the context is done. |
| MonitorProperties.TickerStepFollows | internal/service/pricemonitor.go:88-165 | One ticker stops the pass exactly at the first checkpoint finding the context done, keeps soundness, and delays at most once; a panic leaves every checkpoint so far not done. |
| MonitorProperties.TickersFollows | internal/service/pricemonitor.go:88-166 | The same for the first `n` tickers of an exchange, with at most one delay per ticker that may delay. |
| MonitorProperties.ExchangeDelays | internal/service/pricemonitor.go:157 | An exchange with n tickers waits at most n − 1 times, and never when the delay is not positive. |
| MonitorProperties.ExchangeSkipped | internal/service/pricemonitor.go:77-86 | A ticker list that failed without a panic, or is empty, adds one skip event, and nothing else changes. |
| MonitorProperties.ExchangeAbortsOnPanic | pkg/exchange/binance.go:211-212 | A panic while ranking an exchange's tickers aborts the pass with the state unchanged. |
| MonitorProperties.ExchangeStepFollows | internal/service/pricemonitor.go:74-166 | One exchange keeps soundness and the stop rule, whether it goes on, stops or aborts. |
| MonitorProperties.ExchangesFollows | internal/service/pricemonitor.go:74-167 | The first `n` exchanges keep soundness and the stop rule. |
| MonitorProperties.TickerStepAborts | internal/service/pricemonitor.go:97-125 | A ticker aborts the pass only when the price or candles call on its own symbol panicked. |
| MonitorProperties.TickersAbortOnlyOnPanic | internal/service/pricemonitor.go:88-166 | The first `n` tickers abort the pass only when a call on one of their symbols panicked. |
| MonitorProperties.ExchangeAbortsOnlyOnPanic | internal/service/pricemonitor.go:77-166 | An exchange aborts the pass only when some call on its client panics. |
| MonitorProperties.ExchangesAbortOnlyOnPanic | internal/service/pricemonitor.go:74-167 | The first `n` exchanges abort the pass only when a call on one of their clients panics. |
| MonitorProperties.PassGuarantees | internal/service/pricemonitor.go:64-181 | A whole pass keeps these even when stopped or aborted: every alert obeys the rule, every stored price keeps its row, and no row disappears. It returns the context error exactly at the first checkpoint that finds the context done. It aborts only when a client call panics. So without cancellation and panics it runs to the end. |
| PriceMonitor.PriceMonitorService.constructor | internal/service/pricemonitor.go:38-61 | The clients are registered as "BINANCE" and "OKEX" with the given store and settings. |
| PriceMonitor.PriceMonitorService.CalculateAveragePrice | internal/service/pricemonitor.go:209-217 | The loop computes `Mean`: 0 for no prices, otherwise the sum over the count. |
| PriceMonitor.PriceMonitorService.ClosePrices | internal/service/pricemonitor.go:127-130 | The loop computes `Closes`: one close per candle, in order. |
| PriceMonitor.PriceMonitorService.FetchAndStorePrice | internal/service/pricemonitor.go:184-206 | The store's new table and the returned price or error are those of `FetchAndStore`, and the price is 0 on error. |
| PriceMonitor.PriceMonitorService.MonitorSymbol | internal/service/pricemonitor.go:97-154 | The new table, trace and counters, and whether the symbol got through, was skipped or panicked, are exactly `ProcessSymbol` of the old ones. |
| PriceMonitor.PriceMonitorService.MonitorTicker | internal/service/pricemonitor.go:89-165 | One loop turn is exactly `TickerStep`, including whether it went on, returned or panicked. |
| PriceMonitor.PriceMonitorService.MonitorTickers | internal/service/pricemonitor.go:88-166 | The ticker loop is exactly `Tickers` over all tickers. |
| PriceMonitor.PriceMonitorService.MonitorExchange | internal/service/pricemonitor.go:75-166 | One exchange is exactly `ExchangeStep`. |
| PriceMonitor.PriceMonitorService.RunMonitor | internal/service/pricemonitor.go:64-181 | The final table and trace are those of `MonitorPass`. It returns the context's error exactly when the pass stopped, nil when it ran to the end, and is unwound when it aborted. |

## Left out

- HTTP requests, status checks, body reads and JSON decoding: these are
  network and library code. Every failure among them is the single
  `TransportError` (a `None` answer), and the error texts are not modelled.
- `float64` arithmetic and the `decimal(20,8)` price column: prices are exact
  reals, so rounding in the mean, the drop percentage and the stored price is
  not modelled.
- `strconv.ParseFloat` and `ParseInt`: these are abstract `Parsers`, and their
  syntax is library behaviour.
- Binance.Trunc: does not model the out-of-range `float64` to `int64`
  conversion, which Go leaves implementation-defined.
- The overflow of `ms * int64(time.Millisecond)` when building `time.Time`:
  candle times are kept as exact milliseconds.
- The overflow of `time.Duration(delayMs) * time.Millisecond` when building the
  service: only the sign of the delay matters to the pass, and its length is
  not modelled.
- Repository.PriceStore.GetAveragePriceForLastNDays: database read errors are
  not modelled, and an empty window is `None` rather than a driver error.
- Repository.PriceStore.GetLatestExchangePriceBySymbolAndExchange: database
  errors other than record-not-found are not modelled.
- GORM's write-back of `ID` and `CreatedAt` into the caller's record: the
  record's `date` is the only field written back.
- Soft deletion (`DeletedAt`): no code path in the core deletes rows.
- The wall clock (`time.Now`), the database's acceptance of a write, and the
  notifier's delivery: these come from `Env`, answered by call number.
- The notifier's message text, the logger, the scheduler that calls
  `RunMonitor`, and dependency wiring: these lie outside the monitoring pass.
- Go's random choice in `select` when the timer and cancellation are both
  ready: the model returns at the wait whenever its checkpoint finds the
  context done. When Go would let the timer win instead, the check before the
  next ticker returns the same error. A delay is never taken after the last
  ticker, so a next ticker always exists. The outcome is therefore the same,
  and only the count of checkpoints differs.
- Exchange clients as seen by the service are deterministic oracles: the same
  call within one pass gives the same answer.
- VolumeRanking.SortByVolumeDesc: the order among tickers of equal volume is not
  modelled. `sort.Slice` is not stable, so every result that is a sorted
  permutation is accepted.
- Go's map-iteration order over the exchange clients: it is the `order`
  parameter of `RunMonitor`.
