/**
 * The exchange-client abstraction: the values the clients return and the
 * three capabilities of an exchange, as seen by the price monitor.
 */
module Exchange {
  import opened Wrappers

  /**
   * One candlestick. Times are epoch milliseconds: the source builds them with
   * `time.Unix(0, ms * int64(time.Millisecond))`, which keeps exactly the
   * millisecond value.
   */
  datatype Kline = Kline(
    openTime: int,
    open: real,
    high: real,
    low: real,
    close: real,
    volume: real,
    closeTime: int)

  /** A 24-hour ticker snapshot used to rank symbols. */
  datatype Ticker = Ticker(symbol: string, price: real, volume: real)

  /** What an exchange call can fail with. */
  datatype ExchangeError =
    | TransportError                        // request, send, non-200 status, body read or JSON decode failed
    | ApiError(code: string, msg: string)   // OKEX payload with code other than "0" (or no data)
    | PriceParseError                       // the price text is not a number
    | UnsupportedInterval(interval: string) // OKEX has no bar for this interval
    | InvalidOpenTime                       // Binance candle element 0 is not a JSON number
    | InvalidCloseTime                      // Binance candle element 6 is not a JSON number
    | Panic                                 // a Go runtime panic: index out of range, failed type assertion, bad slice bound

  /**
   * `strconv.ParseFloat(s, 64)` and `strconv.ParseInt(s, 10, 64)`, kept
   * abstract: `None` is a parse error.
   */
  datatype Parsers = Parsers(float: string -> Option<real>, integer: string -> Option<int>)

  /**
   * The `ExchangeClient` interface as the monitor sees it: each capability is
   * an oracle that answers with a value or an error.
   */
  datatype Client = Client(
    latestPrice: string -> Result<real, ExchangeError>,
    klines: (string, string, int) -> Result<seq<Kline>, ExchangeError>,
    topVolumeTickers: int -> Result<seq<Ticker>, ExchangeError>)
}
