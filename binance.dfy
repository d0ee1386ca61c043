/**
 * The Binance client after JSON decoding: the latest price, the conversion
 * of raw candle arrays, and the selection of the top-volume USDT tickers.
 * The HTTP exchange itself is a `fetch` function (or a decoded `response`)
 * whose `None` stands for any transport failure.
 */
module Binance {
  import opened Wrappers
  import opened GoStrings
  import opened Exchange
  import opened VolumeRanking

  // ---------------------------------------------------------------------------
  // GetLatestPrice

  datatype PricePayload = PricePayload(symbol: string, price: string)

  /**
   * `GetLatestPrice`: the symbol is sent as it is and the `price` text of the
   * answer is parsed; the answer's own symbol is not compared.
   */
  function GetLatestPrice(symbol: string, fetch: string -> Option<PricePayload>, parse: Parsers)
    : (r: Result<real, ExchangeError>)
    ensures fetch(symbol).None? ==> r == Failure(TransportError)
    ensures r.Success? <==> fetch(symbol).Some? && parse.float(fetch(symbol).value.price).Some?
    ensures r.Success? ==> r.value == parse.float(fetch(symbol).value.price).value
    ensures r.Failure? && fetch(symbol).Some? ==> r == Failure(PriceParseError)
  {
    match fetch(symbol)
    case None => Failure(TransportError)
    case Some(p) =>
      match parse.float(p.price)
      case None => Failure(PriceParseError)
      case Some(price) => Success(price)
  }

  // ---------------------------------------------------------------------------
  // GetKlines

  /** An element of a decoded `[][]interface{}`: JSON numbers decode to float64. */
  datatype JValue = JNumber(num: real) | JString(str: string) | JOther

  datatype KlinesQuery = KlinesQuery(symbol: string, interval: string, limit: int)

  /** Go's `int64(f)` for a float64 in range: the fraction is dropped toward zero. */
  function Trunc(x: real): (n: int)
    ensures 0.0 <= x ==> n as real <= x < n as real + 1.0
    ensures x < 0.0 ==> n as real - 1.0 < x <= n as real
  {
    if x >= 0.0 then x.Floor else -((-x).Floor)
  }

  /**
   * One raw candle, checked in the order the Go code touches it: element 0
   * must be a number, elements 1 to 5 are asserted to be strings (a failed
   * assertion or a missing element panics) and element 6 must be a number.
   * Price texts that do not parse give 0.
   */
  function RowToKline(row: seq<JValue>, parse: Parsers): Result<Kline, ExchangeError> {
    if |row| < 1 then Failure(Panic)
    else if !row[0].JNumber? then Failure(InvalidOpenTime)
    else if |row| < 7 || exists k :: 1 <= k < 6 && !row[k].JString? then Failure(Panic)
    else if !row[6].JNumber? then Failure(InvalidCloseTime)
    else
      Success(Kline(Trunc(row[0].num),
                    parse.float(row[1].str).GetOr(0.0), parse.float(row[2].str).GetOr(0.0),
                    parse.float(row[3].str).GetOr(0.0), parse.float(row[4].str).GetOr(0.0),
                    parse.float(row[5].str).GetOr(0.0),
                    Trunc(row[6].num)))
  }

  /** A row converts exactly when it is a well-typed candle of seven or more elements. */
  predicate WellTyped(row: seq<JValue>) {
    && |row| >= 7
    && row[0].JNumber? && row[6].JNumber?
    && forall k :: 1 <= k < 6 ==> row[k].JString?
  }

  /**
   * The outcome of one row: it converts exactly when well typed, and then the
   * times are the truncated numbers and the prices and volume are the parsed
   * elements 1 to 5, 0 when they do not parse. A bad first element is
   * reported before anything else is looked at, and a bad last element only
   * once the six before it have passed.
   */
  lemma RowOutcome(row: seq<JValue>, parse: Parsers)
    ensures RowToKline(row, parse).Success? <==> WellTyped(row)
    ensures |row| >= 1 && !row[0].JNumber? ==> RowToKline(row, parse) == Failure(InvalidOpenTime)
    ensures |row| >= 7 && row[0].JNumber? && (forall k :: 1 <= k < 6 ==> row[k].JString?) && !row[6].JNumber? ==>
      RowToKline(row, parse) == Failure(InvalidCloseTime)
    ensures WellTyped(row) ==>
      && RowToKline(row, parse).value.openTime == Trunc(row[0].num)
      && RowToKline(row, parse).value.open == parse.float(row[1].str).GetOr(0.0)
      && RowToKline(row, parse).value.high == parse.float(row[2].str).GetOr(0.0)
      && RowToKline(row, parse).value.low == parse.float(row[3].str).GetOr(0.0)
      && RowToKline(row, parse).value.close == parse.float(row[4].str).GetOr(0.0)
      && RowToKline(row, parse).value.volume == parse.float(row[5].str).GetOr(0.0)
      && RowToKline(row, parse).value.closeTime == Trunc(row[6].num)
  {
  }

  /** The rows converted front to back; the first failing row decides the error. */
  function ConvertRows(rows: seq<seq<JValue>>, parse: Parsers): Result<seq<Kline>, ExchangeError>
    decreases |rows|
  {
    if rows == [] then Success([])
    else
      match RowToKline(rows[0], parse)
      case Failure(e) => Failure(e)
      case Success(k) =>
        match ConvertRows(rows[1..], parse)
        case Failure(e) => Failure(e)
        case Success(ks) => Success([k] + ks)
  }

  /** What a decoded klines answer turns into. */
  function KlinesOutcome(response: Option<seq<seq<JValue>>>, parse: Parsers): Result<seq<Kline>, ExchangeError> {
    match response
    case None => Failure(TransportError)
    case Some(rows) => ConvertRows(rows, parse)
  }

  /** When every row converts, the candles are the rows' conversions in order. */
  lemma {:induction false} ConvertRowsAll(rows: seq<seq<JValue>>, parse: Parsers)
    requires forall m :: 0 <= m < |rows| ==> RowToKline(rows[m], parse).Success?
    ensures ConvertRows(rows, parse).Success?
    ensures |ConvertRows(rows, parse).value| == |rows|
    ensures forall m :: 0 <= m < |rows| ==>
      ConvertRows(rows, parse).value[m] == RowToKline(rows[m], parse).value
    decreases |rows|
  {
    if rows != [] {
      assert forall m :: 0 <= m < |rows| - 1 ==> rows[1..][m] == rows[m + 1];
      ConvertRowsAll(rows[1..], parse);
    }
  }

  /**
   * Otherwise the result is the error of the FIRST row that does not convert,
   * and no candle is returned.
   */
  lemma {:induction false} ConvertRowsFirstFailure(rows: seq<seq<JValue>>, parse: Parsers, i: nat)
    requires i < |rows| && RowToKline(rows[i], parse).Failure?
    requires forall m :: 0 <= m < i ==> RowToKline(rows[m], parse).Success?
    ensures ConvertRows(rows, parse) == Failure(RowToKline(rows[i], parse).error)
    decreases i
  {
    if i > 0 {
      assert forall m :: 0 <= m < |rows| - 1 ==> rows[1..][m] == rows[m + 1];
      ConvertRowsFirstFailure(rows[1..], parse, i - 1);
    }
  }

  /** One raw candle, converted as the loop body of `GetKlines` does it. */
  method ConvertRow(raw: seq<JValue>, parse: Parsers) returns (r: Result<Kline, ExchangeError>)
    ensures r == RowToKline(raw, parse)
  {
    if |raw| < 1 {
      return Failure(Panic);
    }
    if !raw[0].JNumber? {
      return Failure(InvalidOpenTime);
    }
    var openTimeMs := raw[0].num;
    var fields: seq<real> := [];
    for k := 1 to 6
      invariant |fields| == k - 1 && k - 1 < |raw|
      invariant forall q :: 1 <= q < k ==> raw[q].JString? && fields[q - 1] == parse.float(raw[q].str).GetOr(0.0)
    {
      if k >= |raw| || !raw[k].JString? {
        return Failure(Panic);
      }
      fields := fields + [parse.float(raw[k].str).GetOr(0.0)];
    }
    if |raw| < 7 {
      return Failure(Panic);
    }
    if !raw[6].JNumber? {
      return Failure(InvalidCloseTime);
    }
    var closeTimeMs := raw[6].num;
    r := Success(Kline(Trunc(openTimeMs), fields[0], fields[1], fields[2], fields[3], fields[4],
                       Trunc(closeTimeMs)));
  }

  /**
   * `GetKlines`: the interval is forwarded unchecked; the rows are converted
   * in order and the first bad row aborts with its error.
   */
  method GetKlines(symbol: string, interval: string, limit: int,
                   fetch: KlinesQuery -> Option<seq<seq<JValue>>>, parse: Parsers)
    returns (r: Result<seq<Kline>, ExchangeError>)
    ensures r == KlinesOutcome(fetch(KlinesQuery(symbol, interval, limit)), parse)
  {
    var response := fetch(KlinesQuery(symbol, interval, limit));
    if response.None? {
      return Failure(TransportError);
    }
    var rows := response.value;
    var klines: seq<Kline> := [];
    for i := 0 to |rows|
      invariant |klines| == i
      invariant forall m :: 0 <= m < i ==>
        RowToKline(rows[m], parse).Success? && klines[m] == RowToKline(rows[m], parse).value
    {
      var k := ConvertRow(rows[i], parse);
      if k.Failure? {
        ConvertRowsFirstFailure(rows, parse, i);
        return Failure(k.error);
      }
      klines := klines + [k.value];
    }
    ConvertRowsAll(rows, parse);
    assert klines == ConvertRows(rows, parse).value;
    r := Success(klines);
  }

  // ---------------------------------------------------------------------------
  // GetTopVolumeTickers

  datatype RawTicker = RawTicker(symbol: string, lastPrice: string, volume: string)

  /**
   * A raw row is kept when its price parses, then its volume parses, and its
   * symbol ends in "USDT"; the symbol is kept as it is.
   */
  function Survivor(raw: RawTicker, parse: Parsers): Option<Ticker> {
    match parse.float(raw.lastPrice)
    case None => None
    case Some(price) =>
      match parse.float(raw.volume)
      case None => None
      case Some(volume) =>
        if !HasSuffix(raw.symbol, "USDT") then None
        else Some(Ticker(raw.symbol, price, volume))
  }

  /** The kept tickers, in response order. */
  function Survivors(rows: seq<RawTicker>, parse: Parsers): seq<Ticker> {
    if rows == [] then []
    else
      var prev := Survivors(rows[..|rows| - 1], parse);
      match Survivor(rows[|rows| - 1], parse)
      case None => prev
      case Some(t) => prev + [t]
  }

  /**
   * A ticker is kept exactly when some row converts to it; its symbol is then
   * that row's symbol, ending in "USDT", with its parsed price and volume.
   */
  lemma {:induction false} SurvivorsExactly(rows: seq<RawTicker>, parse: Parsers, t: Ticker)
    ensures t in Survivors(rows, parse) <==> exists i :: 0 <= i < |rows| && Survivor(rows[i], parse) == Some(t)
    ensures t in Survivors(rows, parse) ==>
      exists i :: 0 <= i < |rows| && rows[i].symbol == t.symbol && HasSuffix(t.symbol, "USDT")
        && parse.float(rows[i].lastPrice) == Some(t.price) && parse.float(rows[i].volume) == Some(t.volume)
    decreases |rows|
  {
    if rows != [] {
      var init := rows[..|rows| - 1];
      SurvivorsExactly(init, parse, t);
      assert forall i :: 0 <= i < |init| ==> init[i] == rows[i];
    }
  }

  /**
   * `GetTopVolumeTickers`: USDT pairs whose price and volume parse, sorted by
   * descending volume and cut to `limit`; a negative limit panics when it cuts.
   */
  method GetTopVolumeTickers(limit: int, response: Option<seq<RawTicker>>, parse: Parsers)
    returns (r: Result<seq<Ticker>, ExchangeError>)
    ensures response.None? ==> r == Failure(TransportError)
    ensures response.Some? ==>
      && (r == Failure(Panic) <==> limit < 0)
      && (r.Success? <==> limit >= 0)
      && (r.Success? ==> IsTopN(r.value, Survivors(response.value, parse), limit))
  {
    if response.None? {
      return Failure(TransportError);
    }
    var rows := response.value;
    var tickers: seq<Ticker> := [];
    for i := 0 to |rows|
      invariant tickers == Survivors(rows[..i], parse)
    {
      assert rows[..i + 1][..i] == rows[..i];
      var raw := rows[i];
      var price := parse.float(raw.lastPrice);
      if price.None? {
        continue;
      }
      var volume := parse.float(raw.volume);
      if volume.None? {
        continue;
      }
      if !HasSuffix(raw.symbol, "USDT") {
        continue;
      }
      tickers := tickers + [Ticker(raw.symbol, price.value, volume.value)];
    }
    assert rows[..|rows|] == rows;
    r := TopByVolume(tickers, limit);
  }
}
