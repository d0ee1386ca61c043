/**
 * The OKEX client after JSON decoding: symbol and instrument-id translation,
 * the candle-interval table, and the post-processing of the three endpoints.
 * The HTTP exchange itself is a `fetch` function (or a decoded `response`)
 * whose `None` stands for any transport failure.
 */
module Okex {
  import opened Wrappers
  import opened GoStrings
  import opened Exchange
  import opened VolumeRanking

  // ---------------------------------------------------------------------------
  // Symbol <-> instId

  /**
   * The instId requested for a symbol: a symbol without '-' that ends in
   * "USDT" has its FIRST "USDT" replaced by "-USDT"; any other symbol is sent
   * as it is.
   */
  function InstId(symbol: string): string {
    if !ContainsChar(symbol, '-') && HasSuffix(symbol, "USDT") then
      ReplaceFirst(symbol, "USDT", "-USDT")
    else
      symbol
  }

  /** The symbol reported for a ticker: its instId with every '-' removed. */
  function TickerSymbol(instId: string): string {
    RemoveAll(instId, '-')
  }

  /** Symbols that already hold a '-' or do not end in "USDT" pass through unchanged. */
  lemma InstIdUnchanged(symbol: string)
    requires ContainsChar(symbol, '-') || !HasSuffix(symbol, "USDT")
    ensures InstId(symbol) == symbol
  {
  }

  /**
   * A symbol without '-' ending in "USDT": the dash goes in front of the first
   * "USDT", which need not be the final one.
   */
  lemma InstIdOfUsdtSymbol(symbol: string)
    requires !ContainsChar(symbol, '-') && HasSuffix(symbol, "USDT")
    ensures Index(symbol, "USDT").Some?
    ensures var k := Index(symbol, "USDT").value;
      && k <= |symbol| - 4
      && (forall j :: 0 <= j < k ==> !OccursAt(symbol, "USDT", j))
      && InstId(symbol) == symbol[..k] + "-USDT" + symbol[k + 4..]
  {
    assert OccursAt(symbol, "USDT", |symbol| - 4);
  }

  /** An occurrence of "USDT" lying wholly inside `b` is one in `b + "USDT"`. */
  lemma NoUsdtInsideBase(b: string, j: nat)
    requires Index(b, "USDT").None?
    requires j + 4 <= |b|
    ensures !OccursAt(b + "USDT", "USDT", j)
  {
    var s := b + "USDT";
    assert s[j..j + 4] == b[j..j + 4];
    assert !OccursAt(b, "USDT", j);
  }

  /** "USDT" cannot start inside `b` and end inside a "USDT" that follows it. */
  lemma NoUsdtAcrossSeam(b: string, j: nat)
    requires j < |b| < j + 4
    ensures !OccursAt(b + "USDT", "USDT", j)
  {
    var s := b + "USDT";
    var d := |b| - j;
    assert s[|b|] == 'U';
    assert "USDT"[d] != 'U';
    assert j + 4 <= |s| ==> s[j..j + 4][d] == s[|b|];
  }

  /** The first "USDT" of `b + "USDT"` is the appended one when `b` has none. */
  lemma FirstUsdtAfterBase(b: string)
    requires Index(b, "USDT").None?
    ensures Index(b + "USDT", "USDT") == Some(|b|)
  {
    var s := b + "USDT";
    assert OccursAt(s, "USDT", |b|) by { assert s[|b|..|b| + 4] == "USDT"; }
    forall j | 0 <= j < |b|
      ensures !OccursAt(s, "USDT", j)
    {
      if j + 4 <= |b| {
        NoUsdtInsideBase(b, j);
      } else {
        NoUsdtAcrossSeam(b, j);
      }
    }
  }

  /** The ticker symbol of an instId B + "-USDT" is B with its dashes removed, followed by "USDT". */
  lemma TickerSymbolOfUsdtPair(b: string)
    ensures TickerSymbol(b + "-USDT") == RemoveAll(b, '-') + "USDT"
  {
    RemoveAllAppend(b, "-USDT", '-');
    assert "-USDT"[1..] == "USDT";
    RemoveAllAbsent("USDT", '-');
  }

  /**
   * The only '-' in a translated USDT symbol is the one inserted at the first
   * "USDT".
   */
  lemma SingleDash(symbol: string)
    requires !ContainsChar(symbol, '-') && HasSuffix(symbol, "USDT")
    ensures Index(symbol, "USDT").Some? && var k := Index(symbol, "USDT").value;
      forall i :: 0 <= i < |InstId(symbol)| && InstId(symbol)[i] == '-' ==> i == k
  {
    InstIdOfUsdtSymbol(symbol);
  }

  /**
   * instId -> symbol -> instId returns the original instId B + "-USDT"
   * exactly when B holds neither '-' nor "USDT".
   */
  lemma {:induction false} RoundTripIff(b: string)
    ensures InstId(TickerSymbol(b + "-USDT")) == b + "-USDT"
      <==> ('-' !in b && Index(b, "USDT").None?)
  {
    var instId := b + "-USDT";
    var sym := TickerSymbol(instId);
    TickerSymbolOfUsdtPair(b);
    assert HasSuffix(sym, "USDT");
    InstIdOfUsdtSymbol(sym);
    var k := Index(sym, "USDT").value;
    var out := InstId(sym);
    if '-' !in b && Index(b, "USDT").None? {
      RemoveAllAbsent(b, '-');
      FirstUsdtAfterBase(b);
      assert sym[..|b|] == b && sym[|b| + 4..] == [];
    } else if '-' in b {
      var p :| 0 <= p < |b| && b[p] == '-';
      SingleDash(sym);
      if |out| == |instId| {
        assert instId[p] == '-' && instId[|b|] == '-';
        assert out[p] != '-' || out[|b|] != '-';
      }
      assert out != instId;
    } else {
      RemoveAllAbsent(b, '-');
      var j := Index(b, "USDT").value;
      assert sym[j..j + 4] == b[j..j + 4];
      assert OccursAt(sym, "USDT", j);
      assert k <= j < |b|;
      assert out[k] == '-';
      assert instId[k] == b[k];
    }
  }

  /** BTC-USDT style instIds survive the round trip. */
  lemma RoundTripOfCanonicalPair(b: string)
    requires '-' !in b && Index(b, "USDT").None?
    ensures InstId(TickerSymbol(b + "-USDT")) == b + "-USDT"
    ensures InstId(b + "USDT") == b + "-USDT"
  {
    RoundTripIff(b);
    TickerSymbolOfUsdtPair(b);
    RemoveAllAbsent(b, '-');
  }

  /** An instId X-Y-USDT whose base holds a '-' comes back as XY-USDT. */
  lemma DashedBaseBreaksRoundTrip(x: string, y: string)
    requires '-' !in x + y && Index(x + y, "USDT").None?
    ensures InstId(TickerSymbol(x + "-" + y + "-USDT")) == x + y + "-USDT"
    ensures x + y + "-USDT" != x + "-" + y + "-USDT"
  {
    var b := x + "-" + y;
    assert x + "-" + y + "-USDT" == b + "-USDT";
    TickerSymbolOfUsdtPair(b);
    RemoveAllAppend(x + "-", y, '-');
    RemoveAllAppend(x, "-", '-');
    RemoveAllAbsent(x, '-');
    RemoveAllAbsent(y, '-');
    assert RemoveAll("-", '-') == [];
    assert RemoveAll(b, '-') == x + y;
    RoundTripOfCanonicalPair(x + y);
    assert |x + y + "-USDT"| != |x + "-" + y + "-USDT"|;
  }

  /** An instId USDT+X-USDT gets its dash in front: -USDTXUSDT. */
  lemma EmbeddedQuoteBreaksRoundTrip(x: string)
    requires '-' !in x
    ensures InstId(TickerSymbol("USDT" + x + "-USDT")) == "-USDT" + x + "USDT"
  {
    var b := "USDT" + x;
    assert "USDT" + x + "-USDT" == b + "-USDT";
    TickerSymbolOfUsdtPair(b);
    RemoveAllAbsent(b, '-');
    var sym := b + "USDT";
    assert OccursAt(sym, "USDT", 0) by { assert sym[0..4] == "USDT"; }
    assert Index(sym, "USDT") == Some(0);
    InstIdOfUsdtSymbol(sym);
    assert sym[..0] + "-USDT" + sym[4..] == "-USDT" + x + "USDT";
  }

  // ---------------------------------------------------------------------------
  // Candle intervals

  /** The interval table of `GetKlines`: the only intervals OKEX is asked for. */
  const Intervals: map<string, string> := map[
    "1m" := "1m", "5m" := "5m", "15m" := "15m", "30m" := "30m",
    "1h" := "1H", "4h" := "4H", "1d" := "1D"]

  /** OKEX writes hour and day bars with an upper-case unit. */
  function UpperUnit(interval: string): string {
    if interval == [] then []
    else
      var unit := interval[|interval| - 1];
      interval[..|interval| - 1] + [if unit == 'h' then 'H' else if unit == 'd' then 'D' else unit]
  }

  /** The supported intervals are exactly these seven. */
  lemma IntervalKeys()
    ensures Intervals.Keys == {"1m", "5m", "15m", "30m", "1h", "4h", "1d"}
  {
  }

  /** Every supported interval maps to itself with its unit upper-cased for hours and days. */
  lemma IntervalBars()
    ensures forall i :: i in Intervals ==> Intervals[i] == UpperUnit(i)
  {
    forall i | i in Intervals
      ensures Intervals[i] == UpperUnit(i)
    {
      IntervalKeys();
      assert i[..|i| - 1] + [i[|i| - 1]] == i;
    }
  }

  /** Intervals the exchange offers but the table omits are refused, and so is OKEX's own spelling. */
  lemma IntervalsRefused()
    ensures "3m" !in Intervals && "2h" !in Intervals && "12h" !in Intervals
    ensures "1w" !in Intervals && "1M" !in Intervals && "1D" !in Intervals
  {
    IntervalKeys();
  }

  // ---------------------------------------------------------------------------
  // GetLatestPrice

  datatype TickerEntry = TickerEntry(instId: string, last: string)
  datatype TickerPayload = TickerPayload(code: string, msg: string, data: seq<TickerEntry>)

  /**
   * `GetLatestPrice`: the ticker of `InstId(symbol)` is fetched; a code other
   * than "0" or an empty data list is an API error; otherwise the first
   * entry's `last` is parsed.
   */
  function GetLatestPrice(symbol: string, fetch: string -> Option<TickerPayload>, parse: Parsers)
    : Result<real, ExchangeError>
  {
    match fetch(InstId(symbol))
    case None => Failure(TransportError)
    case Some(p) =>
      if p.code != "0" || |p.data| == 0 then Failure(ApiError(p.code, p.msg))
      else
        match parse.float(p.data[0].last)
        case None => Failure(PriceParseError)
        case Some(price) => Success(price)
  }

  /**
   * The price is returned exactly when the payload arrived with code "0", a
   * non-empty data list and a parseable first `last`; the entry's own instId
   * is not compared with the request.
   */
  lemma LatestPriceOutcome(symbol: string, fetch: string -> Option<TickerPayload>, parse: Parsers)
    ensures var r := GetLatestPrice(symbol, fetch, parse);
      var resp := fetch(InstId(symbol));
      && (resp.None? ==> r == Failure(TransportError))
      && (resp.Some? && (resp.value.code != "0" || resp.value.data == []) ==>
            r == Failure(ApiError(resp.value.code, resp.value.msg)))
      && (r.Success? <==>
            resp.Some? && resp.value.code == "0" && resp.value.data != []
            && parse.float(resp.value.data[0].last).Some?)
      && (r.Success? ==> r.value == parse.float(resp.value.data[0].last).value)
  {
  }

  // ---------------------------------------------------------------------------
  // GetKlines

  datatype CandlesQuery = CandlesQuery(instId: string, bar: string, limit: int)
  datatype CandlesPayload = CandlesPayload(code: string, msg: string, data: seq<seq<string>>)

  /** One candle row; parse errors are ignored and give the zero value. */
  function CandleOf(row: seq<string>, parse: Parsers): Kline
    requires |row| >= 6
  {
    var openTimeMs := parse.integer(row[0]).GetOr(0);
    Kline(openTimeMs, parse.float(row[1]).GetOr(0.0), parse.float(row[2]).GetOr(0.0),
          parse.float(row[3]).GetOr(0.0), parse.float(row[4]).GetOr(0.0),
          parse.float(row[5]).GetOr(0.0), openTimeMs)
  }

  /** What a decoded candles payload turns into. */
  function CandlesOutcome(response: Option<CandlesPayload>, parse: Parsers): Result<seq<Kline>, ExchangeError> {
    match response
    case None => Failure(TransportError)
    case Some(p) =>
      if p.code != "0" then Failure(ApiError(p.code, p.msg))
      else if exists i :: 0 <= i < |p.data| && |p.data[i]| < 6 then Failure(Panic)
      else Success(seq(|p.data|, i requires 0 <= i < |p.data| => CandleOf(p.data[i], parse)))
  }

  /**
   * A successful conversion has one candle per row, in response order, whose
   * close time is its open time and whose fields are the parsed row fields.
   */
  lemma CandlesOneToOne(response: Option<CandlesPayload>, parse: Parsers)
    requires CandlesOutcome(response, parse).Success?
    ensures var ks := CandlesOutcome(response, parse).value;
      var rows := response.value.data;
      && |ks| == |rows|
      && forall i :: 0 <= i < |ks| ==>
           && |rows[i]| >= 6
           && ks[i].closeTime == ks[i].openTime
           && ks[i].openTime == parse.integer(rows[i][0]).GetOr(0)
           && ks[i].open == parse.float(rows[i][1]).GetOr(0.0)
           && ks[i].high == parse.float(rows[i][2]).GetOr(0.0)
           && ks[i].low == parse.float(rows[i][3]).GetOr(0.0)
           && ks[i].close == parse.float(rows[i][4]).GetOr(0.0)
           && ks[i].volume == parse.float(rows[i][5]).GetOr(0.0)
  {
  }

  /**
   * `GetKlines`: an interval outside the table fails before any request;
   * otherwise candles of `InstId(symbol)` at the mapped bar are fetched and
   * converted row by row.
   */
  method GetKlines(symbol: string, interval: string, limit: int,
                   fetch: CandlesQuery -> Option<CandlesPayload>, parse: Parsers)
    returns (r: Result<seq<Kline>, ExchangeError>)
    ensures interval !in Intervals ==> r == Failure(UnsupportedInterval(interval))
    ensures interval in Intervals ==>
      r == CandlesOutcome(fetch(CandlesQuery(InstId(symbol), Intervals[interval], limit)), parse)
  {
    if interval !in Intervals {
      return Failure(UnsupportedInterval(interval));
    }
    var bar := Intervals[interval];
    var response := fetch(CandlesQuery(InstId(symbol), bar, limit));
    if response.None? {
      return Failure(TransportError);
    }
    var p := response.value;
    if p.code != "0" {
      return Failure(ApiError(p.code, p.msg));
    }
    var klines: seq<Kline> := [];
    for i := 0 to |p.data|
      invariant |klines| == i
      invariant forall m :: 0 <= m < i ==> |p.data[m]| >= 6 && klines[m] == CandleOf(p.data[m], parse)
    {
      var raw := p.data[i];
      if |raw| < 6 {
        assert |p.data[i]| < 6;
        return Failure(Panic);
      }
      var openTimeMs := parse.integer(raw[0]).GetOr(0);
      var open := parse.float(raw[1]).GetOr(0.0);
      var high := parse.float(raw[2]).GetOr(0.0);
      var low := parse.float(raw[3]).GetOr(0.0);
      var close := parse.float(raw[4]).GetOr(0.0);
      var volume := parse.float(raw[5]).GetOr(0.0);
      klines := klines + [Kline(openTimeMs, open, high, low, close, volume, openTimeMs)];
    }
    assert klines == seq(|p.data|, i requires 0 <= i < |p.data| => CandleOf(p.data[i], parse));
    r := Success(klines);
  }

  // ---------------------------------------------------------------------------
  // GetTopVolumeTickers

  datatype RawTicker = RawTicker(instId: string, last: string, volCcy24h: string)
  datatype TickersPayload = TickersPayload(code: string, msg: string, data: seq<RawTicker>)

  /** A raw row is kept when its instId ends in "-USDT" and both numbers parse. */
  function Survivor(raw: RawTicker, parse: Parsers): Option<Ticker> {
    if !HasSuffix(raw.instId, "-USDT") then None
    else
      match parse.float(raw.last)
      case None => None
      case Some(price) =>
        match parse.float(raw.volCcy24h)
        case None => None
        case Some(volume) => Some(Ticker(TickerSymbol(raw.instId), price, volume))
  }

  /** The kept tickers, in response order. */
  function Survivors(rows: seq<RawTicker>, parse: Parsers): seq<Ticker> {
    if rows == [] then []
    else
      var prev := Survivors(rows[..|rows| - 1], parse);
      match Survivor(rows[|rows| - 1], parse)
      case None => prev
      case Some(t) => prev + [t]
  }

  /**
   * A ticker is kept exactly when some row qualifies and converts to it; its
   * symbol is then dash-free and ends in "USDT".
   */
  lemma {:induction false} SurvivorsExactly(rows: seq<RawTicker>, parse: Parsers, t: Ticker)
    ensures t in Survivors(rows, parse) <==> exists i :: 0 <= i < |rows| && Survivor(rows[i], parse) == Some(t)
    ensures t in Survivors(rows, parse) ==> '-' !in t.symbol && HasSuffix(t.symbol, "USDT")
    decreases |rows|
  {
    if rows != [] {
      var init := rows[..|rows| - 1];
      SurvivorsExactly(init, parse, t);
      assert forall i :: 0 <= i < |init| ==> init[i] == rows[i];
      if Survivor(rows[|rows| - 1], parse) == Some(t) {
        var raw := rows[|rows| - 1];
        var b := raw.instId[..|raw.instId| - 5];
        assert raw.instId == b + "-USDT";
        TickerSymbolOfUsdtPair(b);
      }
    }
  }

  /**
   * `GetTopVolumeTickers`: USDT pairs whose price and volume parse, sorted by
   * descending volume and cut to `limit`.
   */
  method GetTopVolumeTickers(limit: int, response: Option<TickersPayload>, parse: Parsers)
    returns (r: Result<seq<Ticker>, ExchangeError>)
    ensures response.None? ==> r == Failure(TransportError)
    ensures response.Some? && response.value.code != "0" ==>
      r == Failure(ApiError(response.value.code, response.value.msg))
    ensures response.Some? && response.value.code == "0" ==>
      && (r == Failure(Panic) <==> limit < 0)
      && (r.Success? <==> limit >= 0)
      && (r.Success? ==> IsTopN(r.value, Survivors(response.value.data, parse), limit))
  {
    if response.None? {
      return Failure(TransportError);
    }
    var p := response.value;
    if p.code != "0" {
      return Failure(ApiError(p.code, p.msg));
    }
    var tickers: seq<Ticker> := [];
    for i := 0 to |p.data|
      invariant tickers == Survivors(p.data[..i], parse)
    {
      assert p.data[..i + 1][..i] == p.data[..i];
      var raw := p.data[i];
      if !HasSuffix(raw.instId, "-USDT") {
        continue;
      }
      var price := parse.float(raw.last);
      if price.None? {
        continue;
      }
      var volume := parse.float(raw.volCcy24h);
      if volume.None? {
        continue;
      }
      tickers := tickers + [Ticker(TickerSymbol(raw.instId), price.value, volume.value)];
    }
    assert p.data[..|p.data|] == p.data;
    r := TopByVolume(tickers, limit);
  }
}
