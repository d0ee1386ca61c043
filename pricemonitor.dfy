/**
 * `PriceMonitorService`: one monitoring pass over the exchange clients, with
 * the price store updated in place. Each method is proved to do what the
 * corresponding function of `MonitorSpec` says.
 */
module PriceMonitor {
  import opened Wrappers
  import opened Exchange
  import opened Repository
  import opened MonitorSpec

  /** How a pass ends: `RunMonitor` returns an error or nil, or a panic unwinds it. */
  datatype RunOutcome = Returned(err: Option<ContextError>) | Unwound

  class PriceMonitorService {
    const store: PriceStore
    const exchangeClients: map<string, Client>
    const settings: Settings

    /** `NewPriceMonitorService`: the two clients are registered as "BINANCE" and "OKEX". */
    constructor (store: PriceStore, binanceClient: Client, okexClient: Client, settings: Settings)
      ensures this.store == store && this.settings == settings
      ensures this.exchangeClients == map["BINANCE" := binanceClient, "OKEX" := okexClient]
      ensures this.exchangeClients.Keys == {"BINANCE", "OKEX"}
    {
      this.store := store;
      this.exchangeClients := map["BINANCE" := binanceClient, "OKEX" := okexClient];
      this.settings := settings;
    }

    /** `CalculateAveragePrice`: 0 for an empty slice, otherwise the sum over the length. */
    method CalculateAveragePrice(prices: seq<real>) returns (avg: real)
      ensures avg == Mean(prices)
    {
      if |prices| == 0 {
        return 0.0;
      }
      var sum := 0.0;
      for i := 0 to |prices|
        invariant sum == Sum(prices[..i])
      {
        assert prices[..i + 1][..i] == prices[..i];
        sum := sum + prices[i];
      }
      assert prices[..|prices|] == prices;
      avg := sum / |prices| as real;
    }

    /** The closing prices of the candles, collected in order. */
    method ClosePrices(klines: seq<Kline>) returns (closePrices: seq<real>)
      ensures closePrices == Closes(klines)
    {
      closePrices := [];
      for m := 0 to |klines|
        invariant closePrices == Closes(klines[..m])
      {
        closePrices := closePrices + [klines[m].close];
      }
      assert klines[..|klines|] == klines;
    }

    /**
     * `FetchAndStorePrice`; `k` numbers this store within the pass. The price
     * is 0 whenever an error is returned.
     */
    method FetchAndStorePrice(client: Client, symbol: string, exchangeName: string, env: Env, k: nat)
      returns (price: real, err: Option<StoreError>)
      requires store.Valid()
      modifies store
      ensures store.Valid()
      ensures var (res, table) := FetchAndStore(client, symbol, exchangeName, env, old(store.State()), k);
        && store.State() == table
        && (res.Success? ==> err.None? && price == res.value)
        && (res.Failure? ==> err == Some(res.error) && price == 0.0)
    {
      var latest := client.latestPrice(symbol);
      if latest.Failure? {
        return 0.0, Some(FetchFailed(latest.error));
      }
      var currentTime := env.clockMs(k);
      var exchangePrice := new ExchangePrice(symbol, exchangeName, latest.value, currentTime);
      var upsertErr := store.UpsertExchangePrice(exchangePrice, env.dbAccepts(k), env.writeClockMs(k));
      if upsertErr.Some? {
        return 0.0, Some(UpsertRefused);
      }
      price, err := latest.value, None;
    }

    /**
     * Steps 1 to 4 of the ticker loop for one symbol; `outcome` is `Skipped`
     * when the loop would `continue` before reaching the delay and `Panicked`
     * when a client call panicked, which unwinds the whole pass.
     */
    method MonitorSymbol(client: Client, exchangeName: string, symbol: string, env: Env,
                         checks: nat, stores: nat, alerts: nat, ghost trace: seq<Event>)
      returns (stores': nat, alerts': nat, ghost trace': seq<Event>, outcome: SymbolEnd)
      requires store.Valid()
      modifies store
      ensures store.Valid()
      ensures ProcessSymbol(client, exchangeName, symbol, settings, env,
                            PassState(old(store.State()), trace, checks, stores, alerts))
           == (PassState(store.State(), trace', checks, stores', alerts'), outcome)
    {
      stores', alerts', trace', outcome := stores, alerts, trace, Skipped;
      ghost var stored := FetchAndStore(client, symbol, exchangeName, env, store.State(), stores);
      var latestPrice, err := FetchAndStorePrice(client, symbol, exchangeName, env, stores);
      assert store.State() == stored.1;
      if !(err.Some? && err.value.FetchFailed?) {
        stores' := stores + 1;
      }
      if err == Some(FetchFailed(Panic)) {
        return stores', alerts', trace', Panicked;
      }
      if err.Some? {
        assert stored.0 == Failure(err.value);
        trace' := trace' + [SkippedSymbol(exchangeName, symbol, PriceFailed(err.value))];
        return;
      }
      trace' := trace' + [Stored(symbol, exchangeName, latestPrice, env.clockMs(stores))];
      var klines := client.klines(symbol, KlineInterval, KlineLimit);
      if klines == Failure(Panic) {
        return stores', alerts', trace', Panicked;
      }
      if klines.Failure? {
        trace' := trace' + [SkippedSymbol(exchangeName, symbol, KlinesFailed(klines.error))];
        return;
      }
      if |klines.value| == 0 {
        trace' := trace' + [SkippedSymbol(exchangeName, symbol, NoKlines)];
        return;
      }
      var closePrices := ClosePrices(klines.value);
      var averagePrice := CalculateAveragePrice(closePrices);
      if averagePrice > 0.0 && latestPrice < averagePrice * (1.0 - settings.defaultThreshold) {
        var dropPercentage := (1.0 - latestPrice / averagePrice) * 100.0;
        var delivered := env.notifierAccepts(alerts);
        trace' := trace' + [Alerted(Alert(symbol, exchangeName, latestPrice, averagePrice, dropPercentage, settings.defaultThreshold), delivered)];
        alerts' := alerts + 1;
      }
      outcome := Completed;
    }

    /**
     * One turn of the ticker loop of `RunMonitor`: a checkpoint, the symbol,
     * and, when it got through, the delay with its own checkpoint. `ending`
     * says whether the pass goes on, returns because a checkpoint found the
     * context done, or unwinds because a client call panicked.
     */
    method MonitorTicker(client: Client, exchangeName: string, ts: seq<Ticker>, i: nat, env: Env,
                         checks: nat, stores: nat, alerts: nat, ghost trace: seq<Event>)
      returns (ending: Ending, checks': nat, stores': nat, alerts': nat, ghost trace': seq<Event>)
      requires i < |ts| && store.Valid()
      modifies store
      ensures store.Valid()
      ensures TickerStep(client, exchangeName, ts, i, settings, env, PassState(old(store.State()), trace, checks, stores, alerts))
           == WithEnding(ending, PassState(store.State(), trace', checks', stores', alerts'))
    {
      ending, checks', stores', alerts', trace' := Runs, checks, stores, alerts, trace;
      if Done(env, checks') {
        return Stops, checks' + 1, stores', alerts', trace';
      }
      checks' := checks' + 1;
      var outcome;
      stores', alerts', trace', outcome := MonitorSymbol(client, exchangeName, ts[i].symbol, env, checks', stores', alerts', trace');
      if outcome == Panicked {
        return Aborts, checks', stores', alerts', trace';
      }
      if outcome == Completed && settings.apiRequestDelayMs > 0 && i < |ts| - 1 {
        trace' := trace' + [Delayed(exchangeName, i)];
        if Done(env, checks') {
          return Stops, checks' + 1, stores', alerts', trace';
        }
        checks' := checks' + 1;
      }
    }

    /** The ticker loop of `RunMonitor` for one exchange, until a checkpoint or a panic ends the pass. */
    method MonitorTickers(client: Client, exchangeName: string, ts: seq<Ticker>, env: Env,
                          checks: nat, stores: nat, alerts: nat, ghost trace: seq<Event>)
      returns (ending: Ending, checks': nat, stores': nat, alerts': nat, ghost trace': seq<Event>)
      requires store.Valid()
      modifies store
      ensures store.Valid()
      ensures Tickers(client, exchangeName, ts, |ts|, settings, env, PassState(old(store.State()), trace, checks, stores, alerts))
           == WithEnding(ending, PassState(store.State(), trace', checks', stores', alerts'))
    {
      ghost var stE := PassState(store.State(), trace, checks, stores, alerts);
      ending, checks', stores', alerts', trace' := Runs, checks, stores, alerts, trace;
      for i := 0 to |ts|
        invariant store.Valid() && ending == Runs
        invariant Tickers(client, exchangeName, ts, i, settings, env, stE)
               == Running(PassState(store.State(), trace', checks', stores', alerts'))
      {
        ending, checks', stores', alerts', trace' := MonitorTicker(client, exchangeName, ts, i, env, checks', stores', alerts', trace');
        if ending != Runs {
          TickersHaltSticks(client, exchangeName, ts, i + 1, |ts|, settings, env, stE);
          return;
        }
      }
    }

    /**
     * The body of the exchange loop of `RunMonitor`: the top tickers, or a
     * skip when they cannot be had or there are none, then the ticker loop.
     * A panic while ranking the tickers unwinds the pass.
     */
    method MonitorExchange(client: Client, exchangeName: string, env: Env,
                           checks: nat, stores: nat, alerts: nat, ghost trace: seq<Event>)
      returns (ending: Ending, checks': nat, stores': nat, alerts': nat, ghost trace': seq<Event>)
      requires store.Valid()
      modifies store
      ensures store.Valid()
      ensures ExchangeStep(client, exchangeName, settings, env, PassState(old(store.State()), trace, checks, stores, alerts))
           == WithEnding(ending, PassState(store.State(), trace', checks', stores', alerts'))
    {
      ending, checks', stores', alerts', trace' := Runs, checks, stores, alerts, trace;
      var tickers := client.topVolumeTickers(settings.topNSymbols);
      if tickers == Failure(Panic) {
        return Aborts, checks', stores', alerts', trace';
      }
      if tickers.Failure? {
        trace' := trace + [SkippedExchange(exchangeName, TickersFailed(tickers.error))];
        return;
      }
      if |tickers.value| == 0 {
        trace' := trace + [SkippedExchange(exchangeName, NoTickers)];
        return;
      }
      ending, checks', stores', alerts', trace' := MonitorTickers(client, exchangeName, tickers.value, env, checks, stores, alerts, trace);
    }

    /**
     * `RunMonitor`: the exchanges are visited in `order` (Go's map order, any
     * permutation of the client names). It returns the context's error at the
     * first checkpoint that finds the context done, and nil when the pass
     * runs to its end; a panicking client call instead unwinds it.
     */
    method RunMonitor(env: Env, order: seq<string>) returns (outcome: RunOutcome, ghost trace: seq<Event>)
      requires store.Valid()
      requires forall j :: 0 <= j < |order| ==> order[j] in exchangeClients
      requires forall name :: name in exchangeClients ==> name in order
      requires forall i, j :: 0 <= i < j < |order| ==> order[i] != order[j]
      modifies store
      ensures store.Valid()
      ensures var out := MonitorPass(exchangeClients, order, settings, env, old(store.State()));
        && store.State() == out.state.table
        && trace == out.state.trace
        && outcome == (if out.Running? then Returned(None)
                       else if out.Stopped? then Returned(Some(env.cause))
                       else Unwound)
    {
      ghost var st0 := PassState(store.State(), [], 0, 0, 0);
      var checks, stores, alerts := 0, 0, 0;
      trace := [];
      for j := 0 to |order|
        invariant store.Valid()
        invariant Exchanges(exchangeClients, order, j, settings, env, st0)
               == Running(PassState(store.State(), trace, checks, stores, alerts))
      {
        var exchangeName := order[j];
        var ending;
        ending, checks, stores, alerts, trace :=
          MonitorExchange(exchangeClients[exchangeName], exchangeName, env, checks, stores, alerts, trace);
        if ending != Runs {
          ExchangesHaltSticks(exchangeClients, order, j + 1, |order|, settings, env, st0);
          outcome := if ending == Stops then Returned(Some(env.cause)) else Unwound;
          return;
        }
      }
      outcome := Returned(None);
    }
  }
}
