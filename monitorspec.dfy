/**
 * What one `RunMonitor` pass does, as functions of its inputs: the exchange
 * clients, the settings, and the outside world of the pass (context
 * cancellation, clock, database and notifier), which answers each call by
 * its position in the pass. The `PriceMonitorService` class is proved to
 * follow these functions; the lemmas here state what a pass guarantees.
 */
module MonitorSpec {
  import opened Wrappers
  import opened Exchange
  import opened Repository

  /** Candles are always daily ones, thirty of them. */
  const KlineInterval: string := "1d"
  const KlineLimit: int := 30

  // ---------------------------------------------------------------------------
  // Averages and the alert rule

  function Sum(xs: seq<real>): real {
    if xs == [] then 0.0 else Sum(xs[..|xs| - 1]) + xs[|xs| - 1]
  }

  /** `CalculateAveragePrice`: 0 for no prices, otherwise the arithmetic mean. */
  function Mean(xs: seq<real>): real {
    if |xs| == 0 then 0.0 else Sum(xs) / |xs| as real
  }

  lemma {:induction false} SumBounds(xs: seq<real>, lo: real, hi: real)
    requires forall i :: 0 <= i < |xs| ==> lo <= xs[i] <= hi
    ensures |xs| as real * lo <= Sum(xs) <= |xs| as real * hi
    decreases |xs|
  {
    if xs != [] {
      SumBounds(xs[..|xs| - 1], lo, hi);
    }
  }

  /** A mean lies between the smallest and the largest of the prices. */
  lemma MeanBounds(xs: seq<real>, lo: real, hi: real)
    requires xs != [] && forall i :: 0 <= i < |xs| ==> lo <= xs[i] <= hi
    ensures lo <= Mean(xs) <= hi
  {
    SumBounds(xs, lo, hi);
    var n := |xs| as real;
    assert Sum(xs) / n * n == Sum(xs);
  }

  /** The mean of prices that are all equal is that price; no prices give 0. */
  lemma MeanOfConstant(xs: seq<real>, c: real)
    requires forall i :: 0 <= i < |xs| ==> xs[i] == c
    ensures Mean(xs) == if xs == [] then 0.0 else c
  {
    if xs != [] {
      MeanBounds(xs, c, c);
    }
  }

  /** The closing prices of the candles, in order. */
  function Closes(ks: seq<Kline>): (cs: seq<real>)
    ensures |cs| == |ks| && forall i :: 0 <= i < |ks| ==> cs[i] == ks[i].close
  {
    seq(|ks|, i requires 0 <= i < |ks| => ks[i].close)
  }

  /** The alert rule: the latest price is below the average by more than the threshold. */
  predicate ShouldAlert(latest: real, average: real, threshold: real) {
    average > 0.0 && latest < average * (1.0 - threshold)
  }

  /** The reported drop, in percent of the average. */
  function DropPercentage(latest: real, average: real): real
    requires average != 0.0
  {
    (1.0 - latest / average) * 100.0
  }

  /** An alert fires exactly when the average is positive and the drop exceeds the threshold in percent. */
  lemma AlertIffDropExceedsThreshold(latest: real, average: real, threshold: real)
    ensures ShouldAlert(latest, average, threshold) <==>
      average > 0.0 && DropPercentage(latest, average) > threshold * 100.0
  {
    if average > 0.0 {
      var q := latest / average;
      var d := (1.0 - threshold) - q;
      assert latest == q * average;
      assert d * average == average * (1.0 - threshold) - latest;
      if d > 0.0 {
        assert d * average > 0.0;
      } else {
        assert -d * average >= 0.0;
      }
      assert DropPercentage(latest, average) - threshold * 100.0 == d * 100.0;
    }
  }

  /** With average 100 and threshold 0.20, 79 alerts with a 21% drop and 85 does not. */
  lemma AlertExamples()
    ensures ShouldAlert(79.0, 100.0, 0.2) && DropPercentage(79.0, 100.0) == 21.0
    ensures !ShouldAlert(85.0, 100.0, 0.2)
    ensures !ShouldAlert(80.0, 100.0, 0.2)
  {
  }

  // ---------------------------------------------------------------------------
  // The outside world of one pass

  datatype Settings = Settings(defaultThreshold: real, topNSymbols: int, apiRequestDelayMs: int)

  /** `ctx.Err()` once the context is done. */
  datatype ContextError = Canceled | DeadlineExceeded

  /**
   * The answers of everything outside the service, by call number within the
   * pass: the context is done at every cancellation checkpoint numbered
   * `doneFrom` or later; the k-th stored price is stamped `clockMs(k)`, the
   * database accepts it when `dbAccepts(k)` and stamps it `writeClockMs(k)`;
   * the k-th alert is delivered when `notifierAccepts(k)`.
   */
  datatype Env = Env(
    doneFrom: Option<nat>,
    cause: ContextError,
    clockMs: nat -> int,
    dbAccepts: nat -> bool,
    writeClockMs: nat -> int,
    notifierAccepts: nat -> bool)

  predicate Done(env: Env, checkpoint: nat) {
    env.doneFrom.Some? && checkpoint >= env.doneFrom.value
  }

  // ---------------------------------------------------------------------------
  // Events and the state of a pass

  datatype StoreError = FetchFailed(cause: ExchangeError) | UpsertRefused

  datatype SkipReason =
    | TickersFailed(tickersError: ExchangeError)
    | NoTickers
    | PriceFailed(storeError: StoreError)
    | KlinesFailed(klinesError: ExchangeError)
    | NoKlines

  /** What the drop alert reports: the prices, the drop in percent and the threshold it was judged by. */
  datatype Alert = Alert(symbol: string, exchange: string, latest: real, average: real, dropPercentage: real,
                         threshold: real)

  datatype Event =
    | Stored(symbol: string, exchange: string, price: real, timestamp: int)
    | Alerted(alert: Alert, delivered: bool)
    | Delayed(exchange: string, afterTicker: nat)
    | SkippedExchange(exchange: string, reason: SkipReason)
    | SkippedSymbol(exchange: string, symbol: string, reason: SkipReason)

  /** The table, the events so far, and how many checkpoints, stores and alerts were made. */
  datatype PassState = PassState(table: Table, trace: seq<Event>, checks: nat, stores: nat, alerts: nat)

  /**
   * A pass either goes on, has returned the context error, or is unwinding
   * from a panic raised inside a client call (nothing in `RunMonitor`
   * recovers it).
   */
  datatype Progress = Running(state: PassState) | Stopped(state: PassState) | Aborted(state: PassState)

  /** How a loop turn of the service ended, as its methods report it. */
  datatype Ending = Runs | Stops | Aborts

  function WithEnding(e: Ending, st: PassState): (p: Progress)
    ensures p.state == st && (p.Running? <==> e == Runs) && (p.Stopped? <==> e == Stops)
  {
    match e
    case Runs => Running(st)
    case Stops => Stopped(st)
    case Aborts => Aborted(st)
  }

  /** How one symbol ended: skipped with a logged reason, through to the alert check, or panicking. */
  datatype SymbolEnd = Skipped | Completed | Panicked

  // ---------------------------------------------------------------------------
  // One pass

  /**
   * `FetchAndStorePrice`: the price is fetched; only then is a record of it
   * stamped with the clock and upserted; the price is returned only when the
   * upsert succeeded.
   */
  function FetchAndStore(client: Client, symbol: string, exchangeName: string, env: Env, table: Table, k: nat)
    : (Result<real, StoreError>, Table)
  {
    match client.latestPrice(symbol)
    case Failure(e) => (Failure(FetchFailed(e)), table)
    case Success(price) =>
      if env.dbAccepts(k) then
        (Success(price), Upserted(table, symbol, exchangeName, price, env.clockMs(k), env.writeClockMs(k)))
      else
        (Failure(UpsertRefused), table)
  }

  function Skip(st: PassState, exchangeName: string, symbol: string, reason: SkipReason): PassState {
    st.(trace := st.trace + [SkippedSymbol(exchangeName, symbol, reason)])
  }

  /**
   * Steps 1 to 4 for one symbol: fetch and store the price, fetch daily
   * candles, average their closes and alert on a drop. The second component
   * says whether the symbol got through (and so may be followed by the delay),
   * was skipped, or a client call panicked.
   */
  function ProcessSymbol(client: Client, exchangeName: string, symbol: string, s: Settings, env: Env, st: PassState)
    : (PassState, SymbolEnd)
  {
    var (res, table) := FetchAndStore(client, symbol, exchangeName, env, st.table, st.stores);
    var fetched := client.latestPrice(symbol).Success?;
    var st1 := st.(table := table, stores := if fetched then st.stores + 1 else st.stores,
                   trace := if res.Success? then st.trace + [Stored(symbol, exchangeName, res.value, env.clockMs(st.stores))]
                            else st.trace);
    if res == Failure(FetchFailed(Panic)) then (st1, Panicked)
    else if res.Failure? then (Skip(st1, exchangeName, symbol, PriceFailed(res.error)), Skipped)
    else
      match client.klines(symbol, KlineInterval, KlineLimit)
      case Failure(e) =>
        if e == Panic then (st1, Panicked) else (Skip(st1, exchangeName, symbol, KlinesFailed(e)), Skipped)
      case Success(ks) =>
        if |ks| == 0 then (Skip(st1, exchangeName, symbol, NoKlines), Skipped)
        else
          var average := Mean(Closes(ks));
          var latest := res.value;
          if ShouldAlert(latest, average, s.defaultThreshold) then
            var alert := Alert(symbol, exchangeName, latest, average, DropPercentage(latest, average), s.defaultThreshold);
            (st1.(trace := st1.trace + [Alerted(alert, env.notifierAccepts(st1.alerts))], alerts := st1.alerts + 1),
             Completed)
          else
            (st1, Completed)
  }

  /**
   * What follows a symbol: when it got through, the delay is positive and the
   * ticker is not the last, a wait that is a cancellation checkpoint.
   */
  function AfterSymbol(exchangeName: string, ts: seq<Ticker>, i: nat, s: Settings, env: Env, st: PassState, completed: bool)
    : Progress
  {
    if completed && s.apiRequestDelayMs > 0 && i < |ts| - 1 then
      var st1 := st.(trace := st.trace + [Delayed(exchangeName, i)]);
      if Done(env, st1.checks) then Stopped(st1.(checks := st1.checks + 1))
      else Running(st1.(checks := st1.checks + 1))
    else
      Running(st)
  }

  /**
   * Ticker `i` of an exchange: a cancellation checkpoint, the symbol, and what
   * follows it; a panic in the symbol ends the pass there.
   */
  function TickerStep(client: Client, exchangeName: string, ts: seq<Ticker>, i: nat, s: Settings, env: Env, st: PassState)
    : Progress
    requires i < |ts|
  {
    if Done(env, st.checks) then Stopped(st.(checks := st.checks + 1))
    else
      var r := ProcessSymbol(client, exchangeName, ts[i].symbol, s, env, st.(checks := st.checks + 1));
      if r.1 == Panicked then Aborted(r.0) else AfterSymbol(exchangeName, ts, i, s, env, r.0, r.1 == Completed)
  }

  /** The first `n` tickers of an exchange, in order, until one stops or aborts the pass. */
  function Tickers(client: Client, exchangeName: string, ts: seq<Ticker>, n: nat, s: Settings, env: Env, st: PassState)
    : Progress
    requires n <= |ts|
  {
    if n == 0 then Running(st)
    else NextTicker(client, exchangeName, ts, n - 1, s, env, Tickers(client, exchangeName, ts, n - 1, s, env, st))
  }

  /** Ticker `i` after the tickers before it: nothing once the pass has stopped or aborted. */
  function NextTicker(client: Client, exchangeName: string, ts: seq<Ticker>, i: nat, s: Settings, env: Env, p: Progress)
    : Progress
    requires i < |ts|
  {
    if p.Running? then TickerStep(client, exchangeName, ts, i, s, env, p.state) else p
  }

  /**
   * One exchange: its top tickers, or a skip when they cannot be had or there
   * are none; a panic while ranking them ends the pass.
   */
  function ExchangeStep(client: Client, exchangeName: string, s: Settings, env: Env, st: PassState): Progress {
    match client.topVolumeTickers(s.topNSymbols)
    case Failure(e) =>
      if e == Panic then Aborted(st)
      else Running(st.(trace := st.trace + [SkippedExchange(exchangeName, TickersFailed(e))]))
    case Success(ts) =>
      if |ts| == 0 then Running(st.(trace := st.trace + [SkippedExchange(exchangeName, NoTickers)]))
      else Tickers(client, exchangeName, ts, |ts|, s, env, st)
  }

  /** The exchanges named by the first `n` entries of `order`, until one stops or aborts the pass. */
  function Exchanges(clients: map<string, Client>, order: seq<string>, n: nat, s: Settings, env: Env, st: PassState)
    : Progress
    requires n <= |order| && forall j :: 0 <= j < |order| ==> order[j] in clients
  {
    if n == 0 then Running(st)
    else
      var p := Exchanges(clients, order, n - 1, s, env, st);
      if p.Running? then ExchangeStep(clients[order[n - 1]], order[n - 1], s, env, p.state) else p
  }

  /** A whole pass over the exchanges in `order` (the map iteration order). */
  function MonitorPass(clients: map<string, Client>, order: seq<string>, s: Settings, env: Env, table: Table): Progress
    requires forall j :: 0 <= j < |order| ==> order[j] in clients
  {
    Exchanges(clients, order, |order|, s, env, PassState(table, [], 0, 0, 0))
  }

  // ---------------------------------------------------------------------------
  // A stop or a panic is final

  /** Once the tickers of an exchange have stopped or aborted the pass, later tickers change nothing. */
  lemma {:induction false} TickersHaltSticks(client: Client, exchangeName: string, ts: seq<Ticker>, n: nat, m: nat,
                                             s: Settings, env: Env, st: PassState)
    requires n <= m <= |ts| && !Tickers(client, exchangeName, ts, n, s, env, st).Running?
    ensures Tickers(client, exchangeName, ts, m, s, env, st) == Tickers(client, exchangeName, ts, n, s, env, st)
    decreases m
  {
    if m > n {
      TickersHaltSticks(client, exchangeName, ts, n, m - 1, s, env, st);
    }
  }

  /** Once an exchange has stopped or aborted the pass, later exchanges change nothing. */
  lemma {:induction false} ExchangesHaltSticks(clients: map<string, Client>, order: seq<string>, n: nat, m: nat,
                                               s: Settings, env: Env, st: PassState)
    requires n <= m <= |order| && forall j :: 0 <= j < |order| ==> order[j] in clients
    requires !Exchanges(clients, order, n, s, env, st).Running?
    ensures Exchanges(clients, order, m, s, env, st) == Exchanges(clients, order, n, s, env, st)
    decreases m
  {
    if m > n {
      ExchangesHaltSticks(clients, order, n, m - 1, s, env, st);
    }
  }

  /**
   * A stop or a panic at ticker `i` of the `j`-th exchange is the outcome of
   * the whole pass: no later symbol or exchange is visited and the state is
   * kept.
   */
  lemma PassHaltsAtTicker(clients: map<string, Client>, order: seq<string>, j: nat, ts: seq<Ticker>, i: nat,
                          s: Settings, env: Env, st0: PassState, stE: PassState, halt: Progress)
    requires j < |order| && forall m :: 0 <= m < |order| ==> order[m] in clients
    requires i < |ts|
    requires Exchanges(clients, order, j, s, env, st0) == Running(stE)
    requires clients[order[j]].topVolumeTickers(s.topNSymbols) == Success(ts)
    requires Tickers(clients[order[j]], order[j], ts, i + 1, s, env, stE) == halt && !halt.Running?
    ensures Exchanges(clients, order, |order|, s, env, st0) == halt
  {
    TickersHaltSticks(clients[order[j]], order[j], ts, i + 1, |ts|, s, env, stE);
    ExchangesHaltSticks(clients, order, j + 1, |order|, s, env, st0);
  }
}
