/**
 * What a monitoring pass guarantees, proved about the functions of
 * `MonitorSpec`: which failures skip what, when the pass stops, how many
 * delays it takes, and that every alert and every stored price it reports
 * is justified.
 */
module MonitorProperties {
  import opened Wrappers
  import opened Exchange
  import opened Repository
  import opened MonitorSpec

  // ---------------------------------------------------------------------------
  // One symbol

  /**
   * `FetchAndStorePrice` upserts only after the price fetch succeeded, and
   * returns the price exactly when the upsert succeeded; the stored row is
   * then the only one of its symbol, exchange and UTC day.
   */
  lemma FetchAndStoreOutcome(client: Client, symbol: string, exchangeName: string, env: Env, table: Table, k: nat)
    requires ValidTable(table)
    ensures var (res, table') := FetchAndStore(client, symbol, exchangeName, env, table, k);
      var latest := client.latestPrice(symbol);
      var key := (symbol, exchangeName, DayOf(env.clockMs(k)));
      && ValidTable(table')
      && (latest.Failure? ==> res == Failure(FetchFailed(latest.error)) && table' == table)
      && (res.Success? <==> latest.Success? && env.dbAccepts(k))
      && (latest.Success? && !env.dbAccepts(k) ==> res == Failure(UpsertRefused) && table' == table)
      && (res.Success? ==>
            && res.value == latest.value
            && key in table'.rows
            && table'.rows[key].price == latest.value && table'.rows[key].timestamp == env.clockMs(k)
            && (forall kk :: kk in table'.rows && kk != key ==> kk in table.rows && table'.rows[kk] == table.rows[kk])
            && (forall kk :: (kk in table'.rows && table'.rows[kk].symbol == symbol && table'.rows[kk].exchange == exchangeName
                  && table'.rows[kk].date == DayOf(env.clockMs(k))) ==> kk == key))
  {
    var latest := client.latestPrice(symbol);
    if latest.Success? {
      var x := (latest.value, env.clockMs(k), env.writeClockMs(k));
      UpsertKeepsValid(table, symbol, exchangeName, x.0, x.1, x.2);
      UpsertLeavesExactlyOne(table, symbol, exchangeName, x.0, x.1, x.2);
      UpsertFramesOtherKeys(table, symbol, exchangeName, x.0, x.1, x.2);
    }
  }

  /** The events a symbol adds before it is skipped or gets through: the stored price, if any. */
  function StoredPrefix(client: Client, exchangeName: string, symbol: string, env: Env, st: PassState): seq<Event> {
    var res := FetchAndStore(client, symbol, exchangeName, env, st.table, st.stores).0;
    if res.Success? then st.trace + [Stored(symbol, exchangeName, res.value, env.clockMs(st.stores))] else st.trace
  }

  /**
   * A symbol panics exactly when the price call or, after a stored price, the
   * candle call panics; it then adds nothing after the stored price. It gets
   * through exactly when its price was stored and a non-empty list of daily
   * candles came back (the notifier plays no part); it alerts exactly when it
   * got through and the latest price is below the average of the candle
   * closes by more than the threshold. A symbol that is skipped adds exactly
   * one skip and no alert.
   */
  lemma ProcessSymbolOutcome(client: Client, exchangeName: string, symbol: string, s: Settings, env: Env, st: PassState)
    ensures var (st', outcome) := ProcessSymbol(client, exchangeName, symbol, s, env, st);
      var res := FetchAndStore(client, symbol, exchangeName, env, st.table, st.stores).0;
      var ks := client.klines(symbol, KlineInterval, KlineLimit);
      var prefix := StoredPrefix(client, exchangeName, symbol, env, st);
      var completed := outcome == Completed;
      && st'.checks == st.checks
      && (outcome == Panicked <==>
            client.latestPrice(symbol) == Failure(Panic) || (res.Success? && ks == Failure(Panic)))
      && (outcome == Panicked ==> st'.trace == prefix && st'.alerts == st.alerts)
      && (completed <==> res.Success? && ks.Success? && |ks.value| > 0)
      && (outcome == Skipped ==>
            && |st'.trace| == |prefix| + 1 && st'.trace[..|prefix|] == prefix
            && st'.trace[|prefix|].SkippedSymbol?
            && st'.trace[|prefix|].exchange == exchangeName && st'.trace[|prefix|].symbol == symbol
            && st'.alerts == st.alerts)
      && (completed ==>
            var average := Mean(Closes(ks.value));
            if ShouldAlert(res.value, average, s.defaultThreshold) then
              && st'.alerts == st.alerts + 1
              && st'.trace == prefix + [Alerted(Alert(symbol, exchangeName, res.value, average,
                                                      DropPercentage(res.value, average), s.defaultThreshold),
                                                env.notifierAccepts(st.alerts))]
            else
              st'.alerts == st.alerts && st'.trace == prefix)
  {
  }

  // ---------------------------------------------------------------------------
  // What holds all along a pass

  /** Every alert in the trace reports the threshold, satisfies the alert rule and reports the drop exactly. */
  ghost predicate AlertsSound(trace: seq<Event>, threshold: real) {
    forall e :: e in trace && e.Alerted? ==>
      && e.alert.threshold == threshold
      && ShouldAlert(e.alert.latest, e.alert.average, threshold)
      && e.alert.dropPercentage == DropPercentage(e.alert.latest, e.alert.average)
      && e.alert.dropPercentage > threshold * 100.0
  }

  /** Every stored price in the trace still has its row in the table. */
  ghost predicate StoresPersist(trace: seq<Event>, table: Table) {
    forall e :: e in trace && e.Stored? ==> (e.symbol, e.exchange, DayOf(e.timestamp)) in table.rows
  }

  ghost predicate Sound(s: Settings, st: PassState) {
    ValidTable(st.table) && AlertsSound(st.trace, s.defaultThreshold) && StoresPersist(st.trace, st.table)
  }

  /** No checkpoint before `checks` found the context done. */
  predicate NotYetDone(env: Env, checks: nat) {
    env.doneFrom.None? || checks <= env.doneFrom.value
  }

  /**
   * How a part of a pass relates its start `st` to its outcome `p`: soundness
   * is kept, no row disappears, the trace only grows, and the outcome is a
   * stop exactly at the first checkpoint that finds the context done (a
   * panic, like going on, leaves every checkpoint so far not done).
   */
  ghost predicate Follows(s: Settings, env: Env, st: PassState, p: Progress) {
    && Sound(s, p.state)
    && st.table.rows.Keys <= p.state.table.rows.Keys
    && |st.trace| <= |p.state.trace| && p.state.trace[..|st.trace|] == st.trace
    && st.checks <= p.state.checks
    && (!p.Stopped? ==> NotYetDone(env, p.state.checks))
    && (p.Stopped? ==> env.doneFrom.Some? && p.state.checks == env.doneFrom.value + 1)
  }

  /** A symbol keeps the table valid, removes no row, and keeps a row for every stored price. */
  lemma ProcessSymbolStores(client: Client, exchangeName: string, symbol: string, s: Settings, env: Env, st: PassState)
    requires ValidTable(st.table) && StoresPersist(st.trace, st.table)
    ensures var st' := ProcessSymbol(client, exchangeName, symbol, s, env, st).0;
      && ValidTable(st'.table) && StoresPersist(st'.trace, st'.table)
      && st.table.rows.Keys <= st'.table.rows.Keys
  {
    var st' := ProcessSymbol(client, exchangeName, symbol, s, env, st).0;
    var res := FetchAndStore(client, symbol, exchangeName, env, st.table, st.stores).0;
    FetchAndStoreOutcome(client, symbol, exchangeName, env, st.table, st.stores);
    ProcessSymbolOutcome(client, exchangeName, symbol, s, env, st);
    forall e | e in st'.trace && e.Stored?
      ensures (e.symbol, e.exchange, DayOf(e.timestamp)) in st'.table.rows
    {
      if e !in st.trace {
        assert res.Success? && e == Stored(symbol, exchangeName, res.value, env.clockMs(st.stores));
      }
    }
  }

  /** A symbol only adds alerts that obey the alert rule. */
  lemma ProcessSymbolAlerts(client: Client, exchangeName: string, symbol: string, s: Settings, env: Env, st: PassState)
    requires AlertsSound(st.trace, s.defaultThreshold)
    ensures AlertsSound(ProcessSymbol(client, exchangeName, symbol, s, env, st).0.trace, s.defaultThreshold)
  {
    var st' := ProcessSymbol(client, exchangeName, symbol, s, env, st).0;
    ProcessSymbolOutcome(client, exchangeName, symbol, s, env, st);
    forall e | e in st'.trace && e.Alerted?
      ensures ShouldAlert(e.alert.latest, e.alert.average, s.defaultThreshold)
      ensures e.alert.dropPercentage == DropPercentage(e.alert.latest, e.alert.average)
      ensures e.alert.dropPercentage > s.defaultThreshold * 100.0
    {
      if e !in st.trace {
        AlertIffDropExceedsThreshold(e.alert.latest, e.alert.average, s.defaultThreshold);
      }
    }
  }

  lemma ProcessSymbolFollows(client: Client, exchangeName: string, symbol: string, s: Settings, env: Env, st: PassState)
    requires Sound(s, st)
    ensures var (st', completed) := ProcessSymbol(client, exchangeName, symbol, s, env, st);
      && Sound(s, st') && st'.checks == st.checks
      && st.table.rows.Keys <= st'.table.rows.Keys
      && |st.trace| <= |st'.trace| && st'.trace[..|st.trace|] == st.trace
      && (forall e :: e in st'.trace[|st.trace|..] ==> !e.Delayed?)
  {
    var st' := ProcessSymbol(client, exchangeName, symbol, s, env, st).0;
    ProcessSymbolOutcome(client, exchangeName, symbol, s, env, st);
    ProcessSymbolStores(client, exchangeName, symbol, s, env, st);
    ProcessSymbolAlerts(client, exchangeName, symbol, s, env, st);
    var prefix := StoredPrefix(client, exchangeName, symbol, env, st);
    assert st'.trace[..|prefix|] == prefix;
    assert prefix[..|st.trace|] == st.trace;
    assert st'.trace[..|st.trace|] == st.trace;
  }

  /** A later part of a pass that follows an earlier one follows the start of both. */
  lemma FollowsTrans(s: Settings, env: Env, st: PassState, mid: PassState, q: Progress)
    requires Follows(s, env, st, Running(mid)) && Follows(s, env, mid, q)
    ensures Follows(s, env, st, q)
  {
    assert q.state.trace[..|st.trace|] == q.state.trace[..|mid.trace|][..|st.trace|];
  }

  // ---------------------------------------------------------------------------
  // Delays

  /** The number of waits in a trace. */
  function DelayCount(trace: seq<Event>): nat {
    if trace == [] then 0
    else DelayCount(trace[..|trace| - 1]) + (if trace[|trace| - 1].Delayed? then 1 else 0)
  }

  lemma {:induction false} DelayCountAppend(a: seq<Event>, b: seq<Event>)
    ensures DelayCount(a + b) == DelayCount(a) + DelayCount(b)
    decreases |b|
  {
    if b != [] {
      assert (a + b)[..|a + b| - 1] == a + b[..|b| - 1];
      DelayCountAppend(a, b[..|b| - 1]);
    } else {
      assert a + b == a;
    }
  }

  lemma {:induction false} DelayCountNone(b: seq<Event>)
    requires forall e :: e in b ==> !e.Delayed?
    ensures DelayCount(b) == 0
    decreases |b|
  {
    if b != [] {
      DelayCountNone(b[..|b| - 1]);
    }
  }

  /** A trace that extends another has at least its waits. */
  lemma DelayCountGrows(a: seq<Event>, b: seq<Event>)
    requires |a| <= |b| && b[..|a|] == a
    ensures DelayCount(a) <= DelayCount(b)
  {
    assert b == a + b[|a|..];
    DelayCountAppend(a, b[|a|..]);
  }

  /** Whether ticker `i` of `ts` may be followed by a wait. */
  function MayDelay(s: Settings, ts: seq<Ticker>, i: nat): nat {
    if s.apiRequestDelayMs > 0 && i < |ts| - 1 then 1 else 0
  }

  /** The most waits the first `n` tickers of `ts` can take. */
  function DelayBound(s: Settings, ts: seq<Ticker>, n: nat): nat
    requires n <= |ts|
  {
    if s.apiRequestDelayMs <= 0 || n == 0 then 0 else if n < |ts| then n else |ts| - 1
  }

  // ---------------------------------------------------------------------------
  // Tickers, exchanges, the pass

  /**
   * A wait adds one event that is neither an alert nor a stored price, and
   * it is taken exactly after a symbol that got through, with a positive
   * delay, at a ticker that is not the last; a skipped symbol goes straight
   * on to the next ticker.
   */
  lemma AfterSymbolFollows(exchangeName: string, ts: seq<Ticker>, i: nat, s: Settings, env: Env, st: PassState, completed: bool)
    requires Sound(s, st) && NotYetDone(env, st.checks)
    ensures Follows(s, env, st, AfterSymbol(exchangeName, ts, i, s, env, st, completed))
    ensures DelayCount(AfterSymbol(exchangeName, ts, i, s, env, st, completed).state.trace)
         <= DelayCount(st.trace) + MayDelay(s, ts, i)
    ensures !completed ==> AfterSymbol(exchangeName, ts, i, s, env, st, completed) == Running(st)
    ensures AfterSymbol(exchangeName, ts, i, s, env, st, completed).state.trace != st.trace
        <==> completed && s.apiRequestDelayMs > 0 && i < |ts| - 1
  {
    var d := Delayed(exchangeName, i);
    var q := AfterSymbol(exchangeName, ts, i, s, env, st, completed).state;
    if completed && s.apiRequestDelayMs > 0 && i < |ts| - 1 {
      assert q.trace == st.trace + [d];
      assert q.trace[..|st.trace|] == st.trace;
      assert (st.trace + [d])[..|st.trace|] == st.trace;
    } else {
      assert q.trace[..|st.trace|] == st.trace;
    }
  }

  /**
   * One ticker follows its start and takes at most one wait, and only when
   * the delay is positive and the ticker is not the last.
   */
  lemma TickerStepFollows(client: Client, exchangeName: string, ts: seq<Ticker>, i: nat, s: Settings, env: Env, st: PassState)
    requires i < |ts| && Sound(s, st) && NotYetDone(env, st.checks)
    ensures Follows(s, env, st, TickerStep(client, exchangeName, ts, i, s, env, st))
    ensures DelayCount(TickerStep(client, exchangeName, ts, i, s, env, st).state.trace)
         <= DelayCount(st.trace) + MayDelay(s, ts, i)
  {
    var p := TickerStep(client, exchangeName, ts, i, s, env, st);
    if Done(env, st.checks) {
      assert p == Stopped(st.(checks := st.checks + 1));
      assert st.trace[..|st.trace|] == st.trace;
    } else {
      var r := ProcessSymbol(client, exchangeName, ts[i].symbol, s, env, st.(checks := st.checks + 1));
      SymbolTurnFollows(client, exchangeName, ts[i].symbol, s, env, st);
      if r.1 == Panicked {
        assert p == Aborted(r.0);
      } else {
        assert p == AfterSymbol(exchangeName, ts, i, s, env, r.0, r.1 == Completed);
        AfterSymbolFollows(exchangeName, ts, i, s, env, r.0, r.1 == Completed);
        FollowsTrans(s, env, st, r.0, p);
      }
    }
  }

  /** The symbol part of a ticker turn, past its checkpoint, follows the turn's start and takes no wait. */
  lemma SymbolTurnFollows(client: Client, exchangeName: string, symbol: string, s: Settings, env: Env, st: PassState)
    requires Sound(s, st) && NotYetDone(env, st.checks) && !Done(env, st.checks)
    ensures var st2 := ProcessSymbol(client, exchangeName, symbol, s, env, st.(checks := st.checks + 1)).0;
      Follows(s, env, st, Running(st2)) && DelayCount(st2.trace) == DelayCount(st.trace)
  {
    var st1 := st.(checks := st.checks + 1);
    var st2 := ProcessSymbol(client, exchangeName, symbol, s, env, st1).0;
    ProcessSymbolFollows(client, exchangeName, symbol, s, env, st1);
    assert st2.trace == st.trace + st2.trace[|st.trace|..];
    DelayCountNone(st2.trace[|st.trace|..]);
    DelayCountAppend(st.trace, st2.trace[|st.trace|..]);
  }

  /** The ticker loop with its step as a function value. */
  ghost function Steps(step: (nat, PassState) -> Progress, n: nat, st: PassState): Progress {
    if n == 0 then Running(st)
    else
      var q := Steps(step, n - 1, st);
      if q.Running? then step(n - 1, q.state) else q
  }

  /** The step of the ticker loop of one exchange. */
  ghost function TickerFn(client: Client, exchangeName: string, ts: seq<Ticker>, s: Settings, env: Env)
    : (nat, PassState) -> Progress
  {
    (i: nat, p: PassState) => if i < |ts| then TickerStep(client, exchangeName, ts, i, s, env, p) else Running(p)
  }

  lemma {:induction false} TickersAreSteps(client: Client, exchangeName: string, ts: seq<Ticker>, n: nat,
                                           s: Settings, env: Env, st: PassState)
    requires n <= |ts|
    ensures Tickers(client, exchangeName, ts, n, s, env, st) == Steps(TickerFn(client, exchangeName, ts, s, env), n, st)
    decreases n
  {
    if n > 0 {
      TickersAreSteps(client, exchangeName, ts, n - 1, s, env, st);
    }
  }

  /** A step that keeps `Follows` and the wait bound for one more ticker. */
  ghost predicate StepFollows(step: (nat, PassState) -> Progress, ts: seq<Ticker>, s: Settings, env: Env, st: PassState) {
    forall i: nat, p: PassState ::
      i < |ts| && Follows(s, env, st, Running(p)) && DelayCount(p.trace) <= DelayCount(st.trace) + DelayBound(s, ts, i)
      ==> Follows(s, env, st, step(i, p)) && DelayCount(step(i, p).state.trace) <= DelayCount(st.trace) + DelayBound(s, ts, i + 1)
  }

  lemma TickerFnFollows(client: Client, exchangeName: string, ts: seq<Ticker>, s: Settings, env: Env, st: PassState)
    ensures StepFollows(TickerFn(client, exchangeName, ts, s, env), ts, s, env, st)
  {
    var step := TickerFn(client, exchangeName, ts, s, env);
    forall i: nat, p: PassState |
      i < |ts| && Follows(s, env, st, Running(p)) && DelayCount(p.trace) <= DelayCount(st.trace) + DelayBound(s, ts, i)
      ensures Follows(s, env, st, step(i, p)) && DelayCount(step(i, p).state.trace) <= DelayCount(st.trace) + DelayBound(s, ts, i + 1)
    {
      NextTickerFollows(client, exchangeName, ts, i, s, env, st, Running(p));
    }
  }

  lemma {:induction false} StepsFollow(step: (nat, PassState) -> Progress, ts: seq<Ticker>, n: nat,
                                       s: Settings, env: Env, st: PassState)
    requires n <= |ts| && Sound(s, st) && NotYetDone(env, st.checks) && StepFollows(step, ts, s, env, st)
    ensures Follows(s, env, st, Steps(step, n, st))
    ensures DelayCount(Steps(step, n, st).state.trace) <= DelayCount(st.trace) + DelayBound(s, ts, n)
    decreases n
  {
    if n == 0 {
      assert st.trace[..|st.trace|] == st.trace;
    } else {
      StepsFollow(step, ts, n - 1, s, env, st);
      DelayBoundStep(s, ts, n);
    }
  }

  /**
   * The first `n` tickers of an exchange follow their start and take at most
   * `DelayBound` waits: none when the delay is not positive, and at most
   * n - 1 for all n tickers.
   */
  lemma TickersFollows(client: Client, exchangeName: string, ts: seq<Ticker>, n: nat,
                       s: Settings, env: Env, st: PassState)
    requires n <= |ts| && Sound(s, st) && NotYetDone(env, st.checks)
    ensures Follows(s, env, st, Tickers(client, exchangeName, ts, n, s, env, st))
    ensures DelayCount(Tickers(client, exchangeName, ts, n, s, env, st).state.trace)
         <= DelayCount(st.trace) + DelayBound(s, ts, n)
  {
    TickersAreSteps(client, exchangeName, ts, n, s, env, st);
    TickerFnFollows(client, exchangeName, ts, s, env, st);
    StepsFollow(TickerFn(client, exchangeName, ts, s, env), ts, n, s, env, st);
  }

  /** One more ticker after a part `p` of the ticker loop that follows `st`. */
  lemma NextTickerFollows(client: Client, exchangeName: string, ts: seq<Ticker>, i: nat,
                          s: Settings, env: Env, st: PassState, p: Progress)
    requires i < |ts| && Follows(s, env, st, p)
    requires DelayCount(p.state.trace) <= DelayCount(st.trace) + DelayBound(s, ts, i)
    ensures var q := NextTicker(client, exchangeName, ts, i, s, env, p);
      && Follows(s, env, st, q)
      && DelayCount(q.state.trace) <= DelayCount(st.trace) + DelayBound(s, ts, i + 1)
  {
    DelayBoundStep(s, ts, i + 1);
    if p.Running? {
      TickerStepFollows(client, exchangeName, ts, i, s, env, p.state);
      FollowsTrans(s, env, st, p.state, TickerStep(client, exchangeName, ts, i, s, env, p.state));
    }
  }

  /** The bound for `n` tickers is the bound for the first `n - 1` plus the last one's wait. */
  lemma DelayBoundStep(s: Settings, ts: seq<Ticker>, n: nat)
    requires 0 < n <= |ts|
    ensures DelayBound(s, ts, n - 1) + MayDelay(s, ts, n - 1) == DelayBound(s, ts, n)
  {
  }

  /** A whole exchange's tickers take at most one wait fewer than there are tickers. */
  lemma ExchangeDelays(client: Client, exchangeName: string, ts: seq<Ticker>, s: Settings, env: Env, st: PassState)
    requires ts != [] && Sound(s, st) && NotYetDone(env, st.checks)
    ensures DelayCount(Tickers(client, exchangeName, ts, |ts|, s, env, st).state.trace) <= DelayCount(st.trace) + |ts| - 1
    ensures s.apiRequestDelayMs <= 0 ==>
      DelayCount(Tickers(client, exchangeName, ts, |ts|, s, env, st).state.trace) == DelayCount(st.trace)
  {
    TickersFollows(client, exchangeName, ts, |ts|, s, env, st);
    DelayCountGrows(st.trace, Tickers(client, exchangeName, ts, |ts|, s, env, st).state.trace);
  }

  /**
   * An exchange whose top tickers cannot be had for a reason other than a
   * panic, or are none, is skipped with one event and nothing else changes;
   * the pass goes on.
   */
  lemma ExchangeSkipped(client: Client, exchangeName: string, s: Settings, env: Env, st: PassState)
    requires (client.topVolumeTickers(s.topNSymbols).Failure? && client.topVolumeTickers(s.topNSymbols) != Failure(Panic))
          || client.topVolumeTickers(s.topNSymbols) == Success([])
    ensures ExchangeStep(client, exchangeName, s, env, st)
         == Running(st.(trace := st.trace + [SkippedExchange(exchangeName,
              if client.topVolumeTickers(s.topNSymbols).Failure?
              then TickersFailed(client.topVolumeTickers(s.topNSymbols).error) else NoTickers)]))
  {
  }

  /** A panic while ranking the tickers ends the pass with the state unchanged. */
  lemma ExchangeAbortsOnPanic(client: Client, exchangeName: string, s: Settings, env: Env, st: PassState)
    requires client.topVolumeTickers(s.topNSymbols) == Failure(Panic)
    ensures ExchangeStep(client, exchangeName, s, env, st) == Aborted(st)
  {
  }

  lemma ExchangeStepFollows(client: Client, exchangeName: string, s: Settings, env: Env, st: PassState)
    requires Sound(s, st) && NotYetDone(env, st.checks)
    ensures Follows(s, env, st, ExchangeStep(client, exchangeName, s, env, st))
  {
    var r := client.topVolumeTickers(s.topNSymbols);
    if r.Success? && |r.value| > 0 {
      TickersFollows(client, exchangeName, r.value, |r.value|, s, env, st);
    } else {
      var q := ExchangeStep(client, exchangeName, s, env, st).state;
      assert q.trace[..|st.trace|] == st.trace;
    }
  }

  lemma {:induction false} ExchangesFollows(clients: map<string, Client>, order: seq<string>, n: nat,
                                            s: Settings, env: Env, st: PassState)
    requires n <= |order| && forall j :: 0 <= j < |order| ==> order[j] in clients
    requires Sound(s, st) && NotYetDone(env, st.checks)
    ensures Follows(s, env, st, Exchanges(clients, order, n, s, env, st))
    decreases n
  {
    if n == 0 {
      assert st.trace[..|st.trace|] == st.trace;
    } else {
      ExchangesFollows(clients, order, n - 1, s, env, st);
      var p := Exchanges(clients, order, n - 1, s, env, st);
      if p.Running? {
        ExchangeStepFollows(clients[order[n - 1]], order[n - 1], s, env, p.state);
        FollowsTrans(s, env, st, p.state, ExchangeStep(clients[order[n - 1]], order[n - 1], s, env, p.state));
      }
    }
  }

  // ---------------------------------------------------------------------------
  // Panics

  /** Some call the monitor makes on `client` answers with a panic. */
  ghost predicate CanPanic(client: Client, s: Settings) {
    || client.topVolumeTickers(s.topNSymbols) == Failure(Panic)
    || exists symbol: string :: client.latestPrice(symbol) == Failure(Panic)
                             || client.klines(symbol, KlineInterval, KlineLimit) == Failure(Panic)
  }

  /** A call on the symbol of ticker `i` panicked. */
  ghost predicate SymbolPanics(client: Client, ts: seq<Ticker>, i: nat)
    requires i < |ts|
  {
    client.latestPrice(ts[i].symbol) == Failure(Panic)
    || client.klines(ts[i].symbol, KlineInterval, KlineLimit) == Failure(Panic)
  }

  /** A ticker aborts the pass only when a call on its symbol panicked. */
  lemma TickerStepAborts(client: Client, exchangeName: string, ts: seq<Ticker>, i: nat, s: Settings, env: Env, st: PassState)
    requires i < |ts|
    ensures TickerStep(client, exchangeName, ts, i, s, env, st).Aborted? ==> SymbolPanics(client, ts, i)
  {
    ProcessSymbolOutcome(client, exchangeName, ts[i].symbol, s, env, st.(checks := st.checks + 1));
  }

  /** The tickers of an exchange abort the pass only when a call on one of their symbols panicked. */
  lemma {:induction false} TickersAbortOnlyOnPanic(client: Client, exchangeName: string, ts: seq<Ticker>, n: nat,
                                                   s: Settings, env: Env, st: PassState)
    requires n <= |ts|
    ensures Tickers(client, exchangeName, ts, n, s, env, st).Aborted? ==>
      exists i :: 0 <= i < n && SymbolPanics(client, ts, i)
    decreases n
  {
    if n > 0 {
      TickersAbortOnlyOnPanic(client, exchangeName, ts, n - 1, s, env, st);
      var p := Tickers(client, exchangeName, ts, n - 1, s, env, st);
      if p.Running? {
        TickerStepAborts(client, exchangeName, ts, n - 1, s, env, p.state);
      }
    }
  }

  /** An exchange aborts the pass only when one of the calls on its client panicked. */
  lemma ExchangeAbortsOnlyOnPanic(client: Client, exchangeName: string, s: Settings, env: Env, st: PassState)
    ensures ExchangeStep(client, exchangeName, s, env, st).Aborted? ==> CanPanic(client, s)
  {
    var r := client.topVolumeTickers(s.topNSymbols);
    if r.Success? && |r.value| > 0 && ExchangeStep(client, exchangeName, s, env, st).Aborted? {
      TickersAbortOnlyOnPanic(client, exchangeName, r.value, |r.value|, s, env, st);
      var i :| 0 <= i < |r.value| && SymbolPanics(client, r.value, i);
      var symbol := r.value[i].symbol;
      assert client.latestPrice(symbol) == Failure(Panic) || client.klines(symbol, KlineInterval, KlineLimit) == Failure(Panic);
    }
  }

  /** The first `n` exchanges abort the pass only when a call on one of their clients panicked. */
  lemma {:induction false} ExchangesAbortOnlyOnPanic(clients: map<string, Client>, order: seq<string>, n: nat,
                                                     s: Settings, env: Env, st: PassState)
    requires n <= |order| && forall j :: 0 <= j < |order| ==> order[j] in clients
    ensures Exchanges(clients, order, n, s, env, st).Aborted? ==>
      exists j :: 0 <= j < n && CanPanic(clients[order[j]], s)
    decreases n
  {
    if n > 0 {
      ExchangesAbortOnlyOnPanic(clients, order, n - 1, s, env, st);
      var p := Exchanges(clients, order, n - 1, s, env, st);
      if p.Running? {
        ExchangeAbortsOnlyOnPanic(clients[order[n - 1]], order[n - 1], s, env, p.state);
      }
    }
  }

  /**
   * What a whole pass guarantees: every alert obeys the alert rule and
   * reports its drop; every stored price keeps its row, even when the pass
   * was stopped or aborted; no row disappears; the pass returns the context
   * error exactly when a checkpoint found the context done, at the first such
   * checkpoint; it aborts only when a client call panicked; so that without
   * cancellation and panics it always runs to the end.
   */
  lemma PassGuarantees(clients: map<string, Client>, order: seq<string>, s: Settings, env: Env, table: Table)
    requires forall j :: 0 <= j < |order| ==> order[j] in clients
    requires ValidTable(table)
    ensures var p := MonitorPass(clients, order, s, env, table);
      && ValidTable(p.state.table)
      && AlertsSound(p.state.trace, s.defaultThreshold)
      && StoresPersist(p.state.trace, p.state.table)
      && table.rows.Keys <= p.state.table.rows.Keys
      && (p.Stopped? ==> env.doneFrom.Some? && p.state.checks == env.doneFrom.value + 1)
      && (!p.Stopped? ==> NotYetDone(env, p.state.checks))
      && (env.doneFrom.None? ==> !p.Stopped?)
      && (p.Aborted? ==> exists j :: 0 <= j < |order| && CanPanic(clients[order[j]], s))
      && (env.doneFrom.None? && (forall j :: 0 <= j < |order| ==> !CanPanic(clients[order[j]], s)) ==> p.Running?)
  {
    ExchangesFollows(clients, order, |order|, s, env, PassState(table, [], 0, 0, 0));
    ExchangesAbortOnlyOnPanic(clients, order, |order|, s, env, PassState(table, [], 0, 0, 0));
  }
}
