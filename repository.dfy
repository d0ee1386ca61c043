/**
 * The daily-unique price store: a table of `ExchangePrice` rows whose unique
 * index is (symbol, exchange, date), the upsert that keeps one row per UTC
 * day, and the two read queries. SQL, GORM and the database connection are
 * replaced by a map keyed by that unique index.
 */
module Repository {
  import opened Wrappers

  // ---------------------------------------------------------------------------
  // UTC days

  const MsPerDay: int := 86_400_000

  /**
   * `time.UnixMilli(ms).UTC().Truncate(24 * time.Hour)` as a day number since
   * 1970-01-01: the start of the UTC day holding `ms` (midnight or earlier).
   */
  function DayOf(ms: int): (d: int)
    ensures d * MsPerDay <= ms < (d + 1) * MsPerDay
  {
    ms / MsPerDay
  }

  /** Only one day holds a given instant. */
  lemma DayOfUnique(ms: int, d: int)
    requires d * MsPerDay <= ms < (d + 1) * MsPerDay
    ensures DayOf(ms) == d
  {
  }

  /** Two instants get the same date exactly when one UTC day holds both. */
  lemma SameDateIffSameDay(a: int, b: int)
    ensures DayOf(a) == DayOf(b) <==>
      exists d :: d * MsPerDay <= a < (d + 1) * MsPerDay && d * MsPerDay <= b < (d + 1) * MsPerDay
  {
    if exists d :: d * MsPerDay <= a < (d + 1) * MsPerDay && d * MsPerDay <= b < (d + 1) * MsPerDay {
      var d :| d * MsPerDay <= a < (d + 1) * MsPerDay && d * MsPerDay <= b < (d + 1) * MsPerDay;
      DayOfUnique(a, d);
      DayOfUnique(b, d);
    } else {
      assert DayOf(a) * MsPerDay <= a < (DayOf(a) + 1) * MsPerDay;
    }
  }

  /** `time.Time{}` (1 January of year 1, UTC) as a day number. */
  const ZeroDay: int := -719_162

  // ---------------------------------------------------------------------------
  // Rows and tables

  /** The unique index idx_symbol_exchange_date. */
  type Key = (string, string, int)

  /** A stored `ExchangePrice` row; times are epoch milliseconds, `date` a day number. */
  datatype PriceRow = PriceRow(
    id: nat,
    createdAt: int,
    updatedAt: int,
    symbol: string,
    exchange: string,
    price: real,
    timestamp: int,
    date: int)

  /** The table: rows by unique key, and the next auto-increment id. */
  datatype Table = Table(rows: map<Key, PriceRow>, nextId: nat)

  function KeyOf(r: PriceRow): Key {
    (r.symbol, r.exchange, r.date)
  }

  /**
   * Every row sits under its own key, carries the date of its timestamp and an
   * id below `nextId`, and no two rows share an id.
   */
  ghost predicate ValidTable(t: Table) {
    && 1 <= t.nextId
    && (forall k :: k in t.rows ==> KeyOf(t.rows[k]) == k)
    && (forall k :: k in t.rows ==> t.rows[k].date == DayOf(t.rows[k].timestamp))
    && (forall k :: k in t.rows ==> 1 <= t.rows[k].id < t.nextId)
    && (forall k, l :: k in t.rows && l in t.rows && t.rows[k].id == t.rows[l].id ==> k == l)
  }

  const EmptyTable: Table := Table(map[], 1)

  lemma EmptyTableValid()
    ensures ValidTable(EmptyTable) && EmptyTable.rows == map[]
  {
  }

  /**
   * The table after `INSERT ... ON CONFLICT (symbol, exchange, date) DO UPDATE
   * SET price, timestamp, updated_at` of a record stamped at `writeTime`.
   */
  function Upserted(t: Table, symbol: string, exchange: string, price: real, timestamp: int, writeTime: int): Table {
    var key := (symbol, exchange, DayOf(timestamp));
    if key in t.rows then
      Table(t.rows[key := t.rows[key].(price := price, timestamp := timestamp, updatedAt := writeTime)], t.nextId)
    else
      Table(t.rows[key := PriceRow(t.nextId, writeTime, writeTime, symbol, exchange, price, timestamp, DayOf(timestamp))],
            t.nextId + 1)
  }

  /**
   * After an upsert exactly one row has the record's symbol, exchange and
   * date, and it holds the record's price and timestamp.
   */
  lemma UpsertLeavesExactlyOne(t: Table, symbol: string, exchange: string, price: real, timestamp: int, writeTime: int)
    requires ValidTable(t)
    ensures var u := Upserted(t, symbol, exchange, price, timestamp, writeTime);
      var key := (symbol, exchange, DayOf(timestamp));
      && key in u.rows
      && u.rows[key].price == price && u.rows[key].timestamp == timestamp && u.rows[key].updatedAt == writeTime
      && forall k :: (k in u.rows && u.rows[k].symbol == symbol && u.rows[k].exchange == exchange
           && u.rows[k].date == DayOf(timestamp)) ==> k == key
  {
    UpsertKeepsValid(t, symbol, exchange, price, timestamp, writeTime);
  }

  /**
   * On conflict only price, timestamp and updated_at change: the id, the
   * creation time and the key of the existing row are kept. Otherwise the new
   * row takes the next id and is created and updated at `writeTime`.
   */
  lemma UpsertConflictKeeps(t: Table, symbol: string, exchange: string, price: real, timestamp: int, writeTime: int)
    ensures var u := Upserted(t, symbol, exchange, price, timestamp, writeTime);
      var key := (symbol, exchange, DayOf(timestamp));
      && (key in t.rows ==>
            && u.rows[key].id == t.rows[key].id
            && u.rows[key].createdAt == t.rows[key].createdAt
            && u.rows[key].symbol == t.rows[key].symbol
            && u.rows[key].exchange == t.rows[key].exchange
            && u.rows[key].date == t.rows[key].date
            && u.nextId == t.nextId)
      && (key !in t.rows ==>
            && u.rows[key].id == t.nextId && u.nextId == t.nextId + 1
            && u.rows[key].createdAt == writeTime
            && u.rows[key] == PriceRow(t.nextId, writeTime, writeTime, symbol, exchange, price, timestamp, DayOf(timestamp)))
  {
  }

  /** Rows under any other key are untouched, and no row disappears. */
  lemma UpsertFramesOtherKeys(t: Table, symbol: string, exchange: string, price: real, timestamp: int, writeTime: int)
    ensures var u := Upserted(t, symbol, exchange, price, timestamp, writeTime);
      && u.rows.Keys == t.rows.Keys + {(symbol, exchange, DayOf(timestamp))}
      && forall k :: k in t.rows && k != (symbol, exchange, DayOf(timestamp)) ==> u.rows[k] == t.rows[k]
  {
  }

  /** An upsert keeps the table well formed. */
  lemma UpsertKeepsValid(t: Table, symbol: string, exchange: string, price: real, timestamp: int, writeTime: int)
    requires ValidTable(t)
    ensures ValidTable(Upserted(t, symbol, exchange, price, timestamp, writeTime))
  {
  }

  /** Upserting the same record twice (at the same write time) gives the table of one upsert. */
  lemma UpsertIdempotent(t: Table, symbol: string, exchange: string, price: real, timestamp: int, writeTime: int)
    ensures var u := Upserted(t, symbol, exchange, price, timestamp, writeTime);
      Upserted(u, symbol, exchange, price, timestamp, writeTime) == u
  {
    var u := Upserted(t, symbol, exchange, price, timestamp, writeTime);
    var key := (symbol, exchange, DayOf(timestamp));
    assert u.rows[key := u.rows[key].(price := price, timestamp := timestamp, updatedAt := writeTime)] == u.rows;
  }

  /**
   * A later upsert on the same UTC day overwrites the first one's price and
   * timestamp (last write wins) and adds no row; the row keeps its id and
   * creation time from the first.
   */
  lemma UpsertLastWriteWins(t: Table, symbol: string, exchange: string,
                            p1: real, ts1: int, w1: int, p2: real, ts2: int, w2: int)
    requires DayOf(ts1) == DayOf(ts2)
    ensures var u1 := Upserted(t, symbol, exchange, p1, ts1, w1);
      var u2 := Upserted(u1, symbol, exchange, p2, ts2, w2);
      var key := (symbol, exchange, DayOf(ts1));
      && u2.rows.Keys == u1.rows.Keys
      && u2.rows[key].price == p2 && u2.rows[key].timestamp == ts2 && u2.rows[key].updatedAt == w2
      && u2.rows[key].id == u1.rows[key].id && u2.rows[key].createdAt == u1.rows[key].createdAt
      && u2.nextId == u1.nextId
  {
  }

  // ---------------------------------------------------------------------------
  // Read queries

  /** The keys of the rows with this symbol AND exchange (`WHERE symbol = ? AND exchange = ?`). */
  function Matching(t: Table, symbol: string, exchange: string): (ks: set<Key>)
    ensures forall k :: k in ks <==> k in t.rows && k.0 == symbol && k.1 == exchange
  {
    set k | k in t.rows && k.0 == symbol && k.1 == exchange
  }

  /**
   * An upsert adds at most the record's own key to the rows of its symbol and
   * exchange, and leaves the rows of every other symbol and exchange alone.
   */
  lemma UpsertMatching(t: Table, symbol: string, exchange: string, price: real, timestamp: int, writeTime: int,
                       sym: string, ex: string)
    ensures var u := Upserted(t, symbol, exchange, price, timestamp, writeTime);
      Matching(u, sym, ex)
        == if sym == symbol && ex == exchange then Matching(t, sym, ex) + {(symbol, exchange, DayOf(timestamp))}
           else Matching(t, sym, ex)
  {
  }

  /** `ORDER BY timestamp DESC, id`: row `a` comes first, or ties with itself. */
  predicate ComesFirst(a: PriceRow, b: PriceRow) {
    a.timestamp > b.timestamp || (a.timestamp == b.timestamp && a.id <= b.id)
  }

  /** `row` is what `First` returns: a matching row that comes before every matching row. */
  ghost predicate IsLatest(t: Table, symbol: string, exchange: string, row: PriceRow) {
    && (exists k :: k in Matching(t, symbol, exchange) && t.rows[k] == row)
    && forall k :: k in Matching(t, symbol, exchange) ==> ComesFirst(row, t.rows[k])
  }

  /** In a well-formed table at most one row is the latest (ids break timestamp ties). */
  lemma LatestIsUnique(t: Table, symbol: string, exchange: string, a: PriceRow, b: PriceRow)
    requires ValidTable(t) && IsLatest(t, symbol, exchange, a) && IsLatest(t, symbol, exchange, b)
    ensures a == b
  {
    var ka :| ka in Matching(t, symbol, exchange) && t.rows[ka] == a;
    var kb :| kb in Matching(t, symbol, exchange) && t.rows[kb] == b;
    assert ComesFirst(a, b) && ComesFirst(b, a);
  }

  datatype RepoError = RecordNotFound | UpsertFailed

  /**
   * The rows `GetAveragePriceForLastNDays` reads: this symbol and exchange,
   * with a date whose midnight is at or after `nowMs` minus `days` days.
   */
  function InWindow(t: Table, symbol: string, exchange: string, days: int, nowMs: int): (ks: set<Key>)
    ensures ks <= Matching(t, symbol, exchange)
    ensures forall k :: k in ks <==> k in Matching(t, symbol, exchange) && k.2 * MsPerDay >= nowMs - days * MsPerDay
  {
    set k | k in Matching(t, symbol, exchange) && k.2 * MsPerDay >= nowMs - days * MsPerDay
  }

  /**
   * The window holds whole UTC days: every row in it was stamped at or after
   * the threshold, and every row whose day starts after the threshold's day
   * is in it; a row stamped later on the threshold's own day is not, unless
   * the threshold is a midnight.
   */
  lemma WindowIsWholeDays(t: Table, symbol: string, exchange: string, days: int, nowMs: int)
    requires ValidTable(t)
    ensures var th := nowMs - days * MsPerDay;
      && (forall k :: k in InWindow(t, symbol, exchange, days, nowMs) ==> t.rows[k].timestamp >= th)
      && (forall k :: k in Matching(t, symbol, exchange) && k.2 > DayOf(th) ==> k in InWindow(t, symbol, exchange, days, nowMs))
      && (forall k :: k in Matching(t, symbol, exchange) && k.2 == DayOf(th) && th % MsPerDay != 0 ==>
            k !in InWindow(t, symbol, exchange, days, nowMs))
  {
    var th := nowMs - days * MsPerDay;
    forall k | k in Matching(t, symbol, exchange) && k.2 > DayOf(th)
      ensures k.2 * MsPerDay >= th
    {
      assert (DayOf(th) + 1) * MsPerDay <= k.2 * MsPerDay;
    }
  }

  /** The sum of the prices of the rows under `keys`. */
  ghost function SumPrices(rows: map<Key, PriceRow>, keys: set<Key>): real
    requires keys <= rows.Keys
    decreases |keys|
  {
    if keys == {} then 0.0
    else
      var k :| k in keys;
      rows[k].price + SumPrices(rows, keys - {k})
  }

  /** The sum does not depend on the order the keys are taken in. */
  lemma {:induction false} SumPricesRemove(rows: map<Key, PriceRow>, keys: set<Key>, k: Key)
    requires keys <= rows.Keys && k in keys
    ensures SumPrices(rows, keys) == rows[k].price + SumPrices(rows, keys - {k})
    decreases |keys|
  {
    var j :| j in keys && SumPrices(rows, keys) == rows[j].price + SumPrices(rows, keys - {j});
    if j != k {
      SumPricesRemove(rows, keys - {j}, k);
      SumPricesRemove(rows, keys - {k}, j);
      assert keys - {j} - {k} == keys - {k} - {j};
    }
  }

  /** `n` copies of `x` added up. */
  function Scaled(n: nat, x: real): real {
    if n == 0 then 0.0 else Scaled(n - 1, x) + x
  }

  lemma {:induction false} ScaledIsProduct(n: nat, x: real)
    ensures Scaled(n, x) == n as real * x
  {
    if n > 0 {
      ScaledIsProduct(n - 1, x);
      assert n as real * x == (n - 1) as real * x + x;
    }
  }

  /** A sum of prices each within [lo, hi] is within |keys| copies of those bounds. */
  lemma {:induction false} SumPricesBounds(rows: map<Key, PriceRow>, keys: set<Key>, lo: real, hi: real)
    requires keys <= rows.Keys
    requires forall k :: k in keys ==> lo <= rows[k].price <= hi
    ensures Scaled(|keys|, lo) <= SumPrices(rows, keys) <= Scaled(|keys|, hi)
    decreases |keys|
  {
    if keys != {} {
      var k :| k in keys;
      SumPricesRemove(rows, keys, k);
      SumPricesBounds(rows, keys - {k}, lo, hi);
      assert |keys - {k}| == |keys| - 1;
    }
  }

  /** Taking a window key `k` out of the keys still to scan moves its price into the running sum. */
  lemma WindowStepSum(rows: map<Key, PriceRow>, window: set<Key>, todo: set<Key>, k: Key)
    requires window <= rows.Keys && k in todo && k in window
    ensures SumPrices(rows, window * todo) == rows[k].price + SumPrices(rows, window * (todo - {k}))
  {
    assert window * todo - {k} == window * (todo - {k});
    SumPricesRemove(rows, window * todo, k);
  }

  /** ... and adds one to the count of window keys scanned; any other key changes neither. */
  lemma WindowStepCount(window: set<Key>, todo: set<Key>, k: Key)
    requires k in todo
    ensures k in window ==> |window - (todo - {k})| == |window - todo| + 1
    ensures k !in window ==> window * (todo - {k}) == window * todo && window - (todo - {k}) == window - todo
  {
    if k in window {
      assert window - (todo - {k}) == (window - todo) + {k};
    }
  }

  /** `AVG(price)` over the window; `None` when the window is empty. */
  ghost function AverageOver(t: Table, keys: set<Key>): Option<real>
    requires keys <= t.rows.Keys
  {
    if keys == {} then None else Some(SumPrices(t.rows, keys) / |keys| as real)
  }

  /** The average lies between the lowest and the highest price it averages. */
  lemma AverageWithinBounds(t: Table, keys: set<Key>, lo: real, hi: real)
    requires keys <= t.rows.Keys && keys != {}
    requires forall k :: k in keys ==> lo <= t.rows[k].price <= hi
    ensures lo <= AverageOver(t, keys).value <= hi
  {
    SumPricesBounds(t.rows, keys, lo, hi);
    ScaledIsProduct(|keys|, lo);
    ScaledIsProduct(|keys|, hi);
    QuotientBounds(SumPrices(t.rows, keys), |keys| as real, lo, hi);
  }

  lemma QuotientBounds(s: real, n: real, lo: real, hi: real)
    requires n > 0.0 && n * lo <= s <= n * hi
    ensures lo <= s / n <= hi
  {
    var a := s / n;
    assert a * n == s;
  }

  // ---------------------------------------------------------------------------
  // The caller's record and the store

  /** The `model.ExchangePrice` a caller hands to the upsert; the upsert writes its `date`. */
  class ExchangePrice {
    var symbol: string
    var exchange: string
    var price: real
    var timestamp: int
    var date: int

    /** A record built with only symbol, exchange, price and timestamp set. */
    constructor (symbol: string, exchange: string, price: real, timestamp: int)
      ensures this.symbol == symbol && this.exchange == exchange
      ensures this.price == price && this.timestamp == timestamp
      ensures this.date == ZeroDay
    {
      this.symbol := symbol;
      this.exchange := exchange;
      this.price := price;
      this.timestamp := timestamp;
      this.date := ZeroDay;
    }
  }

  /** The `exchange_prices` table behind `ExchangePriceRepository`. */
  class PriceStore {
    var rows: map<Key, PriceRow>
    var nextId: nat

    function State(): Table
      reads this
    {
      Table(rows, nextId)
    }

    ghost predicate Valid()
      reads this
    {
      ValidTable(State())
    }

    constructor ()
      ensures State() == EmptyTable && Valid()
    {
      rows := map[];
      nextId := 1;
    }

    /**
     * `UpsertExchangePrice`: the record's date becomes the UTC day of its
     * timestamp, then the record is upserted on (symbol, exchange, date). A
     * write the database refuses leaves the table as it was.
     */
    method UpsertExchangePrice(record: ExchangePrice, dbAccepts: bool, writeTime: int) returns (err: Option<RepoError>)
      requires Valid()
      modifies this, record
      ensures Valid()
      ensures record.date == DayOf(record.timestamp)
      ensures record.symbol == old(record.symbol) && record.exchange == old(record.exchange)
      ensures record.price == old(record.price) && record.timestamp == old(record.timestamp)
      ensures err.None? <==> dbAccepts
      ensures err.Some? ==> err.value == UpsertFailed
      ensures dbAccepts ==>
        State() == Upserted(old(State()), record.symbol, record.exchange, record.price, record.timestamp, writeTime)
      ensures !dbAccepts ==> State() == old(State())
    {
      record.date := DayOf(record.timestamp);
      if !dbAccepts {
        return Some(UpsertFailed);
      }
      UpsertKeepsValid(State(), record.symbol, record.exchange, record.price, record.timestamp, writeTime);
      var key := (record.symbol, record.exchange, record.date);
      if key in rows {
        var existing := rows[key];
        rows := rows[key := existing.(price := record.price, timestamp := record.timestamp, updatedAt := writeTime)];
      } else {
        rows := rows[key := PriceRow(nextId, writeTime, writeTime, record.symbol, record.exchange,
                                     record.price, record.timestamp, record.date)];
        nextId := nextId + 1;
      }
      err := None;
    }

    /**
     * `GetLatestExchangePriceBySymbolAndExchange`: the row of this symbol and
     * exchange with the greatest timestamp (lowest id among equals), or
     * record-not-found when there is none.
     */
    method GetLatestExchangePriceBySymbolAndExchange(symbol: string, exchange: string)
      returns (r: Result<PriceRow, RepoError>)
      ensures r.Failure? <==> Matching(State(), symbol, exchange) == {}
      ensures r.Failure? ==> r.error == RecordNotFound
      ensures r.Success? ==> IsLatest(State(), symbol, exchange, r.value)
    {
      var todo := rows.Keys;
      var best: Option<PriceRow> := None;
      ghost var bestKey: Key := ("", "", 0);
      while todo != {}
        invariant todo <= rows.Keys
        invariant best.None? ==> forall k :: k in Matching(State(), symbol, exchange) ==> k in todo
        invariant best.Some? ==>
          && bestKey in Matching(State(), symbol, exchange) && rows[bestKey] == best.value
          && forall k :: k in Matching(State(), symbol, exchange) && k !in todo ==> ComesFirst(best.value, rows[k])
        decreases |todo|
      {
        var k :| k in todo;
        var row := rows[k];
        if k.0 == symbol && k.1 == exchange {
          if best.None? || !ComesFirst(best.value, row) {
            best := Some(row);
            bestKey := k;
          }
        }
        todo := todo - {k};
      }
      if best.None? {
        return Failure(RecordNotFound);
      }
      r := Success(best.value);
    }

    /**
     * `GetAveragePriceForLastNDays`: the mean price of the rows of this symbol
     * and exchange whose date is at or after `nowMs` minus `days` days.
     */
    method GetAveragePriceForLastNDays(symbol: string, exchange: string, days: int, nowMs: int)
      returns (avg: Option<real>)
      ensures avg == AverageOver(State(), InWindow(State(), symbol, exchange, days, nowMs))
    {
      var threshold := nowMs - days * MsPerDay;
      ghost var window := InWindow(State(), symbol, exchange, days, nowMs);
      var todo := rows.Keys;
      var sum := 0.0;
      var count := 0;
      assert window * todo == window;
      while todo != {}
        invariant todo <= rows.Keys
        invariant count == |window - todo|
        invariant sum + SumPrices(rows, window * todo) == SumPrices(rows, window)
        decreases |todo|
      {
        var k :| k in todo;
        WindowStepCount(window, todo, k);
        if k in window {
          WindowStepSum(rows, window, todo, k);
        }
        if k.0 == symbol && k.1 == exchange && k.2 * MsPerDay >= threshold {
          sum := sum + rows[k].price;
          count := count + 1;
        }
        todo := todo - {k};
      }
      assert window * todo == {} && window - todo == window;
      if count == 0 {
        return None;
      }
      avg := Some(sum / count as real);
    }
  }
}
