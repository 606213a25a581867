/**
 * The database-layer SQLite connection (`venndev\vapmdatabase\database\sqlite\SQLite`).
 * Both `execute` and `executeSync` substitute the named arguments (always:
 * with none it is the identity) and consult the result cache, which they
 * only read; neither writes a result into it. The process-wide cache is
 * passed in as the `CachingQueryHandler` object.
 */
module DatabaseSQLite {

  import opened Wrappers
  import opened QueryUtil
  import opened ResultQueries
  import opened Driver
  import opened QueryCaching

  /**
   * What `SQLite3::query` and the following `fetchArray` give: `false` (with
   * `lastErrorMsg`), a first row, no row (`fetchArray` returns `false`), or an
   * exception thrown by `fetchArray`.
   */
  datatype SqlQuery = QueryFalse(lastError: string) | FirstRow(row: Row) | NoRows | FetchThrows(message: string)

  /**
   * The executor of `execute` once the query has run (lines 81-96). A false
   * query rejects with an Exception carrying `lastErrorMsg`; an exception from
   * `fetchArray` rejects with that exception (the `$resolve` that follows it
   * has no effect on the rejected promise); otherwise the promise resolves
   * with SUCCESS, an empty reason, no errors or rejects and the first row only.
   */
  function QuerySettlement(q: SqlQuery): (s: Settlement<ResultQuery, string>)
    ensures s.Fulfilled? || s.Rejected?
    ensures s.Rejected? <==> q.QueryFalse? || q.FetchThrows?
    ensures q.QueryFalse? ==> s == Rejected(q.lastError)
    ensures s.Fulfilled? ==> WellFormed(s.value) && s.value.status == SUCCESS
                             && s.value.errors == [] && s.value.rejects == []
    ensures q.FirstRow? ==> s == Fulfilled(Succeeded([], [], RowResult(q.row)))
    ensures q.NoRows? ==> s == Fulfilled(Succeeded([], [], BoolResult(false)))
    ensures q.FetchThrows? ==> s == Rejected(q.message)
  {
    match q
    case QueryFalse(lastError) => Rejected(lastError)
    case FirstRow(row) => Fulfilled(Succeeded([], [], RowResult(row)))
    case NoRows => Fulfilled(Succeeded([], [], BoolResult(false)))
    case FetchThrows(message) => Rejected(message)
  }

  /** What `executeSync` ends with: a record or an Exception it returns, or an error it throws. */
  datatype SyncResult = Returned(result: ResultQuery) | ReturnedException(message: string) | Threw(error: string)

  /**
   * `$reject` is not defined in `executeSync`, so the call in its catch block
   * throws instead of returning.
   */
  const UNDEFINED_REJECT: string := "Value of type null is not callable"

  /** `executeSync` once the query has run (lines 111-128). */
  function SyncOutcome(q: SqlQuery): (r: SyncResult)
    ensures r.Threw? <==> q.FetchThrows?
  {
    match q
    case QueryFalse(lastError) => ReturnedException(lastError)
    case FirstRow(row) => Returned(Succeeded([], [], RowResult(row)))
    case NoRows => Returned(Succeeded([], [], BoolResult(false)))
    case FetchThrows(_) => Threw(UNDEFINED_REJECT)
  }

  /**
   * The two paths agree except on an exception from `fetchArray`: the same
   * record where `execute` resolves, and the same message where `execute`
   * rejects because the query returned false (returned, not thrown).
   */
  lemma SyncAgreesWithAsync(q: SqlQuery)
    ensures !q.FetchThrows? ==> (QuerySettlement(q).Fulfilled? <==> SyncOutcome(q).Returned?)
    ensures QuerySettlement(q).Fulfilled? ==> SyncOutcome(q) == Returned(QuerySettlement(q).value)
    ensures q.QueryFalse? ==> SyncOutcome(q) == ReturnedException(QuerySettlement(q).reason)
  {
  }

  class SQLite {
    const databasePath: string
    var isBusy: bool

    constructor (databasePath: string)
      ensures this.databasePath == databasePath && !isBusy
    {
      this.databasePath := databasePath;
      isBusy := false;
    }

    /** `reconnect` does nothing. */
    method Reconnect()
      ensures unchanged(this)
    {
    }

    /**
     * `execute` and its promise's executor. A fresh cached result resolves
     * the promise at once, but the executor does not return: it still waits
     * for the connection, runs the query (`ran`) with the busy flag set only
     * around the query call, and its later settlement is ignored.
     */
    method Execute(query: string, namedArgs: NamedArgs, cache: CachingQueryHandler, expired: ResultQuery -> bool,
                   busyAfterWaits: seq<bool>, outcome: SqlQuery)
      returns (s: Settlement<ResultQuery, string>, issued: string, ran: bool)
      modifies this`isBusy, cache
      ensures issued == BuildQuery(query, namedArgs)
      ensures cache.cache == FreshLookup(old(cache.cache), issued, expired).1
      ensures ran == FreedWithin(old(isBusy), busyAfterWaits)
      ensures isBusy == !ran
      ensures var cached := FreshLookup(old(cache.cache), issued, expired).0;
              s == if cached.Some? then Fulfilled(cached.value)
                   else if ran then QuerySettlement(outcome)
                   else Pending
    {
      issued := BuildQuery(query, namedArgs);
      var cached := cache.GetResultFromCache(issued, expired);
      s := if cached.Some? then Fulfilled(cached.value) else Pending;
      isBusy := WaitWhileBusy(isBusy, busyAfterWaits);
      if isBusy {
        return s, issued, false;
      }
      isBusy := true;
      ran := true;  // `$this->sqlite->query($query)` runs here, with the flag set
      isBusy := false;
      s := SettleOnce(s, QuerySettlement(outcome));
    }

    /**
     * `executeSync`: a fresh cached result is returned without running the
     * query; the busy flag is neither read nor written.
     */
    method ExecuteSync(query: string, namedArgs: NamedArgs, cache: CachingQueryHandler, expired: ResultQuery -> bool,
                       outcome: SqlQuery)
      returns (r: SyncResult, issued: string)
      modifies cache
      ensures issued == BuildQuery(query, namedArgs)
      ensures cache.cache == FreshLookup(old(cache.cache), issued, expired).1
      ensures var cached := FreshLookup(old(cache.cache), issued, expired).0;
              r == if cached.Some? then Returned(cached.value) else SyncOutcome(outcome)
    {
      issued := BuildQuery(query, namedArgs);
      var cached := cache.GetResultFromCache(issued, expired);
      if cached.Some? {
        return Returned(cached.value), issued;
      }
      r := SyncOutcome(outcome);
    }
  }
}
