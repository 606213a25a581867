/**
 * The database-layer MySQL connection (`venndev\vapmdatabase\database\mysql\MySQL`).
 * Its handle is nullable: `execute` reconnects a null handle, waits while
 * the connection is busy, marks it busy, reaps the asynchronous query
 * without polling (the polling code is disabled in the source), classifies
 * the outcome, then closes the handle, sets it to null and clears the busy
 * flag. The query timeout is stored but never read.
 */
module DatabaseMySQL {

  import opened Wrappers
  import opened QueryUtil
  import opened ResultQueries
  import opened Driver

  const QUERY_ERROR: string := "Query error!"
  const DEFAULT_QUERY_TIMEOUT: int := 2
  const NULL_HANDLE: string := "Call to a member function close() on null"
  const ALREADY_CLOSED: string := "mysqli object is already closed"
  const NULL_QUERY: string := "Call to a member function query() on null"

  /**
   * Lines 125-130: `false` rejects with the driver's error text, `true` or a
   * result set resolves with an empty reason, and an exception thrown by the
   * reap is caught and rejects with "Query error!". Errors and rejects stay
   * empty because nothing is polled.
   */
  function ReapSettlement(reap: Reap): (s: Settlement<ResultQuery, ResultQuery>)
    ensures s.Fulfilled? || s.Rejected?
    ensures s.Fulfilled? <==> reap.ReapTrue? || reap.ReapRows?
    ensures s.Fulfilled? ==> WellFormed(s.value) && s.value.status == SUCCESS && s.value.result != NullResult
    ensures s.Rejected? ==> WellFormed(s.reason) && s.reason.status == FAILED
    ensures s.Rejected? ==> s.reason.reason == if reap.ReapFalse? then reap.error else QUERY_ERROR
    ensures s.Fulfilled? ==> s.value.errors == [] && s.value.rejects == []
    ensures s.Rejected? ==> s.reason == Failed(s.reason.reason, [], [])
    ensures reap.ReapTrue? ==> s == Fulfilled(Succeeded([], [], BoolResult(true)))
    ensures reap.ReapRows? ==> s == Fulfilled(Succeeded([], [], RowsResult(reap.rows)))
  {
    match reap
    case ReapFalse(error) => Rejected(Failed(error, [], []))
    case ReapTrue => Fulfilled(Succeeded([], [], BoolResult(true)))
    case ReapRows(rows) => Fulfilled(Succeeded([], [], RowsResult(rows)))
    case ReapThrows => Rejected(Failed(QUERY_ERROR, [], []))
  }

  class MySQL {
    const credentials: Credentials
    var mysqli: Link?
    var isBusy: bool
    var queryTimeout: int

    constructor (host: string, username: string, password: string, databaseName: string, port: int := DEFAULT_PORT)
      ensures credentials == Credentials(host, username, password, databaseName, port)
      ensures mysqli != null && fresh(mysqli) && mysqli.open && mysqli.credentials == credentials
      ensures !isBusy && queryTimeout == DEFAULT_QUERY_TIMEOUT
    {
      credentials := Credentials(host, username, password, databaseName, port);
      mysqli := new Link(Credentials(host, username, password, databaseName, port));
      isBusy := false;
      queryTimeout := DEFAULT_QUERY_TIMEOUT;
    }

    method GetQueryTimeout() returns (timeout: int)
      ensures timeout == queryTimeout
    {
      timeout := queryTimeout;
    }

    method SetQueryTimeout(timeout: int)
      modifies this`queryTimeout
      ensures queryTimeout == timeout
    {
      queryTimeout := timeout;
    }

    /** `reconnect`: a new open handle from the stored credentials; the old one is not closed. */
    method Reconnect()
      modifies this`mysqli
      ensures mysqli != null && fresh(mysqli) && mysqli.open && mysqli.credentials == credentials
    {
      mysqli := new Link(credentials);
    }

    /**
     * `execute` and its promise's executor. `busyAfterWaits` holds the busy
     * flag as observed after each cooperative wait; `queryError` is the
     * exception the driver's `query` throws, if any; `issued` is the query
     * text given to the driver and `used` the handle it was sent on.
     *
     * The flag is set only by an executor that runs to the end of its
     * clean-up without yielding, which drops the handle before it clears
     * the flag (lines 132-136). So an executor that had to wait always
     * resumes on a null handle, and the `query` call throws; like every
     * exception thrown before the reap's `try`, it leaves the flag set.
     */
    method Execute(query: string, namedArgs: NamedArgs, busyAfterWaits: seq<bool>, queryError: Option<string>, reap: Reap)
      returns (s: Settlement<ResultQuery, ResultQuery>, issued: string, ghost used: Link?)
      modifies this`mysqli, this`isBusy, mysqli
      ensures issued == BuildQuery(query, namedArgs)
      ensures s.Pending? <==> !FreedWithin(old(isBusy), busyAfterWaits)
      ensures s.Pending? ==> isBusy && mysqli != null && used == null
      ensures s.Pending? && old(mysqli) != null ==> mysqli == old(mysqli)
      ensures s.Pending? && old(mysqli) == null ==> fresh(mysqli) && mysqli.credentials == credentials && mysqli.open
      ensures (old(mysqli) != null && (old(isBusy) || !old(mysqli.open) || queryError.Some?))
                ==> old(mysqli).open == old(mysqli.open)
      ensures old(isBusy) && !s.Pending? ==> s == Raised(NULL_QUERY) && isBusy && mysqli == null && used == null
      ensures !old(isBusy) ==> used != null
      ensures !old(isBusy) && old(mysqli) != null ==> used == old(mysqli)
      ensures !old(isBusy) && old(mysqli) == null ==> fresh(used) && used.credentials == credentials
      ensures !old(isBusy) && !old(mysqli == null || mysqli.open) ==> s == Raised(ALREADY_CLOSED) && isBusy && mysqli == used
      ensures (!old(isBusy) && old(mysqli == null || mysqli.open) && queryError.Some?)
                ==> s == Raised(queryError.value) && isBusy && mysqli == used && used.open
      ensures (!old(isBusy) && old(mysqli == null || mysqli.open) && queryError.None?)
                ==> s == ReapSettlement(reap) && mysqli == null && !isBusy && !used.open
    {
      issued := SubstituteIfAny(query, namedArgs);
      if mysqli == null {
        Reconnect();
      }
      var waited := isBusy;
      isBusy := WaitWhileBusy(isBusy, busyAfterWaits);
      if isBusy {
        return Pending, issued, null;
      }
      if waited {
        // the executor that cleared the flag had dropped the handle first
        mysqli := null;
        isBusy := true;
        return Raised(NULL_QUERY), issued, null;
      }
      isBusy := true;
      used := mysqli;
      if !mysqli.open {
        return Raised(ALREADY_CLOSED), issued, used;
      }
      if queryError.Some? {
        return Raised(queryError.value), issued, used;
      }
      s := ReapSettlement(reap);
      mysqli.open := false;
      mysqli := null;
      isBusy := false;
    }

    /**
     * `close` (also what the destructor does): it dereferences the handle
     * unconditionally, so it fails once `execute` has set the handle to null,
     * and fails again on a handle already closed.
     */
    method Close() returns (o: Outcome<string>)
      modifies mysqli
      ensures mysqli == null ==> o == Fail(NULL_HANDLE)
      ensures mysqli != null && !old(mysqli.open) ==> o == Fail(ALREADY_CLOSED)
      ensures mysqli != null && old(mysqli.open) ==> o == Pass
      ensures mysqli != null ==> !mysqli.open
    {
      if mysqli == null {
        return Fail(NULL_HANDLE);
      }
      if !mysqli.open {
        return Fail(ALREADY_CLOSED);
      }
      mysqli.open := false;
      o := Pass;
    }
  }

  /**
   * Two queries in a row on a new connection: the first closes and drops
   * its handle, so the second always runs on a freshly reconnected one, and
   * closing the connection afterwards fails.
   */
  method TwoQueries(reap1: Reap, reap2: Reap)
    returns (s1: Settlement<ResultQuery, ResultQuery>, s2: Settlement<ResultQuery, ResultQuery>,
             ghost first: Link?, ghost second: Link?, closed: Outcome<string>)
    ensures s1 == ReapSettlement(reap1) && s2 == ReapSettlement(reap2)
    ensures first != second && second != null && fresh(second)
    ensures closed == Fail(NULL_HANDLE)
  {
    var db := new MySQL("localhost", "root", "", "test");
    var q1, q2;
    s1, q1, first := db.Execute("SELECT 1", [], [], None, reap1);
    s2, q2, second := db.Execute("SELECT 2", [], [], None, reap2);
    closed := db.Close();
  }
}
