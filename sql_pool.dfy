/**
 * The vapm SQL pool (`vennv\vapm\database\SQLPool`): like the MySQL pool,
 * but the connection class is chosen by a type name, "mysql" or "sqlite".
 * Each connection is the record of the class and the arguments it is built
 * with, and the busy flags each scan sees and the value each awaited
 * promise gives back are supplied. Of the vapm SQLite connection class only
 * one fact matters: it has no `isBusy()` method, so scanning a pool of
 * SQLite connections throws.
 */
module SQLPools {

  import opened Wrappers
  import opened QueryUtil
  import opened ResultQueries
  import opened Driver
  import opened Pools

  /** The two connection classes a pool can hold. */
  datatype Kind = MySQLKind | SQLiteKind

  const INVALID_TYPE: string := "Invalid type of SQL connection"

  /**
   * The vapm SQLite connection keeps its busy flag in a private property and
   * has no `isBusy()` method, so the scan's call to it throws.
   */
  const UNDEFINED_IS_BUSY: string := "Call to undefined method vennv\\vapm\\sqlite\\SQLite::isBusy()"

  /** The `match` on the type name: exactly "mysql" and "sqlite" name a class. */
  function KindOf(connectionType: string): (r: Result<Kind, string>)
    ensures r == Success(MySQLKind) <==> connectionType == "mysql"
    ensures r == Success(SQLiteKind) <==> connectionType == "sqlite"
    ensures r.Failure? ==> r.error == INVALID_TYPE
  {
    match connectionType
    case "mysql" => Success(MySQLKind)
    case "sqlite" => Success(SQLiteKind)
    case _ => Failure(INVALID_TYPE)
  }

  /** One connection: `new $type($host, $username, $password, $database, $port)`. */
  datatype Handler = Handler(kind: Kind, credentials: Credentials)

  /** The `for` loop of the constructor: `n` identical connections, none for a count of zero or less. */
  method BuildHandlers(kind: Kind, n: int, credentials: Credentials) returns (hs: seq<Handler>)
    ensures |hs| == if n > 0 then n else 0
    ensures forall i :: 0 <= i < |hs| ==> hs[i] == Handler(kind, credentials)
  {
    hs := [];
    var i := 0;
    while i < n
      invariant |hs| == if i > 0 then i else 0
      invariant i <= 0 || i <= n
      invariant forall j :: 0 <= j < |hs| ==> hs[j] == Handler(kind, credentials)
    {
      hs := hs + [Handler(kind, credentials)];
      i := i + 1;
    }
  }

  class SQLPool {
    const connectionType: string
    const kind: Kind
    const credentials: Credentials
    const handler: seq<Handler>

    /** The part of the constructor after the type name has been accepted. */
    constructor (connectionType: string, kind: Kind, numberConnections: int, credentials: Credentials)
      requires KindOf(connectionType) == Success(kind)
      ensures this.connectionType == connectionType && this.kind == kind && this.credentials == credentials
      ensures |handler| == if numberConnections > 0 then numberConnections else 0
      ensures forall i :: 0 <= i < |handler| ==> handler[i] == Handler(kind, credentials)
    {
      var hs := BuildHandlers(kind, numberConnections, credentials);
      this.connectionType := connectionType;
      this.kind := kind;
      this.credentials := credentials;
      handler := hs;
    }

    /**
     * `new SQLPool(...)`: an unknown type name throws before any connection
     * is built; otherwise the pool keeps the original type name and the
     * connection arguments, and holds `numberConnections` connections of
     * the named class.
     */
    static method Create(connectionType: string, numberConnections: int, host: string, username: string,
                         password: string, database: string, port: int := DEFAULT_PORT)
      returns (r: Result<SQLPool, string>)
      ensures r.Failure? <==> connectionType != "mysql" && connectionType != "sqlite"
      ensures r.Failure? ==> r.error == INVALID_TYPE
      ensures r.Success? ==> && fresh(r.value)
                             && r.value.connectionType == connectionType
                             && r.value.kind == KindOf(connectionType).value
                             && r.value.credentials == Credentials(host, username, password, database, port)
                             && |r.value.handler| == (if numberConnections > 0 then numberConnections else 0)
                             && forall i :: 0 <= i < |r.value.handler| ==>
                                  r.value.handler[i] == Handler(KindOf(connectionType).value, r.value.credentials)
    {
      var kind := KindOf(connectionType);
      if kind.Failure? {
        return Failure(kind.error);
      }
      var pool := new SQLPool(connectionType, kind.value, numberConnections,
                              Credentials(host, username, password, database, port));
      r := Success(pool);
    }

    /**
     * `execute`'s executor over the observed scans: the query goes to the
     * first free connection of the first scan that has one, and the loop
     * only ends on a non-null value. `sent` is the connection that
     * received the query on the deciding scan. On a pool of SQLite
     * connections the first scan throws at its first `isBusy()` call; an
     * empty pool of either kind never scans a connection.
     */
    method Execute(query: string, namedArgs: NamedArgs, rounds: seq<Round<ResultQuery>>)
      returns (r: Result<PoolOutcome<ResultQuery>, string>, sent: Option<Handler>)
      requires forall k :: 0 <= k < |rounds| ==> |rounds[k].busy| == |handler|
      ensures r.Failure? <==> kind == SQLiteKind && |handler| > 0
      ensures r.Failure? ==> r.error == UNDEFINED_IS_BUSY && sent == None
      ensures r.Success? ==> r.value == RunRounds(rounds)
      ensures r.Success? && r.value.Done? ==> r.value.handler < |handler| && sent == Some(handler[r.value.handler])
      ensures r.Success? && r.value.Waiting? ==> sent == None
    {
      if kind == SQLiteKind && |handler| > 0 {
        return Failure(UNDEFINED_IS_BUSY), None;
      }
      var outcome := AwaitResult(rounds);
      r := Success(outcome);
      sent := if outcome.Done? then Some(handler[outcome.handler]) else None;
    }
  }

  /** A type name other than the two known ones never builds a pool. */
  method RejectsUnknownType() returns (r: Result<SQLPool, string>)
    ensures r == Failure(INVALID_TYPE)
  {
    r := SQLPool.Create("postgres", 4, "localhost", "root", "", "test");
  }

  /** A pool of SQLite connections fails its first query; one with no connections keeps waiting. */
  method SQLitePoolCannotScan(n: int, rounds: seq<Round<ResultQuery>>)
    returns (r: Result<PoolOutcome<ResultQuery>, string>)
    requires forall k :: 0 <= k < |rounds| ==> |rounds[k].busy| == (if n > 0 then n else 0)
    ensures n > 0 ==> r == Failure(UNDEFINED_IS_BUSY)
    ensures n <= 0 ==> r == Success(Waiting)
  {
    var pool := SQLPool.Create("sqlite", n, "localhost", "root", "", "test");
    var sent;
    r, sent := pool.value.Execute("SELECT 1", [], rounds);
    if n <= 0 {
      NoHandlersNeverComplete(rounds);
    }
  }
}
