/**
 * The vapm MySQL pool (`vennv\vapm\mysql\MySQLPool`): a fixed list of vapm
 * MySQL connections sharing one set of credentials. `execute` scans the
 * connections for a free one, dispatches the query to it and awaits its
 * promise; with none free it waits and scans again. During a wait other
 * tasks run and change the connections' busy flags; the flags they leave
 * are supplied, one list per wait.
 */
module MySQLPools {

  import opened Wrappers
  import opened QueryUtil
  import opened ResultQueries
  import opened Driver
  import opened Pools
  import AsyncMySQL

  /** The busy flags of a list of connections, in order. */
  function Flags(hs: seq<AsyncMySQL.MySQL>): (f: seq<bool>)
    reads hs
    ensures |f| == |hs| && forall i :: 0 <= i < |hs| ==> f[i] == hs[i].isBusy
  {
    seq(|hs|, i reads hs requires 0 <= i < |hs| => hs[i].isBusy)
  }

  /** No connection object appears twice in the list. */
  predicate Distinct(hs: seq<AsyncMySQL.MySQL>)
  {
    forall i, j :: 0 <= i < j < |hs| ==> hs[i] != hs[j]
  }

  class MySQLPool {
    const credentials: Credentials
    const handler: seq<AsyncMySQL.MySQL>

    /**
     * `numberConnections` new connections, in order, each built from the
     * pool's own arguments; a count of zero or less builds none.
     */
    constructor (numberConnections: int, host: string, username: string, password: string, database: string,
                 port: int := DEFAULT_PORT)
      ensures credentials == Credentials(host, username, password, database, port)
      ensures |handler| == if numberConnections > 0 then numberConnections else 0
      ensures Distinct(handler)
      ensures forall i :: 0 <= i < |handler| ==> && fresh(handler[i])
                                                 && handler[i].credentials == credentials
                                                 && !handler[i].isBusy
                                                 && handler[i].queryTimeout == AsyncMySQL.DEFAULT_QUERY_TIMEOUT
    {
      credentials := Credentials(host, username, password, database, port);
      var hs: seq<AsyncMySQL.MySQL> := [];
      var i := 0;
      while i < numberConnections
        invariant |hs| == if i > 0 then i else 0
        invariant i <= 0 || i <= numberConnections
        invariant Distinct(hs)
        invariant forall j :: 0 <= j < |hs| ==> && fresh(hs[j])
                                                && hs[j].credentials == Credentials(host, username, password, database, port)
                                                && !hs[j].isBusy
                                                && hs[j].queryTimeout == AsyncMySQL.DEFAULT_QUERY_TIMEOUT
      {
        var m := new AsyncMySQL.MySQL(host, username, password, database, port);
        hs := hs + [m];
        i := i + 1;
      }
      handler := hs;
    }

    /** The busy flags a scan of the pool sees. */
    function BusyFlags(): (f: seq<bool>)
      reads handler
    {
      Flags(handler)
    }

    /**
     * The effect of one `FiberManager::wait()` on the pool: other tasks
     * run and leave the connections with the given busy flags.
     */
    method OthersRun(flags: seq<bool>)
      requires Distinct(handler) && |flags| == |handler|
      modifies handler`isBusy
      ensures BusyFlags() == flags
    {
      var i := 0;
      while i < |handler|
        invariant 0 <= i <= |handler|
        invariant forall j :: 0 <= j < i ==> handler[j].isBusy == flags[j]
      {
        handler[i].isBusy := flags[i];
        i := i + 1;
      }
    }

    /**
     * `execute` and its executor. The first scan sees the connections as
     * they are; scan k + 1 follows the k-th wait. The first free connection
     * of the first scan that finds one receives the query and is awaited.
     * The pool's promise is taken to settle as that connection's does, a
     * rejection included; `Async::await` is not part of this model.
     * `dispatch` is the scan and connection chosen, if any.
     */
    method Execute(query: string, namedArgs: NamedArgs, waits: seq<seq<bool>>, steps: seq<PollStep>, reap: Reap)
      returns (s: Settlement<ResultQuery, ResultQuery>, ghost dispatch: Option<(nat, nat)>)
      requires Distinct(handler)
      requires forall k :: 0 <= k < |waits| ==> |waits[k]| == |handler|
      modifies handler`isBusy
      ensures dispatch == FirstDispatch([old(BusyFlags())] + waits)
      ensures dispatch.None? ==> && s.Pending?
                                 && forall j :: 0 <= j < |handler| ==> handler[j].isBusy == ([old(BusyFlags())] + waits)[|waits|][j]
      ensures dispatch.Some? ==> var (k, i) := dispatch.value;
              && i < |handler|
              && s == AsyncMySQL.Conclude(AsyncMySQL.PollOutcome(steps, handler[i].queryTimeout, true, [], []), reap)
              && handler[i].isBusy == s.Pending?
              && forall j :: 0 <= j < |handler| && j != i ==> handler[j].isBusy == ([old(BusyFlags())] + waits)[k][j]
    {
      var first := BusyFlags();
      ghost var scans := [first] + waits;
      var chosen, k, last := AwaitFree(first, waits);
      if chosen.None? {
        return Pending, None;
      }
      var i := chosen.value;
      dispatch := Some((k, i));
      s := Dispatch(i, query, namedArgs, steps, reap);
    }

    /**
     * The scanning loop: scan, and while no connection is free and waits
     * remain, wait and scan again. `chosen` is the free connection of the
     * last scan, if any, `k` the number of waits taken and `last` the flags
     * the last scan saw.
     */
    method AwaitFree(first: seq<bool>, waits: seq<seq<bool>>) returns (chosen: Option<nat>, k: nat, ghost last: seq<bool>)
      requires Distinct(handler) && BusyFlags() == first
      requires forall k :: 0 <= k < |waits| ==> |waits[k]| == |handler|
      modifies handler`isBusy
      ensures k <= |waits| && last == ([first] + waits)[k]
      ensures |last| == |handler| && forall i :: 0 <= i < |handler| ==> handler[i].isBusy == last[i]
      ensures chosen == FirstFree(last)
      ensures FirstDispatch([first] + waits) == if chosen.None? then None else Some((k, chosen.value))
    {
      ghost var scans := [first] + waits;
      chosen := Scan(first);
      k := 0;
      last := first;
      while chosen.None? && k < |waits|
        invariant 0 <= k <= |waits| && last == scans[k]
        invariant |last| == |handler| && forall i :: 0 <= i < |handler| ==> handler[i].isBusy == last[i]
        invariant chosen == FirstFree(last)
        invariant FirstDispatchFrom(scans, 0) == FirstDispatchFrom(scans, k)
      {
        chosen := WaitAndScan(waits[k]);
        last := waits[k];
        k := k + 1;
      }
    }

    /** One `FiberManager::wait()` followed by a new scan. */
    method WaitAndScan(flags: seq<bool>) returns (chosen: Option<nat>)
      requires Distinct(handler) && |flags| == |handler|
      modifies handler`isBusy
      ensures forall i :: 0 <= i < |handler| ==> handler[i].isBusy == flags[i]
      ensures chosen == FirstFree(flags)
    {
      OthersRun(flags);
      chosen := Scan(flags);
    }

    /** `Async::await($handler->execute($query, $namedArgs))` on a connection the scan found free. */
    method Dispatch(i: nat, query: string, namedArgs: NamedArgs, steps: seq<PollStep>, reap: Reap)
      returns (s: Settlement<ResultQuery, ResultQuery>)
      requires Distinct(handler) && i < |handler| && !handler[i].isBusy
      modifies handler`isBusy
      ensures s == AsyncMySQL.Conclude(AsyncMySQL.PollOutcome(steps, handler[i].queryTimeout, true, [], []), reap)
      ensures handler[i].isBusy == s.Pending?
      ensures forall j :: 0 <= j < |handler| && j != i ==> handler[j].isBusy == old(handler[j].isBusy)
    {
      var awaited := handler[i].ExecuteAndAwait(query, namedArgs, steps, reap);
      s := awaited.value;
    }
  }

  /** A pool built with no connections (or a negative count) never dispatches a query. */
  method EmptyPoolNeverSettles(waits: seq<seq<bool>>, steps: seq<PollStep>, reap: Reap)
    returns (s: Settlement<ResultQuery, ResultQuery>)
    requires forall k :: 0 <= k < |waits| ==> waits[k] == []
    ensures s.Pending?
  {
    var pool := new MySQLPool(0, "localhost", "root", "", "test");
    ghost var dispatch;
    s, dispatch := pool.Execute("SELECT 1", [], waits, steps, reap);
  }

  /**
   * On a new pool every connection is free, so the first one takes the first
   * query, which settles as that connection's poll with the default timeout.
   */
  method FirstQueryGoesToFirstConnection(n: int, steps: seq<PollStep>, reap: Reap)
    returns (s: Settlement<ResultQuery, ResultQuery>, ghost dispatch: Option<(nat, nat)>)
    requires n > 0
    ensures dispatch == Some((0, 0))
    ensures s == AsyncMySQL.Conclude(AsyncMySQL.PollOutcome(steps, AsyncMySQL.DEFAULT_QUERY_TIMEOUT, true, [], []), reap)
  {
    var pool := new MySQLPool(n, "localhost", "root", "", "test");
    assert forall i :: 0 <= i < |pool.BusyFlags()| ==> !pool.BusyFlags()[i];
    AllFreePicksFirst(pool.BusyFlags());
    s, dispatch := pool.Execute("SELECT 1", [], [], steps, reap);
  }
}
