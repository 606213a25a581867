/**
 * The vapm MySQL connection (`vennv\vapm\mysql\MySQL`). `execute` refuses a
 * busy connection, marks it busy and hands back a promise whose executor
 * substitutes the named arguments, submits the query asynchronously and
 * polls until a link is ready or `time() - $begin` exceeds the query
 * timeout, clears the busy flag, and classifies the outcome. The polled
 * array is set once, so only the first poll can find the link ready;
 * `RepolledOutcome` is the loop that re-polls the link on every turn.
 * `Execute` models the part before the promise is returned, `Run` the
 * promise's executor.
 */
module AsyncMySQL {

  import opened Wrappers
  import opened QueryUtil
  import opened ResultQueries
  import opened Driver

  const BUSY_MESSAGE: string := "This MySQL connection is busy!"
  const QUERY_ERROR: string := "Query error!"
  const DEFAULT_QUERY_TIMEOUT: int := 10

  /** How the poll loop ends: a ready link, the timeout, or still polling when the observations run out. */
  datatype PollEnd =
    | Ready(errors: seq<string>, rejects: seq<string>)
    | TimedOut(errors: seq<string>, rejects: seq<string>)
    | StillPolling

  /**
   * The poll loop as written, over the observed steps. `linkPolled` says
   * whether `$poll` still holds the link: it is set once before the loop
   * (line 232) and `mysqli::poll` rewrites it by reference to the ready
   * links, so a poll that finds nothing ready leaves it empty and every
   * later poll reports no ready link. `errors` and `rejects` are the arrays
   * of the previous poll (both start empty).
   */
  function PollOutcome(steps: seq<PollStep>, timeout: int, linkPolled: bool, errors: seq<string>, rejects: seq<string>): (end: PollEnd)
    ensures end.StillPolling? ==> forall j :: 0 <= j < |steps| ==> steps[j].elapsed <= timeout
    ensures end.TimedOut? ==> exists j :: 0 <= j < |steps| && steps[j].elapsed > timeout
    decreases |steps|
  {
    if steps == [] then StillPolling
    else if steps[0].elapsed > timeout then TimedOut(errors, rejects)
    else if linkPolled && steps[0].ready > 0 then Ready(steps[0].errors, steps[0].rejects)
    else PollOutcome(steps[1..], timeout, false, steps[0].errors, steps[0].rejects)
  }

  /** The first `k` turns passed the time test. */
  predicate InTime(steps: seq<PollStep>, timeout: int, k: nat)
    requires k <= |steps|
  {
    forall j :: 0 <= j < k ==> steps[j].elapsed <= timeout
  }

  /** A first poll that finds the link ready ends the loop with that poll's errors and rejects. */
  lemma PollReadyFirst(steps: seq<PollStep>, timeout: int, errors: seq<string>, rejects: seq<string>)
    requires steps != [] && steps[0].elapsed <= timeout && steps[0].ready > 0
    ensures PollOutcome(steps, timeout, true, errors, rejects) == Ready(steps[0].errors, steps[0].rejects)
  {
  }

  /** Once `$poll` is empty no later turn ends the loop with a ready link. */
  lemma {:induction false} EmptyPollSetNeverReady(steps: seq<PollStep>, timeout: int, errors: seq<string>, rejects: seq<string>)
    ensures !PollOutcome(steps, timeout, false, errors, rejects).Ready?
    decreases |steps|
  {
    if steps != [] && steps[0].elapsed <= timeout {
      EmptyPollSetNeverReady(steps[1..], timeout, steps[0].errors, steps[0].rejects);
    }
  }

  /** The loop ends `Ready` exactly when the first turn is in time and finds the link ready. */
  lemma PollReadyOnlyFirst(steps: seq<PollStep>, timeout: int, errors: seq<string>, rejects: seq<string>)
    ensures PollOutcome(steps, timeout, true, errors, rejects).Ready?
        <==> steps != [] && steps[0].elapsed <= timeout && steps[0].ready > 0
  {
    if steps != [] && steps[0].elapsed <= timeout && steps[0].ready == 0 {
      EmptyPollSetNeverReady(steps[1..], timeout, steps[0].errors, steps[0].rejects);
    }
  }

  /**
   * Without a ready first poll the loop gives up at the first turn whose
   * elapsed time exceeds the timeout, keeping the errors and rejects of the
   * poll before it.
   */
  lemma {:induction false} PollTimedOutAt(steps: seq<PollStep>, timeout: int, k: nat, linkPolled: bool, errors: seq<string>, rejects: seq<string>)
    requires k < |steps| && InTime(steps, timeout, k)
    requires steps[k].elapsed > timeout
    requires linkPolled && k > 0 ==> steps[0].ready == 0
    ensures PollOutcome(steps, timeout, linkPolled, errors, rejects)
         == if k == 0 then TimedOut(errors, rejects) else TimedOut(steps[k - 1].errors, steps[k - 1].rejects)
    decreases k
  {
    if k > 0 {
      PollTimedOutAt(steps[1..], timeout, k - 1, false, steps[0].errors, steps[0].rejects);
    }
  }

  /** If every observed turn is in time and the first poll finds nothing ready, the executor is still polling. */
  lemma {:induction false} PollStillRunning(steps: seq<PollStep>, timeout: int, linkPolled: bool, errors: seq<string>, rejects: seq<string>)
    requires InTime(steps, timeout, |steps|)
    requires linkPolled && steps != [] ==> steps[0].ready == 0
    ensures PollOutcome(steps, timeout, linkPolled, errors, rejects) == StillPolling
    decreases |steps|
  {
    if steps != [] {
      PollStillRunning(steps[1..], timeout, false, steps[0].errors, steps[0].rejects);
    }
  }

  /** A negative timeout fails the first loop test: nothing is polled and the query times out. */
  lemma NegativeTimeoutNeverPolls(steps: seq<PollStep>, timeout: int)
    requires timeout < 0 && steps != []
    ensures PollOutcome(steps, timeout, true, [], []) == TimedOut([], [])
  {
  }

  /**
   * The loop as evidently intended: the link is polled on every turn
   * (`$poll` re-armed before each poll), so a later ready link ends it.
   */
  function RepolledOutcome(steps: seq<PollStep>, timeout: int, errors: seq<string>, rejects: seq<string>): PollEnd
    decreases |steps|
  {
    if steps == [] then StillPolling
    else if steps[0].elapsed > timeout then TimedOut(errors, rejects)
    else if steps[0].ready > 0 then Ready(steps[0].errors, steps[0].rejects)
    else RepolledOutcome(steps[1..], timeout, steps[0].errors, steps[0].rejects)
  }

  /** With re-polling, the loop stops at the first in-time turn that reports a ready link. */
  lemma {:induction false} RepolledReadyAt(steps: seq<PollStep>, timeout: int, k: nat, errors: seq<string>, rejects: seq<string>)
    requires k < |steps| && InTime(steps, timeout, k + 1)
    requires forall j :: 0 <= j < k ==> steps[j].ready == 0
    requires steps[k].ready > 0
    ensures RepolledOutcome(steps, timeout, errors, rejects) == Ready(steps[k].errors, steps[k].rejects)
    decreases k
  {
    if k > 0 {
      RepolledReadyAt(steps[1..], timeout, k - 1, steps[0].errors, steps[0].rejects);
    }
  }

  /** The two loops agree except when a link becomes ready after the first poll. */
  lemma {:induction false} RepolledAgreesUnlessLate(steps: seq<PollStep>, timeout: int, errors: seq<string>, rejects: seq<string>)
    requires !RepolledOutcome(steps, timeout, errors, rejects).Ready?
          || (steps != [] && steps[0].elapsed <= timeout && steps[0].ready > 0)
    ensures PollOutcome(steps, timeout, true, errors, rejects) == RepolledOutcome(steps, timeout, errors, rejects)
  {
    if steps != [] && steps[0].elapsed <= timeout && steps[0].ready == 0 {
      PolledAgreesWhenNeverReady(steps[1..], timeout, steps[0].errors, steps[0].rejects);
    }
  }

  /** With an empty `$poll`, the loop matches the re-polling one as long as the latter never sees a ready link. */
  lemma {:induction false} PolledAgreesWhenNeverReady(steps: seq<PollStep>, timeout: int, errors: seq<string>, rejects: seq<string>)
    requires !RepolledOutcome(steps, timeout, errors, rejects).Ready?
    ensures PollOutcome(steps, timeout, false, errors, rejects) == RepolledOutcome(steps, timeout, errors, rejects)
    decreases |steps|
  {
    if steps != [] && steps[0].elapsed <= timeout {
      PolledAgreesWhenNeverReady(steps[1..], timeout, steps[0].errors, steps[0].rejects);
    }
  }

  /**
   * The discrepancy on a concrete input: the first poll finds nothing, the
   * second would find the link ready. As written the loop keeps polling an
   * empty array (and so ends in "Query error!" once the timeout passes);
   * re-polling ends it ready.
   */
  lemma LateReadyIgnored()
    ensures var steps := [PollStep(0, 0, [], []), PollStep(0, 1, [], [])];
            && PollOutcome(steps, DEFAULT_QUERY_TIMEOUT, true, [], []) == StillPolling
            && RepolledOutcome(steps, DEFAULT_QUERY_TIMEOUT, [], []) == Ready([], [])
  {
    var steps := [PollStep(0, 0, [], []), PollStep(0, 1, [], [])];
    assert steps[1..] == [PollStep(0, 1, [], [])];
    assert steps[1..][1..] == [];
  }

  /** The poll loop of `execute` (lines 232-242): one iteration per observed step. */
  method Poll(steps: seq<PollStep>, timeout: int) returns (end: PollEnd)
    ensures end == PollOutcome(steps, timeout, true, [], [])
  {
    var linkPolled := true;
    var errors: seq<string> := [];
    var rejects: seq<string> := [];
    var numQueries: nat := 0;
    var k := 0;
    while k < |steps| && steps[k].elapsed <= timeout
      invariant 0 <= k <= |steps|
      invariant numQueries == 0
      invariant k > 0 ==> !linkPolled
      invariant PollOutcome(steps[k..], timeout, linkPolled, errors, rejects) == PollOutcome(steps, timeout, true, [], [])
    {
      numQueries := if linkPolled then steps[k].ready else 0;
      linkPolled := numQueries > 0;
      errors, rejects := steps[k].errors, steps[k].rejects;
      if numQueries > 0 {
        break;
      }
      k := k + 1;
    }
    if numQueries > 0 {
      end := Ready(errors, rejects);
    } else if k == |steps| {
      end := StillPolling;
    } else {
      end := TimedOut(errors, rejects);
    }
  }

  /**
   * Lines 244-251 after the loop: no ready link rejects with "Query error!";
   * otherwise the reap decides. `false` rejects with the driver's error
   * text, `true` and a result set resolve with an empty reason. An exception
   * from the reap is not caught by the executor.
   */
  function Conclude(end: PollEnd, reap: Reap): (s: Settlement<ResultQuery, ResultQuery>)
    ensures s.Pending? <==> end.StillPolling?
    ensures end.TimedOut? ==> s == Rejected(Failed(QUERY_ERROR, end.errors, end.rejects))
    ensures s.Fulfilled? <==> end.Ready? && (reap.ReapTrue? || reap.ReapRows?)
    ensures s.Fulfilled? ==> WellFormed(s.value) && s.value.status == SUCCESS && s.value.result != NullResult
                             && s.value.errors == end.errors && s.value.rejects == end.rejects
    ensures s.Rejected? ==> WellFormed(s.reason) && s.reason.status == FAILED
    ensures end.Ready? && reap.ReapFalse? ==> s == Rejected(Failed(reap.error, end.errors, end.rejects))
    ensures end.Ready? && reap.ReapTrue? ==> s == Fulfilled(Succeeded(end.errors, end.rejects, BoolResult(true)))
    ensures end.Ready? && reap.ReapRows? ==> s == Fulfilled(Succeeded(end.errors, end.rejects, RowsResult(reap.rows)))
    ensures s.Raised? <==> end.Ready? && reap.ReapThrows?
  {
    match end
    case StillPolling => Pending
    case TimedOut(errors, rejects) => Rejected(Failed(QUERY_ERROR, errors, rejects))
    case Ready(errors, rejects) =>
      match reap
      case ReapFalse(error) => Rejected(Failed(error, errors, rejects))
      case ReapTrue => Fulfilled(Succeeded(errors, rejects, BoolResult(true)))
      case ReapRows(rows) => Fulfilled(Succeeded(errors, rejects, RowsResult(rows)))
      case ReapThrows => Raised("reap_async_query threw")
  }

  /** What the promise's executor captures: the raw query and its named arguments. */
  datatype Request = Request(query: string, namedArgs: NamedArgs)

  class MySQL {
    const credentials: Credentials
    var isBusy: bool
    var queryTimeout: int

    constructor (host: string, username: string, password: string, database: string, port: int := DEFAULT_PORT)
      ensures credentials == Credentials(host, username, password, database, port)
      ensures !isBusy && queryTimeout == DEFAULT_QUERY_TIMEOUT
    {
      credentials := Credentials(host, username, password, database, port);
      isBusy := false;
      queryTimeout := DEFAULT_QUERY_TIMEOUT;
    }

    method IsBusy() returns (busy: bool)
      ensures busy == isBusy
    {
      busy := isBusy;
    }

    method GetQueryTimeout() returns (timeout: int)
      ensures timeout == queryTimeout
    {
      timeout := queryTimeout;
    }

    method SetQueryTimeout(timeout: int)
      modifies this`queryTimeout
      ensures queryTimeout == timeout
    {
      queryTimeout := timeout;
    }

    /**
     * `execute` up to the return of the promise: a busy connection throws and
     * keeps its state; a free one becomes busy.
     */
    method Execute(query: string, namedArgs: NamedArgs) returns (r: Result<Request, string>)
      modifies this`isBusy
      ensures old(isBusy) ==> r == Failure(BUSY_MESSAGE)
      ensures !old(isBusy) ==> r == Success(Request(query, namedArgs))
      ensures isBusy
    {
      if isBusy {
        return Failure(BUSY_MESSAGE);
      }
      isBusy := true;
      r := Success(Request(query, namedArgs));
    }

    /**
     * The promise's executor. `issued` is the query text sent to the driver.
     * Once the loop ends, on the ready path and on the timed-out path alike,
     * the busy flag is cleared before the outcome is decided.
     */
    method Run(request: Request, steps: seq<PollStep>, reap: Reap)
      returns (s: Settlement<ResultQuery, ResultQuery>, issued: string)
      modifies this`isBusy
      ensures issued == BuildQuery(request.query, request.namedArgs)
      ensures s == Conclude(PollOutcome(steps, queryTimeout, true, [], []), reap)
      ensures s.Pending? ==> isBusy == old(isBusy)
      ensures !s.Pending? ==> !isBusy
    {
      issued := SubstituteIfAny(request.query, request.namedArgs);
      var end := Poll(steps, queryTimeout);
      if end.StillPolling? {
        return Pending, issued;
      }
      isBusy := false;
      s := Conclude(end, reap);
    }

    /**
     * `execute` followed by awaiting its promise: on a free connection the
     * connection is free again afterwards exactly when the query settled.
     */
    method ExecuteAndAwait(query: string, namedArgs: NamedArgs, steps: seq<PollStep>, reap: Reap)
      returns (r: Result<Settlement<ResultQuery, ResultQuery>, string>)
      modifies this`isBusy
      ensures old(isBusy) ==> r == Failure(BUSY_MESSAGE) && isBusy
      ensures !old(isBusy) ==> r == Success(Conclude(PollOutcome(steps, queryTimeout, true, [], []), reap))
      ensures !old(isBusy) ==> isBusy == r.value.Pending?
    {
      var started := Execute(query, namedArgs);
      if started.Failure? {
        return Failure(started.error);
      }
      var s, _ := Run(started.value, steps, reap);
      r := Success(s);
    }
  }
}
