/**
 * What the connections need to know of their drivers. The drivers
 * themselves (mysqli, SQLite3) are not modelled: each call into them is an
 * outcome supplied by the caller of the model, and each cooperative wait
 * (`FiberManager::wait()`) is one step through a supplied sequence of
 * observations.
 */
module Driver {

  import opened ResultQueries

  /** The readonly connection arguments of a MySQL handle. */
  datatype Credentials = Credentials(host: string, username: string, password: string, database: string, port: int)

  /** The port every constructor defaults to. */
  const DEFAULT_PORT: int := 3306

  /** A mysqli handle: built from credentials, open until closed. */
  class Link {
    const credentials: Credentials
    var open: bool

    constructor (credentials: Credentials)
      ensures this.credentials == credentials && open
    {
      this.credentials := credentials;
      open := true;
    }
  }

  /** What `reap_async_query` gives: `false` (with the handle's error text), `true`, a result set, or an exception. */
  datatype Reap = ReapFalse(error: string) | ReapTrue | ReapRows(rows: seq<Row>) | ReapThrows

  /**
   * One turn of a poll loop: the value of `time() - $begin` when the loop
   * condition is tested, then what `mysqli::poll` reports: the number of
   * ready links and the contents of its by-reference error and reject arrays.
   */
  datatype PollStep = PollStep(elapsed: nat, ready: nat, errors: seq<string>, rejects: seq<string>)

  /**
   * `while ($this->isBusy) FiberManager::wait();` ends within the observed
   * waits: the flag is already clear, or some wait observes it cleared by
   * another task.
   */
  predicate FreedWithin(busy: bool, busyAfterWaits: seq<bool>)
  {
    !busy || false in busyAfterWaits
  }

  /**
   * The busy-wait loop itself: the flag as left after the observed waits,
   * false as soon as some wait sees it cleared.
   */
  method WaitWhileBusy(busy: bool, busyAfterWaits: seq<bool>) returns (stillBusy: bool)
    ensures stillBusy == !FreedWithin(busy, busyAfterWaits)
  {
    stillBusy := busy;
    var k := 0;
    while stillBusy && k < |busyAfterWaits|
      invariant 0 <= k <= |busyAfterWaits|
      invariant k > 0 ==> busy
      invariant stillBusy ==> false !in busyAfterWaits[..k]
      invariant !stillBusy ==> !busy || false in busyAfterWaits[..k]
    {
      stillBusy := busyAfterWaits[k];
      k := k + 1;
    }
    assert k == |busyAfterWaits| ==> busyAfterWaits[..k] == busyAfterWaits;
  }
}
