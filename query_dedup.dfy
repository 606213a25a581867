/**
 * `QueryHandler`: suppresses a raw query issued again within a short window
 * of its last admission. The two static fields (the stamp table and the
 * window) become fields of one object; `microtime(true)` is read twice by
 * `processQuery`, once for the expiry test and once for the new stamp, and
 * both readings are parameters.
 */
module QueryDedup {

  /** The default window, in seconds. */
  const DEFAULT_EXPIRE: real := 1.5

  /** What `processQuery` hands back: the callback's value, or PHP's `false` when suppressed. */
  datatype Processed<T> = Ran(value: T) | Suppressed

  /** The stamp of `query` is strictly older than the window at time `now`. */
  predicate Stale(stamps: map<string, real>, window: real, query: string, now: real)
    requires query in stamps
  {
    now - stamps[query] > window
  }

  /**
   * `processQuery` as a transition on the stamp table: whether the callback
   * runs, and the new table.
   */
  function Admit(stamps: map<string, real>, window: real, query: string, checkTime: real, stampTime: real)
    : (r: (bool, map<string, real>))
    ensures r.0 <==> query !in stamps || checkTime - stamps[query] > window
    ensures r.0 ==> r.1 == stamps[query := stampTime]
    ensures !r.0 ==> r.1 == stamps
  {
    var kept := if query in stamps && Stale(stamps, window, query, checkTime) then stamps - {query} else stamps;
    if query !in kept then (true, kept[query := stampTime]) else (false, kept)
  }

  class QueryHandler {
    var stamps: map<string, real>
    var timeExpire: real

    constructor ()
      ensures stamps == map[] && timeExpire == DEFAULT_EXPIRE
    {
      stamps := map[];
      timeExpire := DEFAULT_EXPIRE;
    }

    /** `addQuery`: stamps `query` with `now`, overwriting an earlier stamp. */
    method AddQuery(query: string, now: real)
      modifies this`stamps
      ensures stamps == old(stamps)[query := now]
    {
      stamps := stamps[query := now];
    }

    /** `removeQuery`: forgets `query` only. */
    method RemoveQuery(query: string)
      modifies this`stamps
      ensures stamps == old(stamps) - {query}
    {
      stamps := stamps - {query};
    }

    method SetExpireTime(time: real)
      modifies this`timeExpire
      ensures timeExpire == time
    {
      timeExpire := time;
    }

    method GetExpireTime() returns (time: real)
      ensures time == timeExpire
    {
      time := timeExpire;
    }

    /**
     * `processQuery`: a stale stamp is dropped first; then an unstamped query
     * is stamped and its callback run, and a stamped one is suppressed.
     */
    method ProcessQuery<T>(query: string, checkTime: real, stampTime: real, callable: () -> T)
      returns (r: Processed<T>)
      modifies this`stamps
      ensures (r.Ran?, stamps) == Admit(old(stamps), timeExpire, query, checkTime, stampTime)
      ensures r.Ran? ==> r.value == callable()
    {
      if query in stamps && checkTime - stamps[query] > timeExpire {
        stamps := stamps - {query};
      }
      if query !in stamps {
        stamps := stamps[query := stampTime];
        return Ran(callable());
      }
      r := Suppressed;
    }
  }

  /** `setExpireTime` then `getExpireTime` gives back the window set; the default is 1.5. */
  method ExpireTimeRoundTrip(time: real) returns (before: real, after: real)
    ensures before == DEFAULT_EXPIRE && after == time
  {
    var handler := new QueryHandler();
    before := handler.GetExpireTime();
    handler.SetExpireTime(time);
    after := handler.GetExpireTime();
  }

  /**
   * Two calls for one query within the window: the first (on an unstamped
   * query) runs the callback, the second is suppressed and keeps the stamp.
   */
  lemma TwiceWithinWindow(stamps: map<string, real>, window: real, query: string, t1: real, s1: real, t2: real, s2: real)
    requires query !in stamps
    requires t2 - s1 <= window
    ensures Admit(stamps, window, query, t1, s1).0
    ensures !Admit(Admit(stamps, window, query, t1, s1).1, window, query, t2, s2).0
    ensures Admit(Admit(stamps, window, query, t1, s1).1, window, query, t2, s2).1 == stamps[query := s1]
  {
  }

  /** Two calls separated by more than the window both run the callback. */
  lemma TwiceAfterWindow(stamps: map<string, real>, window: real, query: string, t1: real, s1: real, t2: real, s2: real)
    requires query !in stamps
    requires t2 - s1 > window
    ensures Admit(stamps, window, query, t1, s1).0
    ensures Admit(Admit(stamps, window, query, t1, s1).1, window, query, t2, s2).0
  {
  }

  /** `processQuery` touches no stamp but its own query's. */
  lemma AdmitFramesOtherQueries(stamps: map<string, real>, window: real, query: string, other: string, t: real, s: real)
    requires other != query
    ensures var after := Admit(stamps, window, query, t, s).1;
            (other in after <==> other in stamps) && (other in stamps ==> after[other] == stamps[other])
  {
  }
}
