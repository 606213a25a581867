/**
 * `CachingQueryHandler`: a process-wide table from substituted query text
 * to `ResultQuery`, with lazy expiry. The static array becomes the `cache`
 * field of one object. `ResultQuery::isExpired()` is called but defined in
 * neither copy of the record, so whether an entry has expired at the moment
 * of the read is the parameter `expired`.
 */
module QueryCaching {

  import opened Wrappers
  import opened ResultQueries

  /** `$cache[$query] ?? null`. */
  function Lookup(cache: map<string, ResultQuery>, query: string): (r: Option<ResultQuery>)
    ensures r.Some? <==> query in cache
    ensures r.Some? ==> r.value == cache[query]
  {
    if query in cache then Some(cache[query]) else None
  }

  /**
   * `getResultFromCache`: the answer and the table it leaves behind. A present,
   * unexpired entry is returned and nothing changes; a present, expired entry
   * is removed and null is returned; a missing key gives null and changes
   * nothing.
   */
  function FreshLookup(cache: map<string, ResultQuery>, query: string, expired: ResultQuery -> bool)
    : (r: (Option<ResultQuery>, map<string, ResultQuery>))
    ensures r.0.Some? <==> query in cache && !expired(cache[query])
    ensures r.0.Some? ==> r.0.value == cache[query]
    ensures r.1.Keys == if query in cache && expired(cache[query]) then cache.Keys - {query} else cache.Keys
    ensures forall k :: k in r.1 ==> r.1[k] == cache[k]
  {
    var cached := Lookup(cache, query);
    if cached.Some? && !expired(cached.value) then (Lookup(cache, query), cache)
    else if cached.Some? && expired(cached.value) then (None, cache - {query})
    else (None, cache)
  }

  class CachingQueryHandler {
    var cache: map<string, ResultQuery>

    constructor ()
      ensures cache == map[]
    {
      cache := map[];
    }

    /** `get`: the stored entry, expired or not, or null. */
    method Get(query: string) returns (r: Option<ResultQuery>)
      ensures r == Lookup(cache, query)
    {
      if query in cache {
        r := Some(cache[query]);
      } else {
        r := None;
      }
    }

    /** `set`: stores `result` under `query`, overwriting an earlier entry. */
    method Set(query: string, result: ResultQuery)
      modifies this
      ensures cache == old(cache)[query := result]
      ensures Lookup(cache, query) == Some(result)
      ensures forall k :: k != query ==> Lookup(cache, k) == Lookup(old(cache), k)
    {
      cache := cache[query := result];
    }

    /** `clear`: empties the whole table. */
    method Clear()
      modifies this
      ensures cache == map[]
    {
      cache := map[];
    }

    /** `clearQuery`: removes `query` only. */
    method ClearQuery(query: string)
      modifies this
      ensures cache == old(cache) - {query}
      ensures Lookup(cache, query) == None
      ensures forall k :: k != query ==> Lookup(cache, k) == Lookup(old(cache), k)
    {
      cache := cache - {query};
    }

    /** `getResultFromCache`: lazy eviction on read. */
    method GetResultFromCache(query: string, expired: ResultQuery -> bool) returns (r: Option<ResultQuery>)
      modifies this
      ensures (r, cache) == FreshLookup(old(cache), query, expired)
    {
      var cached := Get(query);
      if cached.Some? && !expired(cached.value) {
        r := Get(query);
      } else {
        if cached.Some? && expired(cached.value) {
          ClearQuery(query);
        }
        r := None;
      }
    }
  }

  /** `set` then `get` returns the stored record; a later `set` overwrites it. */
  lemma SetThenGet(cache: map<string, ResultQuery>, query: string, r1: ResultQuery, r2: ResultQuery)
    ensures Lookup(cache[query := r1], query) == Some(r1)
    ensures Lookup(cache[query := r1][query := r2], query) == Some(r2)
  {
  }

  /**
   * An expired entry is gone after the read that finds it expired: a second
   * read, expired or not, finds nothing.
   */
  lemma ExpiredReadEvicts(cache: map<string, ResultQuery>, query: string, expired: ResultQuery -> bool,
                          later: ResultQuery -> bool)
    requires query in cache && expired(cache[query])
    ensures FreshLookup(cache, query, expired).0 == None
    ensures query !in FreshLookup(cache, query, expired).1
    ensures FreshLookup(FreshLookup(cache, query, expired).1, query, later).0 == None
  {
  }

  /** Reads never add an entry: the table after any read is contained in the one before. */
  lemma FreshLookupShrinks(cache: map<string, ResultQuery>, query: string, expired: ResultQuery -> bool)
    ensures FreshLookup(cache, query, expired).1.Keys <= cache.Keys
    ensures |FreshLookup(cache, query, expired).1| <= |cache|
  {
  }
}
