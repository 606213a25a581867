# VapmDatabase core, modelled in Dafny

This project models the database layer of VapmDatabase and the parts of the
vapm runtime it builds on. It covers the following pieces:

- Named-parameter substitution (`QueryUtil::buildQueryByNamedArgs`, and
  the inline copy in the vapm MySQL connection). Every key becomes a
  `:key` token, and PHP's array form of `str_replace` applies the pairs in
  order.
- The `ResultQuery` outcome record, both copies, and its `toJson` layout.
- `CachingQueryHandler`, the process-wide result table with lazy expiry
  on read.
- `QueryHandler`, which suppresses a query repeated within its window
  (1.5 s by default).
- The vapm asynchronous MySQL connection. `execute` refuses a busy
  connection. Otherwise it marks the connection busy and polls until a
  link is ready or the timeout passes. As written, only the first poll can
  see the link ready (see "## Findings"). It then clears the flag and
  classifies the reap.
- The database-layer MySQL connection. It reconnects a null handle, waits
  while busy, reaps without polling, closes its handle and drops it.
- The database-layer SQLite connection, `execute` and `executeSync`. Both
  consult the cache.
- The two pools. They pick the first free connection of each scan and
  wait and scan again until a result arrives. `SQLPool` picks the
  connection class from the type name `mysql` or `sqlite`.
- The header side of the Express `Response`. That is the status code,
  `setHeader`, `cookie`, `clearCookie`, `attachment` and the assembled
  header block.

Modules follow the source files. `Wrappers` holds the option, result and
promise-settlement types. `Driver` holds what the connections observe of
their drivers.

A cooperative wait (`FiberManager::wait()`) is one step through a
supplied sequence of observations:

- the busy flag after each wait;
- one poll step per turn of the poll loop;
- the pool's busy flags after each wait.

A promise ends in one of four states:

- `Pending` when the observations run out first;
- `Fulfilled` or `Rejected` through `$resolve`/`$reject`;
- `Raised` for an exception the executor does not catch.

Driver calls (`reap_async_query`, `SQLite3::query`/`fetchArray`), the
clock (`time()`, `microtime(true)`), `ResultQuery::isExpired()`,
`gmdate` and the status name are parameters.

## Model

| member | source | states |
|---|---|---|
| QueryUtil.Token | src/venndev/vapmdatabase/utils/QueryUtil.php:14-16 | the token of a key is ':' followed by exactly the key |
| QueryUtil.ReplaceAll | src/venndev/vapmdatabase/utils/QueryUtil.php:17 | one `str_replace` pass; a replacement as long as the token keeps the text's length (its occurrences are characterised by `ReplaceAllFirst` and `ReplaceAllAbsent`) |
| QueryUtil.BuildQuery | src/venndev/vapmdatabase/utils/QueryUtil.php:10-18 | the pairs applied in order; values as long as their tokens keep the query's length (the fold is characterised by `BuildQueryAppend`) |
| QueryUtil.SubstituteIfAny | src/vennv/vapm/mysql/MySQL.php:228 | substituting only when arguments are given is the same as always substituting |
| QueryUtil.ReplaceAllAbsent | src/venndev/vapmdatabase/utils/QueryUtil.php:17 | a text in which the token does not occur is returned unchanged |
| QueryUtil.ReplaceAllSelf | src/venndev/vapmdatabase/utils/QueryUtil.php:17 | replacing a token by itself changes nothing |
| QueryUtil.ReplaceAllFirst | src/venndev/vapmdatabase/utils/QueryUtil.php:17 | the leftmost occurrence becomes the replacement and scanning resumes after it, so every occurrence is replaced and inserted text is not rescanned |
| QueryUtil.NoColonNoToken | src/venndev/vapmdatabase/utils/QueryUtil.php:14-16 | a token cannot start at a character other than ':' |
| QueryUtil.BuildQueryNoColon | src/venndev/vapmdatabase/utils/QueryUtil.php:10-18 | a query without ':' is unchanged whatever the arguments |
| QueryUtil.BuildQueryAppend | src/venndev/vapmdatabase/utils/QueryUtil.php:12-17 | the pairs apply one after another: splitting the arguments splits the substitution |
| QueryUtil.BuildQuerySingle | src/venndev/vapmdatabase/utils/QueryUtil.php:12-17 | one named argument is one replacement of its token |
| QueryUtil.TokenAtEnd | src/venndev/vapmdatabase/utils/QueryUtil.php:12-17 | a token closing a query with no other ':' becomes the bare value |
| QueryUtil.TokenAtStart | src/venndev/vapmdatabase/utils/QueryUtil.php:12-17 | a token opening a query is replaced even when more name characters follow it |
| QueryUtil.ExampleSelectById | src/vennv/vapm/mysql/MySQL.php:217-224 | `:id` with id 5 gives the bare text 5, unquoted |
| QueryUtil.ExamplePrefixToken | src/venndev/vapmdatabase/utils/QueryUtil.php:17 | `:id` is replaced inside `:idx` |
| QueryUtil.ExampleChained | src/venndev/vapmdatabase/utils/QueryUtil.php:17 | a value holding a later token is rewritten by the later pair |
| ResultQueries.StatusConstantsDistinct | src/venndev/vapmdatabase/database/ResultQuery.php:10-12 | the success and failed statuses differ |
| ResultQueries.Failed | src/vennv/vapm/mysql/MySQL.php:247 | a failed record has status failed, the given reason and a null result |
| ResultQueries.Succeeded | src/vennv/vapm/mysql/MySQL.php:250 | a successful record has status success, an empty reason and the given payload |
| ResultQueries.ToJson | src/venndev/vapmdatabase/database/ResultQuery.php:58-66 | exactly the keys status, reason, errors, rejects and result, in that order |
| ResultQueries.JsonRoundTrip | src/venndev/vapmdatabase/database/ResultQuery.php:58-66 | the record is recovered from its `toJson` layout |
| ResultQueries.JsonCanonical | src/venndev/vapmdatabase/database/ResultQuery.php:58-66 | any layout that decodes to a record is that record's layout |
| QueryCaching.Lookup | src/venndev/vapmdatabase/database/handler/CachingQueryHandler.php:14-17 | present exactly when the key is stored, and then the stored record |
| QueryCaching.FreshLookup | src/venndev/vapmdatabase/database/handler/CachingQueryHandler.php:34-43 | returns exactly a stored, unexpired record; removes exactly an expired one; keeps every other entry |
| QueryCaching.CachingQueryHandler.constructor | src/venndev/vapmdatabase/database/handler/CachingQueryHandler.php:12 | the table starts empty |
| QueryCaching.CachingQueryHandler.Get | src/venndev/vapmdatabase/database/handler/CachingQueryHandler.php:14-17 | the stored entry, expired or not, or null |
| QueryCaching.CachingQueryHandler.Set | src/venndev/vapmdatabase/database/handler/CachingQueryHandler.php:19-22 | the key now maps to the record and every other key is unchanged |
| QueryCaching.CachingQueryHandler.Clear | src/venndev/vapmdatabase/database/handler/CachingQueryHandler.php:24-27 | the table is empty |
| QueryCaching.CachingQueryHandler.ClearQuery | src/venndev/vapmdatabase/database/handler/CachingQueryHandler.php:29-32 | the key is gone and every other key is unchanged |
| QueryCaching.CachingQueryHandler.GetResultFromCache | src/venndev/vapmdatabase/database/handler/CachingQueryHandler.php:34-43 | answer and new table are those of `FreshLookup` |
| QueryCaching.SetThenGet | src/venndev/vapmdatabase/database/handler/CachingQueryHandler.php:14-22 | a get after a set returns the record set; a second set overwrites |
| QueryCaching.ExpiredReadEvicts | src/venndev/vapmdatabase/database/handler/CachingQueryHandler.php:39-42 | a read that finds an entry expired returns null and removes it, so the next read finds nothing |
| QueryCaching.FreshLookupShrinks | src/venndev/vapmdatabase/database/handler/CachingQueryHandler.php:34-43 | a read never adds an entry |
| QueryDedup.Admit | src/venndev/vapmdatabase/database/handler/QueryHandler.php:38-50 | the callback runs exactly when the query is unstamped or its stamp is older than the window; then it is restamped, otherwise the table is unchanged |
| QueryDedup.QueryHandler.constructor | src/venndev/vapmdatabase/database/handler/QueryHandler.php:14-16 | no stamps and a 1.5 second window |
| QueryDedup.QueryHandler.AddQuery | src/venndev/vapmdatabase/database/handler/QueryHandler.php:18-21 | the query is stamped with the current time |
| QueryDedup.QueryHandler.RemoveQuery | src/venndev/vapmdatabase/database/handler/QueryHandler.php:23-26 | the query's stamp is removed |
| QueryDedup.QueryHandler.SetExpireTime | src/venndev/vapmdatabase/database/handler/QueryHandler.php:28-31 | the window is the given time |
| QueryDedup.QueryHandler.GetExpireTime | src/venndev/vapmdatabase/database/handler/QueryHandler.php:33-36 | returns the window |
| QueryDedup.QueryHandler.ProcessQuery | src/venndev/vapmdatabase/database/handler/QueryHandler.php:38-50 | outcome and new stamps are those of `Admit`; when it runs it returns the callback's value |
| QueryDedup.ExpireTimeRoundTrip | src/venndev/vapmdatabase/database/handler/QueryHandler.php:14 | the default window is 1.5 and a set window is read back |
| QueryDedup.TwiceWithinWindow | src/venndev/vapmdatabase/database/handler/QueryHandler.php:38-50 | a repeat within the window is suppressed and keeps the first stamp |
| QueryDedup.TwiceAfterWindow | src/venndev/vapmdatabase/database/handler/QueryHandler.php:40-46 | a repeat after the window runs again |
| QueryDedup.AdmitFramesOtherQueries | src/venndev/vapmdatabase/database/handler/QueryHandler.php:40-45 | only the processed query's stamp changes |
| Driver.WaitWhileBusy | src/venndev/vapmdatabase/database/mysql/MySQL.php:100 | the flag stays set exactly when it was set and no wait saw it cleared |
| AsyncMySQL.PollOutcome | src/vennv/vapm/mysql/MySQL.php:232-242 | the loop as written, with `$poll` emptied by a poll that finds nothing; still polling only if every observed turn was in time, timed out only if some turn was past the timeout |
| AsyncMySQL.PollReadyFirst | src/vennv/vapm/mysql/MySQL.php:238-240 | a first poll that finds the link ready ends the loop with that poll's errors and rejects |
| AsyncMySQL.EmptyPollSetNeverReady | src/vennv/vapm/mysql/MySQL.php:232-240 | once `$poll` is empty no later turn ends the loop ready |
| AsyncMySQL.PollReadyOnlyFirst | src/vennv/vapm/mysql/MySQL.php:232-242 | the loop ends ready exactly when the first turn is in time and finds the link ready |
| AsyncMySQL.PollTimedOutAt | src/vennv/vapm/mysql/MySQL.php:238-242 | without a ready first poll the loop gives up at the first turn past the timeout, keeping the previous poll's errors and rejects |
| AsyncMySQL.PollStillRunning | src/vennv/vapm/mysql/MySQL.php:238-242 | with every observed turn in time and no ready first poll, the executor is still polling |
| AsyncMySQL.NegativeTimeoutNeverPolls | src/vennv/vapm/mysql/MySQL.php:238 | a negative timeout fails the first test: a timeout with empty errors and rejects |
| AsyncMySQL.RepolledOutcome | src/vennv/vapm/mysql/MySQL.php:232-242 | the loop as evidently intended, with the link polled on every turn; still polling only if every observed turn was in time |
| AsyncMySQL.RepolledReadyAt | src/vennv/vapm/mysql/MySQL.php:238-242 | with re-polling the loop stops at the first in-time turn that finds the link ready |
| AsyncMySQL.RepolledAgreesUnlessLate | src/vennv/vapm/mysql/MySQL.php:232-242 | the loop as written and the re-polling loop agree unless the link becomes ready after the first poll |
| AsyncMySQL.LateReadyIgnored | src/vennv/vapm/mysql/MySQL.php:232-240 | a link ready only at the second poll: as written the loop keeps polling an empty array, re-polling ends it ready |
| AsyncMySQL.Poll | src/vennv/vapm/mysql/MySQL.php:232-242 | the loop, with `$poll` as a flag that the first fruitless poll clears, ends as `PollOutcome` says |
| AsyncMySQL.Conclude | src/vennv/vapm/mysql/MySQL.php:244-251 | no ready link rejects with "Query error!" and the last poll's errors and rejects. A false reap rejects with the driver's error. `true` resolves with the payload `true` and rows resolve with exactly those rows, both as success with the poll's errors and rejects. A throwing reap escapes |
| AsyncMySQL.MySQL.constructor | src/vennv/vapm/mysql/MySQL.php:142-162 | credentials as given, port 3306 by default, not busy, timeout 10 |
| AsyncMySQL.MySQL.IsBusy | src/vennv/vapm/mysql/MySQL.php:194-197 | returns the busy flag |
| AsyncMySQL.MySQL.GetQueryTimeout | src/vennv/vapm/mysql/MySQL.php:199-202 | returns the timeout |
| AsyncMySQL.MySQL.SetQueryTimeout | src/vennv/vapm/mysql/MySQL.php:204-207 | the timeout is the given value |
| AsyncMySQL.MySQL.Execute | src/vennv/vapm/mysql/MySQL.php:212-215 | a busy connection throws "This MySQL connection is busy!"; a free one becomes busy; busy afterwards either way |
| AsyncMySQL.MySQL.Run | src/vennv/vapm/mysql/MySQL.php:227-251 | sends the substituted query; settles as `Conclude` of the loop as written, so only a ready first poll leads to the reap; the flag is cleared exactly when the promise settles |
| AsyncMySQL.MySQL.ExecuteAndAwait | src/vennv/vapm/mysql/MySQL.php:212-251 | a busy connection throws and stays busy; a free one settles as `Conclude` and is free again exactly when settled |
| DatabaseMySQL.ReapSettlement | src/venndev/vapmdatabase/database/mysql/MySQL.php:125-130 | always settles, with empty errors and rejects. `true` resolves with the payload `true` and rows resolve with exactly those rows. A false reap rejects with the driver's error and a throwing reap with "Query error!" |
| DatabaseMySQL.MySQL.constructor | src/venndev/vapmdatabase/database/mysql/MySQL.php:24-40 | an open handle from the credentials, not busy, timeout 2 |
| DatabaseMySQL.MySQL.GetQueryTimeout | src/venndev/vapmdatabase/database/mysql/MySQL.php:77-80 | returns the timeout |
| DatabaseMySQL.MySQL.SetQueryTimeout | src/venndev/vapmdatabase/database/mysql/MySQL.php:82-85 | the timeout is the given value |
| DatabaseMySQL.MySQL.Reconnect | src/venndev/vapmdatabase/database/mysql/MySQL.php:87-90 | a fresh open handle from the stored credentials |
| DatabaseMySQL.MySQL.Execute | src/venndev/vapmdatabase/database/mysql/MySQL.php:95-136 | substitutes, reconnects a null handle and waits while busy, staying pending and busy if never freed. After a wait the handle has been dropped by the freeing task, so `query` throws and the flag stays set. Without a wait, a closed handle or a throwing `query` also leave the flag set; otherwise it settles as `ReapSettlement`, closes and drops the handle and clears the flag. Only the handle and the flag change; the timeout is untouched, and the old handle stays open or closed as it was on every path but the reaping one |
| DatabaseMySQL.MySQL.Close | src/venndev/vapmdatabase/database/mysql/MySQL.php:142-145 | fails on a null handle and on a closed one; otherwise closes it. A handle is closed afterwards either way |
| DatabaseMySQL.TwoQueries | src/venndev/vapmdatabase/database/mysql/MySQL.php:99-136 | two queries on a new connection settle as their reaps; the second runs on a new handle, and closing afterwards fails |
| DatabaseSQLite.QuerySettlement | src/venndev/vapmdatabase/database/sqlite/SQLite.php:81-96 | a false query rejects with the last error and a throwing fetch with its message. Otherwise it resolves as success with no errors or rejects and the first row, or the payload `false` when there is no row |
| DatabaseSQLite.SyncOutcome | src/venndev/vapmdatabase/database/sqlite/SQLite.php:111-129 | throws exactly when the fetch throws |
| DatabaseSQLite.SyncAgreesWithAsync | src/venndev/vapmdatabase/database/sqlite/SQLite.php:81-128 | `executeSync` returns the record `execute` resolves with, and the exception `execute` rejects with on a false query |
| DatabaseSQLite.SQLite.constructor | src/venndev/vapmdatabase/database/sqlite/SQLite.php:27-32 | keeps the path; not busy |
| DatabaseSQLite.SQLite.Reconnect | src/venndev/vapmdatabase/database/sqlite/SQLite.php:54-57 | changes nothing |
| DatabaseSQLite.SQLite.Execute | src/venndev/vapmdatabase/database/sqlite/SQLite.php:65-99 | substitutes; reads the cache as `FreshLookup`; runs the query exactly when the wait ends; a cached hit settles first, else the query's settlement |
| DatabaseSQLite.SQLite.ExecuteSync | src/venndev/vapmdatabase/database/sqlite/SQLite.php:106-130 | substitutes; reads the cache as `FreshLookup`; a hit is returned without querying, else `SyncOutcome` |
| Pools.FirstFree | src/vennv/vapm/mysql/MySQLPool.php:170-174 | the lowest index of a free handler, none exactly when all are busy |
| Pools.Scan | src/vennv/vapm/mysql/MySQLPool.php:170-175 | the scan finds `FirstFree` |
| Pools.FirstFreeUnique | src/vennv/vapm/mysql/MySQLPool.php:170-175 | an index that is free with every earlier index busy is `FirstFree` |
| Pools.AllFreePicksFirst | src/vennv/vapm/mysql/MySQLPool.php:170-174 | with every handler free the first is chosen |
| Pools.FirstDispatch | src/vennv/vapm/mysql/MySQLPool.php:169-178 | the first scan with a free handler and that handler; none exactly when every scan finds all busy |
| Pools.FirstDispatchFromMeaning | src/vennv/vapm/mysql/MySQLPool.php:169-178 | the same characterisation for the scans from a given position on |
| Pools.RunRounds | src/vennv/vapm/database/SQLPool.php:202-213 | done at the first round with a free handler and a non-null reply, with that reply; waiting exactly when every round is fruitless |
| Pools.AwaitResult | src/vennv/vapm/database/SQLPool.php:202-213 | the loop ends as `RunRounds` says |
| Pools.RunRoundsUnique | src/vennv/vapm/database/SQLPool.php:202-213 | an outcome meeting `RunRounds`' characterisation is `RunRounds` |
| Pools.NoHandlersNeverComplete | src/vennv/vapm/database/SQLPool.php:202-213 | with no handlers the loop never completes |
| Pools.DispatchSkipsBusy | src/vennv/vapm/database/SQLPool.php:204-207 | the handler that answers is free and every earlier one busy |
| MySQLPools.Flags | src/vennv/vapm/mysql/MySQLPool.php:171 | the busy flag of each connection, in order |
| MySQLPools.MySQLPool.constructor | src/vennv/vapm/mysql/MySQLPool.php:93-109 | credentials as given (port 3306 by default); max(n, 0) distinct new connections, each with those credentials, free, timeout 10 |
| MySQLPools.MySQLPool.OthersRun | src/vennv/vapm/mysql/MySQLPool.php:177 | after a wait the connections carry the observed flags |
| MySQLPools.MySQLPool.Execute | src/vennv/vapm/mysql/MySQLPool.php:164-182 | dispatches on the first scan with a free connection, to its first free connection; settles as that connection's promise, leaving it busy exactly while pending; no free connection leaves it pending |
| MySQLPools.MySQLPool.AwaitFree | src/vennv/vapm/mysql/MySQLPool.php:169-178 | stops at the scan `FirstDispatch` picks, or after the last observed wait |
| MySQLPools.MySQLPool.WaitAndScan | src/vennv/vapm/mysql/MySQLPool.php:170-177 | after the wait the flags are the observed ones and the scan finds `FirstFree` of them |
| MySQLPools.MySQLPool.Dispatch | src/vennv/vapm/mysql/MySQLPool.php:173 | the chosen connection's settlement; only that connection's flag changes |
| MySQLPools.EmptyPoolNeverSettles | src/vennv/vapm/mysql/MySQLPool.php:108 | a pool of zero connections never settles a query |
| MySQLPools.FirstQueryGoesToFirstConnection | src/vennv/vapm/mysql/MySQLPool.php:108-174 | on a new pool the first query goes to connection 0 on the first scan and settles as its poll with the default timeout 10 |
| SQLPools.KindOf | src/vennv/vapm/database/SQLPool.php:125-129 | "mysql" and "sqlite" and only those name a class; anything else fails with "Invalid type of SQL connection" |
| SQLPools.BuildHandlers | src/vennv/vapm/database/SQLPool.php:131 | max(n, 0) connections of the chosen class with the pool's arguments |
| SQLPools.SQLPool.constructor | src/vennv/vapm/database/SQLPool.php:118-131 | keeps the type name and arguments and holds the connections |
| SQLPools.SQLPool.Create | src/vennv/vapm/database/SQLPool.php:108-132 | fails exactly on an unknown type; otherwise a new pool with the type, credentials (port 3306 by default) and max(n, 0) connections of that class |
| SQLPools.SQLPool.Execute | src/vennv/vapm/database/SQLPool.php:197-215 | a pool of one or more SQLite connections throws at the scan's `isBusy()` call. Otherwise the outcome is `RunRounds`, and the query went to the connection it names |
| SQLPools.SQLitePoolCannotScan | src/vennv/vapm/database/SQLPool.php:202-204 | a "sqlite" pool with connections fails its first query; one with none keeps waiting |
| SQLPools.RejectsUnknownType | src/vennv/vapm/database/SQLPool.php:128 | an unknown type name builds no pool |
| ExpressResponse.CookieAttributeOrder | src/vennv/vapm/express/handlers/Response.php:413-421 | `key=value` then each present option's attribute: expires, Max-Age, Domain, Path, Secure, HttpOnly, SameSite |
| ExpressResponse.AttributesAgree | src/vennv/vapm/express/handlers/Response.php:415-421 | the attributes depend only on which options are present and their values, except Secure and HttpOnly |
| ExpressResponse.FlagValuesIgnored | src/vennv/vapm/express/handlers/Response.php:419-420 | only the presence of secure and httpOnly matters, not their values |
| ExpressResponse.UnknownOptionIgnored | src/vennv/vapm/express/handlers/Response.php:415-421 | an option `cookie` does not know adds nothing |
| ExpressResponse.NoOptionsBarePair | src/vennv/vapm/express/handlers/Response.php:413 | with no options the cookie is `key=value` |
| ExpressResponse.AttributesAbsent | src/vennv/vapm/express/handlers/Response.php:415-421 | absent options add nothing |
| ExpressResponse.ClearCookieIgnoresMaxAge | src/vennv/vapm/express/handlers/Response.php:430-434 | the caller's maxAge does not affect the cleared cookie |
| ExpressResponse.NatToDecimal | src/vennv/vapm/express/handlers/Response.php:272 | a non-empty string of decimal digits |
| ExpressResponse.DecimalRoundTrip | src/vennv/vapm/express/handlers/Response.php:272 | the digits written for the status read back as the status |
| ExpressResponse.IntToString | src/vennv/vapm/express/handlers/Response.php:272 | a non-negative status is written as decimal digits that read back as it; a negative one as '-' then digits that read back as its magnitude |
| ExpressResponse.Implode | src/vennv/vapm/express/handlers/Response.php:272 | the parts with one separator between neighbours: the length is the parts' lengths plus one separator per gap, and the text starts with the first part |
| ExpressResponse.ImplodeAppend | src/vennv/vapm/express/handlers/Response.php:272 | one more part adds the separator and the part at the end |
| ExpressResponse.StatusLine | src/vennv/vapm/express/handlers/Response.php:272 | starts with the protocol and a space, ends with CRLF |
| ExpressResponse.HeaderBlockOf | src/vennv/vapm/express/handlers/Response.php:272 | the status line, then the joined lines at the position after it, then the closing CRLF CRLF; nothing else |
| ExpressResponse.HeaderBlockAppend | src/vennv/vapm/express/handlers/Response.php:270-272 | one more header line lands just before the terminating empty line |
| ExpressResponse.OkBlockExample | src/vennv/vapm/express/handlers/Response.php:155-157 | a new response with one line gives `HTTP/1.1 200 OK`, the line and an empty line |
| ExpressResponse.OkStatusLine | src/vennv/vapm/express/handlers/Response.php:272 | the status line of a new response is `HTTP/1.1 200 OK` |
| ExpressResponse.CookieString | src/vennv/vapm/express/handlers/Response.php:413-421 | starts with `key=value` (the attributes after it are fixed by `CookieAttributeOrder`) |
| ExpressResponse.BuildCookie | src/vennv/vapm/express/handlers/Response.php:413-421 | the cookie built `.=` by `.=` is `CookieString` |
| ExpressResponse.Response.constructor | src/vennv/vapm/express/handlers/Response.php:155-189 | HTTP/1.1, status 200, no custom headers, path and method kept |
| ExpressResponse.Response.SetStatus | src/vennv/vapm/express/handlers/Response.php:216-221 | the status is the code and the same response is returned |
| ExpressResponse.Response.SetHeader | src/vennv/vapm/express/handlers/Response.php:281-284 | `key: value` is appended after the existing headers |
| ExpressResponse.Response.Cookie | src/vennv/vapm/express/handlers/Response.php:411-424 | one `Set-Cookie` header with `CookieString` is appended |
| ExpressResponse.Response.ClearCookie | src/vennv/vapm/express/handlers/Response.php:430-434 | the cookie with an empty value and maxAge 0 is appended |
| ExpressResponse.Response.Attachment | src/vennv/vapm/express/handlers/Response.php:436-439 | a `Content-Disposition: attachment; filename="…"` header is appended |
| ExpressResponse.Response.HeaderBlock | src/vennv/vapm/express/handlers/Response.php:270-272 | the block starts with the status line and ends with the empty line; the computed options come first, so the first option (or, with none, the first custom header) follows the status line |
| ExpressResponse.SetHeaderExtendsBlock | src/vennv/vapm/express/handlers/Response.php:270-284 | the first block is that of the options and the old headers. The next block is the first with its closing CRLF dropped, then the new line and the closing CRLF CRLF. With no earlier lines it is the status line, the new line and CRLF CRLF |
| ExpressResponse.BlockExtends | src/vennv/vapm/express/handlers/Response.php:272 | the block of one more line is the old block up to its closing line, the new line, and the closing empty line |

## Findings

| source | as written | input that shows it | evidently intended | confidence | as-written member | corrected member |
|---|---|---|---|---|---|---|
| src/vennv/vapm/mysql/MySQL.php:232-240 | `$poll = [$this->mysqli]` is set once before the loop, and `mysqli::poll` rewrites it by reference to the ready links. After a poll that finds nothing ready it is empty, so later polls cannot report the link | steps `[PollStep(0, 0, [], []), PollStep(0, 1, [], [])]`: the link is ready only at the second poll. As written the loop keeps polling an empty array until the timeout passes, then rejects with "Query error!" | `$poll` re-armed before every poll, so a link that becomes ready later ends the loop | high, from reading the code; not executed | AsyncMySQL.LateReadyIgnored | AsyncMySQL.RepolledReadyAt |

The connection (`AsyncMySQL.MySQL.Run`) and the pool built on it follow the
code as written, through `AsyncMySQL.PollOutcome`. `AsyncMySQL.RepolledOutcome`
is the intended loop. `AsyncMySQL.RepolledAgreesUnlessLate` shows that the
two loops differ only when the link becomes ready after the first poll.

## Left out

- Sockets, rendering and the rest of the response are out. That covers
  `render`, `active`, `redirect`, `send`, `json`, `download`, `file`,
  `image`, `video`, `end` and the option list `buildHeader` computes
  (Response.php lines 227-268). The header block takes that list as a
  parameter.
- Response texts come from parameters. `Status::getStatusName` and the
  `gmdate` formatting are parameters. `Status::OK` is 200 and
  `Protocol::HTTP_1_1` is "HTTP/1.1", because those classes are not part
  of this model.
- ExpressResponse.BuildCookie: cookie option values are text, so an
  option set to `null` (which `isset` treats as absent) is not
  distinguished from a present one.
- Express.php and StaticData.php are not part of this model.
- The vapm SQLite connection (src/vennv/vapm/sqlite/SQLite.php) is not
  part of this model either, apart from one fact. It has no `isBusy()`
  method, so a pool of SQLite connections throws on its first scan.
- Connection values in `SQLPool` are records. Its connections are the
  record of the class and the arguments they are built with. For a pool
  of MySQL connections, the busy flags and replies each scan sees are
  supplied.
- Database.php only declares the abstract interface, so it has no member
  of its own.
- The mysqli and SQLite3 drivers are replaced by supplied outcomes. These
  are the result of `mysqli::poll` and `reap_async_query`, the exception
  the database-layer MySQL connection's `query` call may throw, and the
  result of `SQLite3::query` together with `fetchArray` and
  `lastErrorMsg`.
- `mysqli::next_result` is not modelled: it only moves the driver to
  the next result set.
- MySQLPools.MySQLPool.Execute: the pool's promise is taken to settle as
  the awaited connection's promise does, a rejection included. This
  assumes `Async::await` rethrows a rejection, and vapm's `Async` is not
  part of this model. If `await` returned the rejection's value instead,
  the loop would end with that record as a fulfilment.
- Errors and rejects of `mysqli::poll` are kept as text. Every poll's arrays
  are supplied, including those of polls made on the emptied `$poll`.
- QueryDedup.QueryHandler.ProcessQuery: the callback is a pure, total
  value. Its side effects and exceptions are not modelled. In the source
  the query is stamped before the callback runs (QueryHandler.php lines
  45-46). So a callback that throws still leaves the stamp, and a repeat
  within the window is suppressed all the same.
- The fiber scheduler (`FiberManager`, `Promise`, `Async`) is out. Other
  tasks are not interleaved: their effect is the flags observed after
  each wait, and a promise whose observations run out is `Pending`.
- Clock readings (`time()`, `microtime(true)`) are parameters. Elapsed
  time in the poll loop is a whole number of seconds.
- `ResultQuery::isExpired()` is called by the cache but defined in
  neither copy of the record. It is the parameter `expired`.
- `json_encode` text is not modelled. ResultQueries.ToJson states the
  keys, their order and the values, not the JSON text.
- The `var_dump` debug output and the disabled poll loop of the
  database-layer MySQL connection are out, since they produce no state.
- The vapm MySQL connection's `close` and destructor, and the SQLite
  connection's `close` and destructor, are out. They call the driver
  only.
- AsyncMySQL.MySQL.Run: an exception from the driver's `query` call (under
  `MYSQLI_REPORT_STRICT`) is not modelled. In the source it leaves the busy
  flag set.
- AsyncMySQL.MySQL.Run: the query timeout is read once. A change made by
  another task during the poll loop is not modelled.
- SQLPools.SQLPool.Execute: a rejected or suspended await of the chosen
  connection is not modelled separately. A round's reply is the value
  the await gives, or none.
- Getters are not separate members. The plain getters of the pools and
  connections (host, username, password, database, port, type, path) are
  their `const` fields.
