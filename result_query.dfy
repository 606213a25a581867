/**
 * The query outcome record. The repository holds two copies of
 * `ResultQuery` with the same five private fields, the same constructor,
 * the same getters and the same two status constants; the copy used by the
 * database handlers adds `toJson`. Both are this one immutable datatype:
 * its destructors are the getters and there is no way to change a field.
 */
module ResultQueries {

  import opened Wrappers

  /** One row as the driver returns it: column names with their values, in column order. */
  type Row = seq<(string, string)>

  /** The `mixed $result` payload as the connections fill it. */
  datatype Payload =
    | NullResult              // `null`, on every failure
    | BoolResult(b: bool)     // a driver call that returned a bool (mysqli `true`, SQLite `fetchArray` `false`)
    | RowsResult(rows: seq<Row>)  // every row of a mysqli result set
    | RowResult(row: Row)     // the first row of an SQLite result

  const SUCCESS: string := "success"
  const FAILED: string := "failed"

  /**
   * The constructor takes any status string and does not relate the reason
   * or the result to the status.
   */
  datatype ResultQuery = ResultQuery(
    status: string,
    reason: string,
    errors: seq<string>,
    rejects: seq<string>,
    result: Payload)

  /** The status constants are distinct, so a status names at most one of them. */
  lemma StatusConstantsDistinct()
    ensures SUCCESS != FAILED
  {
  }

  /**
   * The shape every connection in the repository gives the records it
   * builds, although the constructor itself does not demand it.
   */
  predicate WellFormed(r: ResultQuery)
  {
    && (r.status == SUCCESS || r.status == FAILED)
    && (r.status == FAILED ==> r.result == NullResult)
    && (r.status == SUCCESS ==> r.reason == "")
  }

  /** A failed outcome: the reason, the poll's errors and rejects, and a null result. */
  function Failed(reason: string, errors: seq<string>, rejects: seq<string>): (r: ResultQuery)
    ensures WellFormed(r) && r.status == FAILED && r.reason == reason
  {
    ResultQuery(FAILED, reason, errors, rejects, NullResult)
  }

  /** A successful outcome: an empty reason and the decoded payload. */
  function Succeeded(errors: seq<string>, rejects: seq<string>, result: Payload): (r: ResultQuery)
    ensures WellFormed(r) && r.status == SUCCESS && r.result == result
  {
    ResultQuery(SUCCESS, "", errors, rejects, result)
  }

  /** The value of one member of the object `toJson` encodes. */
  datatype JsonValue = JString(s: string) | JList(items: seq<string>) | JPayload(p: Payload)

  /** The keys `toJson` writes, in order. */
  const JSON_KEYS: seq<string> := ["status", "reason", "errors", "rejects", "result"]

  /**
   * `toJson`: an object with exactly the keys status, reason, errors,
   * rejects, result, in that order, holding the stored values (the text
   * encoding of `json_encode` is not part of this model).
   */
  function ToJson(r: ResultQuery): (fields: seq<(string, JsonValue)>)
    ensures |fields| == |JSON_KEYS|
    ensures forall i :: 0 <= i < |fields| ==> fields[i].0 == JSON_KEYS[i]
  {
    [ ("status", JString(r.status)),
      ("reason", JString(r.reason)),
      ("errors", JList(r.errors)),
      ("rejects", JList(r.rejects)),
      ("result", JPayload(r.result)) ]
  }

  /** Reads a record back from the field layout `ToJson` writes; anything else is rejected. */
  function FromJson(fields: seq<(string, JsonValue)>): Option<ResultQuery>
  {
    if |fields| == 5
       && fields[0].0 == "status" && fields[0].1.JString?
       && fields[1].0 == "reason" && fields[1].1.JString?
       && fields[2].0 == "errors" && fields[2].1.JList?
       && fields[3].0 == "rejects" && fields[3].1.JList?
       && fields[4].0 == "result" && fields[4].1.JPayload?
    then Some(ResultQuery(fields[0].1.s, fields[1].1.s, fields[2].1.items, fields[3].1.items, fields[4].1.p))
    else None
  }

  /** `toJson` loses nothing: the record is recovered from its layout. */
  lemma JsonRoundTrip(r: ResultQuery)
    ensures FromJson(ToJson(r)) == Some(r)
  {
  }

  /** And the layout is canonical: whatever decodes to a record is exactly that record's layout. */
  lemma JsonCanonical(fields: seq<(string, JsonValue)>, r: ResultQuery)
    requires FromJson(fields) == Some(r)
    ensures ToJson(r) == fields
  {
    assert fields == [fields[0], fields[1], fields[2], fields[3], fields[4]];
  }
}
