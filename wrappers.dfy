/** Failure-carrying result types shared by the whole model. */
module Wrappers {

  /** PHP's nullable values: `null` is None. */
  datatype Option<+T> = None | Some(value: T)

  /** A value or a thrown exception carrying its message. */
  datatype Result<+T, +E> = Success(value: T) | Failure(error: E)

  /** A void operation that either completes or throws. */
  datatype Outcome<+E> = Pass | Fail(error: E)

  /**
   * The state a promise is left in once its executor has run as far as the
   * observed driver behaviour allows: still waiting (the executor is parked
   * in a cooperative wait), fulfilled through `$resolve`, rejected through
   * `$reject`, or left by an exception the executor did not catch.
   * Only the first call of `$resolve`/`$reject` settles a promise.
   */
  datatype Settlement<+T, +E> = Pending | Fulfilled(value: T) | Rejected(reason: E) | Raised(error: string)

  /** A later `$resolve`/`$reject` has no effect on an already settled promise. */
  function SettleOnce<T, E>(current: Settlement<T, E>, next: Settlement<T, E>): Settlement<T, E>
  {
    if current.Pending? then next else current
  }
}
