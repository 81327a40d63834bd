/** Failure-carrying result types used by the paste store. */
module Wrappers {

  /** A value that may be absent: a JavaScript property that is `undefined`. */
  datatype Option<+T> = None | Some(value: T)

  /** The outcome of a route handler: the value it responds with, or the
      message it hands to `next(...)`. */
  datatype Result<+R, +E> = Success(value: R) | Failure(error: E)

  /** The outcome of a validation middleware: `next()` or `next(message)`. */
  datatype Outcome<+E> = Pass | Fail(error: E)
}
