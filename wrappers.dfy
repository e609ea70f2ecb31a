/** Optional values and tagged outcomes shared by the other modules. */
module Wrappers {

  /** A value that may be absent (a query or form field that was not sent). */
  datatype Option<+T> = None | Some(value: T)

  /** The outcome of a request: a value, or the client error that stopped it. */
  datatype Result<+R, +E> = Success(value: R) | Failure(error: E)
}
