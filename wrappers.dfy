/** Optional values and results with an error side, shared by every module. */
module Wrappers {

  /** A value that may be missing (JavaScript `null`/`undefined`, Python `None`). */
  datatype Option<+T> = None | Some(value: T)

  /** The outcome of a check that can fail with an error value. */
  datatype Result<+T, +E> = Success(value: T) | Failure(error: E)
}
