/** Failure-carrying values used for the handlers' error paths. */
module Wrappers {

  /** A value that may be missing: the outcome of a parse that can fail. */
  datatype Option<+T> = None | Some(value: T)

  /** Either a value or the error that stopped the operation. */
  datatype Result<+R, +E> = Success(value: R) | Failure(error: E)
}
