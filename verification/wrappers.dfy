/** Failure-carrying result values, used for the outcome of the external parsers
    and for the error returns of ListFixedCVEs. */
module Wrappers {

  /** Either a value or an error, in place of Go's `(value, error)` pair. */
  datatype Result<+T, +E> = Success(value: T) | Failure(error: E)
}
