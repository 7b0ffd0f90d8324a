/** Go's "value or nil" and "(value, error)" return conventions, as datatypes. */
module Wrappers {

  /** A value that may be absent: a nil `error` is `None`. */
  datatype Option<+T> = None | Some(value: T)

  /** The `(value, error)` pair of a Go constructor: exactly one side is meaningful. */
  datatype Result<+T, +E> = Success(value: T) | Failure(error: E)
}
