/** The `Option` and `Result` datatypes the model uses. */
module Wrappers {

  /** A value that may be absent: JavaScript's `undefined` (or GraphQL's `null`) is `None`. */
  datatype Option<+T> = None | Some(value: T)

  /** The outcome of an operation that either yields a value or raises an error. */
  datatype Result<+R, +E> = Success(value: R) | Failure(error: E)
}
