/** Option and Result: C#'s null results and thrown exceptions, as values. */
module Wrappers {

  /** A reference that may be null: `None` stands for the source's `null`. */
  datatype Option<+T> = None | Some(value: T)

  /** The outcome of an operation that may throw: `Failure` carries the exception. */
  datatype Result<+R, +E> = Success(value: R) | Failure(error: E)
}
