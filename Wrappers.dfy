/** Failure-carrying values used throughout the model. */
module Wrappers {

  /** A value that may be absent; stands for C#'s nullable references. */
  datatype Option<+T> = None | Some(value: T)

  /** The outcome of an operation that may throw: `Err` stands for the exception. */
  datatype Result<+T, +E> = Ok(value: T) | Err(error: E)
}
