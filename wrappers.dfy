/** Optional values and results with an error, shared by the modules of this model. */
module Wrappers {

  /** A value that may be absent: JavaScript's null/undefined, C#'s null. */
  datatype Option<+T> = None | Some(value: T)

  /** The outcome of an operation that may throw: the value, or the exception's message. */
  datatype Result<+T, +E> = Ok(value: T) | Err(error: E)
}
