/** Option and Result datatypes shared by every module of the model. */
module Wrappers {

  /** A value that may be absent (Python's `Optional`). */
  datatype Option<T> = None | Some(value: T)

  /** The outcome of an operation that may raise: `Err` carries the exception. */
  datatype Result<T, E> = Ok(value: T) | Err(error: E)
}
