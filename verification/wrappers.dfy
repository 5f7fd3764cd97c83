/** Python's `None` and raised exceptions, made explicit. */
module Wrappers {

  /** A value that may be Python's `None`. */
  datatype Option<T> = None | Some(value: T)

  /** The outcome of a call that may raise: a value, or the exception raised. */
  datatype Result<T, E> = Ok(value: T) | Err(error: E)
}
