/** Python's `None`-able values, and the outcome of a call that may raise. */
module Wrappers {

  /** A value that Python may hold as `None`. */
  datatype Option<+T> = None | Some(value: T)

  /** The outcome of an operation that either returns a value or raises an error. */
  datatype Result<+T, +E> = Ok(value: T) | Err(error: E)
}
