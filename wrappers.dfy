/** Option and Result, used for Python's `None` and for raised exceptions. */
module Wrappers {

  /** A value that may be missing, like a Python argument defaulting to `None`. */
  datatype Option<+T> = None | Some(value: T)

  /** The outcome of a call that either returns a value or raises an exception. */
  datatype Result<+T, +E> = Ok(value: T) | Err(error: E)
}
