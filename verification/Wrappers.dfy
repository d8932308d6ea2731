/** Outcome datatypes shared by the model: Python's `None` and its raised errors. */
module Wrappers {

  /** A value that may be absent (Python's `None`). */
  datatype Option<+T> = None | Some(value: T)

  /** The result of an operation that may raise. */
  datatype Result<+T, +E> = Ok(value: T) | Err(error: E)
}
