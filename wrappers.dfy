/** Option and Result, the shapes the model uses for Python's `None` and raised exceptions. */
module Wrappers {

  /** `None` or a value, as Python's `X | None`. */
  datatype Option<+T> = None | Some(value: T)

  /** The outcome of an operation that either returns a value or raises. */
  datatype Result<+T, +E> = Ok(value: T) | Err(error: E)
}
