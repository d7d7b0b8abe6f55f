/** Option and Result, standing in for pandas' NaN and for Python exceptions. */
module Wrappers {

  /** A value that may be absent: `None` is what pandas reports as NaN. */
  datatype Option<+T> = None | Some(value: T)

  /** The outcome of an operation that may raise. */
  datatype Result<+T, +E> = Ok(value: T) | Err(error: E)
}
