/** Option and Result, the shapes used for nil-able values and for operations that can fail. */
module Wrappers {

  /** A value that may be absent: Ruby's nil, or a key that is not there. */
  datatype Option<+T> = None | Some(value: T)

  /** The outcome of an operation that either succeeds with a value or fails with an error. */
  datatype Result<+T, +E> = Ok(value: T) | Err(error: E)
}
