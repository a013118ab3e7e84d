/** Option and Result: absent values (`undefined`/`null`) and thrown errors. */
module Wrappers {

  /** A value that may be absent; `undefined` and `null` both become `None`. */
  datatype Option<+T> = None | Some(value: T)

  /** The outcome of an operation that either returns a value or throws an error. */
  datatype Result<+T, +E> = Ok(value: T) | Err(error: E)
}
