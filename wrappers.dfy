/** Option and Result, the two failure-carrying shapes used throughout the model. */
module Wrappers {

  datatype Option<+T> = None | Some(value: T)

  /** A Go pair `(T, error)`: either a value or an error. */
  datatype Result<+T, +E> = Ok(value: T) | Fail(error: E)
}
