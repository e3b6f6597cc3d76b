/** Option and Result, the two failure-carrying shapes the model uses for Go's
    `(value, error)` returns and for nil-able references. */
module Wrappers {

  /** A Go reference or interface slot that may be nil. */
  datatype Option<+T> = None | Some(value: T)

  /** A Go `(value, error)` pair whose callers only look at the value when the
      error is nil. */
  datatype Result<+T, +E> = Ok(value: T) | Err(error: E)
}
