/** Option and Result, the two failure-carrying shapes the rest of the model uses
    for Go's nil pointers and `(value, error)` pairs. */
module Wrappers {

  datatype Option<+T> = None | Some(value: T)

  /** A Go `(value, error)` pair where exactly one half is meaningful. */
  datatype Result<+T> = Ok(value: T) | Err(error: string)
}
