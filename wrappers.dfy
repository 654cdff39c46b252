/** Option and Result, the two failure-carrying shapes the Go code expresses with
    `(value, ok)` and `(value, error)` return pairs. */
module Wrappers {

  datatype Option<+T> = None | Some(value: T)

  datatype Result<+T, +E> = Ok(value: T) | Err(error: E)
}
