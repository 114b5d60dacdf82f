/** Option and Result values: a Go pointer that may be nil, and a Go
    `(value, error)` pair whose two halves are never both set. */
module Wrappers {

  datatype Option<+T> = None | Some(value: T)

  datatype Result<+T, +E> = Ok(value: T) | Err(error: E)
}
