/** Option and Result, the two wrappers the rest of the model returns. */
module Wrappers {

  /** An optional value: Go's nil (a nil `*T`, a nil slice) or a missing map entry. */
  datatype Option<+T> = None | Some(value: T)

  /** A value or an error, for Go's `(value, error)` returns. */
  datatype Result<+T, +E> = Ok(value: T) | Err(error: E)
}
