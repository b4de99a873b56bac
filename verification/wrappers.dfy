/** Failure-carrying values: a Go `error` return is an `Option<Error>` (None is nil),
    a Go `(value, error)` pair is a `Result`. */
module Wrappers {

  datatype Option<+T> = None | Some(value: T)

  datatype Result<+T, +E> = Ok(value: T) | Err(error: E)
}
