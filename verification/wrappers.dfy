/** Optional values and value-or-error results, the shapes Go expresses with
    nil pointers and `(value, error)` pairs. */
module Wrappers {

  /** A Go pointer or interface that may be nil. */
  datatype Option<+T> = None | Some(value: T)

  /** A Go `(value, error)` return where exactly one side is meaningful. */
  datatype Result<+T, +E> = Ok(value: T) | Err(error: E)
}
