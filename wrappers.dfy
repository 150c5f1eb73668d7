/** Failure-carrying wrappers used across the model: an optional value and a
    value-or-error result (Go's `(T, error)` pairs). */
module Wrappers {

  datatype Option<+T> = None | Some(value: T)

  datatype Result<+T, +E> = Success(value: T) | Failure(error: E)
}
