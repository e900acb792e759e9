/** Option and Result, the two shapes Go's `(*T, error)` and `(T, bool)` returns take here. */
module Wrappers {

  datatype Option<+T> = None | Some(value: T)

  datatype Result<+T, +E> = Success(value: T) | Failure(error: E)
}
