/** Failure-carrying values used across the model: an optional value (a
    nullable column or a lookup that may find nothing) and the outcome of a
    store operation. */
module Wrappers {

  datatype Option<+T> = None | Some(value: T)

  datatype Result<+T, +E> = Success(value: T) | Failure(error: E)
}
