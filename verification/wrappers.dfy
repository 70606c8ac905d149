/** Failure-carrying datatypes shared by the rest of the model. */
module Wrappers {

  /** A value that may be absent. */
  datatype Option<+T> = None | Some(value: T)

  /** Either a computed value or the reason no value could be computed. */
  datatype Result<+T, +E> = Success(value: T) | Failure(error: E)
}
