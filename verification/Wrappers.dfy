/** Failure-carrying result types used across the model. */
module Wrappers {

  /** An optional value: the JavaScript `undefined` of a missing field. */
  datatype Option<+T> = None | Some(value: T)

  /** Either a value or the reason there is none. */
  datatype Result<+R, +E> = Success(value: R) | Failure(error: E)
}
