/** Failure-carrying values used across the model: an optional value and a
    success-or-error result whose error is the message the endpoint reports. */
module Wrappers {

  datatype Option<+T> = None | Some(value: T)

  datatype Result<+R, +E> = Success(value: R) | Failure(error: E)
}
