/** Failure-compatible wrappers shared by the other modules. */
module Wrappers {

  datatype Option<+T> = None | Some(value: T)

  /** Either a value or the exception the modelled code throws instead. */
  datatype Result<+R, +E> = Success(value: R) | Failure(error: E)
}
