/** Failure-carrying wrappers shared by every module of the model. */
module Wrappers {

  /** A value that may be absent, as `dict.get` without a default returns it. */
  datatype Option<T> = None | Some(value: T)

  /** Either a value or the error that stopped the computation. */
  datatype Result<T, E> = Success(value: T) | Failure(error: E)
}
