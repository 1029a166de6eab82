/** Failure-compatible helper datatypes shared by every module of the model. */
module Wrappers {

  /** An optional value: the model's stand-in for a nullable pointer or a missing reply. */
  datatype Option<+T> = None | Some(value: T)

  /** A value or an error message: the model's stand-in for a call that may throw. */
  datatype Result<+R, +E> = Success(value: R) | Failure(error: E)
}
