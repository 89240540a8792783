/** The failure-carrying types the domain operations return. */
module Wrappers {

  /** A value that may be absent: the model of a Java field that can be null. */
  datatype Option<+T> = None | Some(value: T)

  /** Either the new state of a successful operation or the exception it raised. */
  datatype Result<+R, +E> = Success(value: R) | Failure(error: E)
}
