/** Failure-carrying result types shared by the spline modules. */
module Wrappers {

  /** A value that may be absent; `None` stands for a call that does not return. */
  datatype Option<+T> = None | Some(value: T)

  /** The outcome of an operation that either produces a value or reports an error. */
  datatype Result<+T, +E> = Success(value: T) | Failure(error: E)
}
