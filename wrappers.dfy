/** Wrappers for the source's nullable values and exceptions. */
module Wrappers {

  /** A Java reference that may be null. */
  datatype Option<+T> = None | Some(value: T)

  /** A value, or the exception that the source throws instead of returning it. */
  datatype Result<+R, +E> = Success(value: R) | Failure(error: E)

  /** A void method that either returns normally or throws. */
  datatype Outcome<+E> = Pass | Fail(error: E)
}
