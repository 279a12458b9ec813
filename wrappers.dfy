/** Failure-carrying results used for the cluster's exceptions and its null returns. */
module Wrappers {

  /** A value or nothing: the Java `null` return. */
  datatype Option<+T> = None | Some(value: T)

  /** A value or an error: a Java method that may throw. */
  datatype Result<+T, +E> = Success(value: T) | Failure(error: E)

  /** No value or an error: a Java `void` method that may throw. */
  datatype Outcome<+E> = Pass | Fail(error: E)
}
