/** Failure-compatible result types used across the model in place of Java's
    null references and exceptions. */
module Wrappers {

  /** A value that may be absent: a nullable reference or an empty `Optional`. */
  datatype Option<+T> = None | Some(value: T)

  /** Either a value or the error the Java code would throw instead. */
  datatype Result<+R, +E> = Success(value: R) | Failure(error: E)
}
