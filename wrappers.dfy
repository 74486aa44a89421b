/** Failure-compatible wrappers standing in for Java's null references and exceptions. */
module Wrappers {

  /** A reference that may be null: `None` plays the part of Java's `null`. */
  datatype Option<+T> = None | Some(value: T)

  /** The value of a call that either returns or throws. */
  datatype Result<+T, +E> = Success(value: T) | Failure(error: E)

  /** The outcome of a void call that either returns normally or throws. */
  datatype Outcome<+E> = Pass | Fail(error: E)
}
