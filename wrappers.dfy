/** Failure-carrying values used where the Java and Python code throws or returns null. */
module Wrappers {

  /** A value that may be absent (Java null, Guava Optional.absent()). */
  datatype Option<+T> = None | Some(value: T)

  /** The outcome of an operation that either returns a value or raises an error. */
  datatype Result<+T, +E> = Ok(value: T) | Err(error: E)
}
