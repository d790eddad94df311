/** Failure-carrying return values: the Java code reports failure by throwing,
    the model returns one of these instead. */
module Wrappers {

  datatype Option<+T> = None | Some(value: T)

  datatype Result<+T, +E> = Ok(value: T) | Err(error: E)

  /** The result of an operation that returns nothing (a Java `void`). */
  datatype Outcome<+E> = Pass | Fail(error: E)
}
