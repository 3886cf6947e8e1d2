/** Result types standing in for Java's null returns and checked exceptions. */
module Wrappers {

  /** `None` stands for a Java `null` reference. */
  datatype Option<+T> = None | Some(value: T)

  /** The outcome of an operation that returns a value or throws a typed exception. */
  datatype Result<+T, +E> = Ok(value: T) | Err(error: E)

  /** The outcome of a `void` operation that may throw a typed exception. */
  datatype Outcome<+E> = Pass | Fail(error: E)
}
