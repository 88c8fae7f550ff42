/** The `Option`, `Result` and `Outcome` datatypes shared by the other modules. */
module Wrappers {

  /** A value that may be absent (JavaScript's `null`/`undefined`). */
  datatype Option<+T> = None | Some(value: T)

  /** The value of a call that either returns or throws. */
  datatype Result<+T, +E> = Ok(value: T) | Err(error: E)

  /** The outcome of a check that returns nothing or throws `Error(message)`. */
  datatype Outcome<+E> = Pass | Fail(error: E)
}
