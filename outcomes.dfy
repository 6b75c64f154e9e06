/** Failure-carrying values used where the source throws or returns "undefined". */
module Outcomes {

  /** A value that may be absent (an optional field such as a hook's `result`). */
  datatype Option<+T> = None | Some(value: T)

  /** The value of an operation that either returns or throws. */
  datatype Result<+T, +E> = Ok(value: T) | Err(error: E)

  /** The value of an operation that returns nothing or throws. */
  datatype Outcome<+E> = Pass | Fail(error: E)
}
