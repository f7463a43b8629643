/** Failure-carrying return values: a panicking Rust call becomes a call
    that returns one of these. */
module Wrappers {

  datatype Option<+T> = None | Some(value: T)

  /** The value of a call that either produces a `T` or fails with an `E`. */
  datatype Result<+T, +E> = Ok(value: T) | Err(error: E)

  /** The value of a call that returns nothing but may fail with an `E`. */
  datatype Outcome<+E> = Pass | Fail(error: E)
}
