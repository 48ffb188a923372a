/** Option and Result, used for the "nothing found" and "remote call failed" outcomes. */
module Wrappers {

  /** A value that may be absent (JavaScript's `undefined` / `null`). */
  datatype Option<+T> = None | Some(value: T)

  /** The outcome of a call that may throw: its value, or the error it threw. */
  datatype Result<+T, +E> = Ok(value: T) | Err(error: E)
}
