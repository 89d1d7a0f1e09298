/** Failure-compatible result types: Python's `None` sentinel and raised errors
    become explicit values. */
module Wrappers {

  /** A value or "no value" (Python's `None`). */
  datatype Option<+T> = None | Some(value: T)

  /** A check that passes or fails with an error (a raise, or nothing). */
  datatype Outcome<+E> = Pass | Fail(error: E)

  /** A returned value, or the error that was raised instead. */
  datatype Result<+R, +E> = Success(value: R) | Failure(error: E)
}
