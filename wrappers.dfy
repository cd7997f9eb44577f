/** Failure-compatible result types shared by the modules of this model. */
module Wrappers {

  /** A value that may be absent (Python's `Optional`, with `None`). */
  datatype Option<+T> = None | Some(value: T)

  /** The outcome of an operation that returns nothing but may fail (a raised exception). */
  datatype Outcome<+E> = Pass | Fail(error: E)
}
