/** Failure-compatible wrappers shared by the model: an optional value (a pandas
    NaN or a missing label becomes None), an operation that either passes or
    raises, and a computed value or a raised error. */
module Wrappers {

  datatype Option<+T> = None | Some(value: T)

  /** The outcome of a check that returns nothing or raises `error`. */
  datatype Outcome<+E> = Pass | Fail(error: E)

  /** The outcome of an operation that returns `value` or raises `error`. */
  datatype Result<+R, +E> = Success(value: R) | Failure(error: E)
}
