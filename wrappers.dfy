/** Option, Result and Outcome: the values that stand for Python's None and for
    a call that either returns or raises. */
module Wrappers {

  datatype Option<+T> = None | Some(value: T)

  datatype Result<+R, +E> = Success(value: R) | Failure(error: E)

  /** The outcome of an operation that returns nothing on success. */
  datatype Outcome<+E> = Pass | Fail(error: E)
}
