/** Failure-carrying result types shared by the modules of this model.
    A Python exception raised by an operation becomes a `Failure` or a `Fail`
    carrying a description of that exception. */
module Wrappers {

  datatype Option<+T> = None | Some(value: T)

  /** The outcome of an operation that returns a value or raises. */
  datatype Result<+R, +E> = Success(value: R) | Failure(error: E)

  /** The outcome of an operation that returns nothing or raises. */
  datatype Outcome<+E> = Pass | Fail(error: E)
}
