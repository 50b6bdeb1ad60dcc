/** Failure-carrying result types used to model Python's `None` returns and exceptions. */
module Wrappers {

  /** An optional value: `None` stands for Python's `None` or an absent key. */
  datatype Option<+T> = None | Some(value: T)

  /** The outcome of a computation that may raise: `Failure` carries the exception's message. */
  datatype Result<+T, +E> = Success(value: T) | Failure(error: E)
}
