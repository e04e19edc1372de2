/** Failure-compatible wrappers shared by every module of the model. */
module Wrappers {

  datatype Option<T> = None | Some(value: T)

  /** The outcome of an operation that returns a value or raises. */
  datatype Result<T, E> = Success(value: T) | Failure(error: E) {
    predicate IsFailure() { Failure? }

    function PropagateFailure<U>(): Result<U, E>
      requires Failure?
    {
      Failure(error)
    }

    function Extract(): T
      requires Success?
    {
      value
    }
  }

  /** The outcome of a check that returns nothing or raises. */
  datatype Outcome<E> = Pass | Fail(error: E)
}
