/** Failure-compatible result types shared by the modules of this model. */
module Wrappers {

  /** A value that may be missing; `None` is Python's `None`. */
  datatype Option<+T> = None | Some(value: T)

  /** The outcome of an operation that raises on bad input in the source. */
  datatype Result<+R, +E> = Success(value: R) | Failure(error: E) {
    predicate IsFailure() {
      Failure?
    }

    function PropagateFailure<U>(): Result<U, E>
      requires Failure?
    {
      Failure(error)
    }

    function Extract(): R
      requires Success?
    {
      value
    }
  }
}
