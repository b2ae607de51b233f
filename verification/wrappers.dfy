/** `Option` stands for a dictionary key that may be absent; `Result` for a
    computation that may raise, and it supports `:-` so that a chain of
    subscripts stops at the first one that raises. */
module Wrappers {

  datatype Option<+T> = None | Some(value: T)

  datatype Result<+R, +E> = Success(value: R) | Failure(error: E) {

    predicate IsFailure() {
      Failure?
    }

    function PropagateFailure<U>(): Result<U, E>
      requires Failure?
    {
      Failure(error)
    }

    function Extract(): R
      requires Success?
    {
      value
    }

    /** The success value, or `default` when the computation failed. */
    function GetOr(default: R): R
    {
      match this
      case Success(v) => v
      case Failure(_) => default
    }
  }
}
