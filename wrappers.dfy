/** Option and Result, used for Python's None and for the exceptions the
    modelled code raises, and Python's `max(0, x)`. */
module Wrappers {

  datatype Option<+T> = None | Some(value: T)

  datatype Result<+T, +E> = Success(value: T) | Failure(error: E) {
    predicate IsFailure() {
      Failure?
    }

    function PropagateFailure<U>(): Result<U, E>
      requires Failure?
    {
      Failure(error)
    }

    function Extract(): T
      requires Success?
    {
      value
    }
  }

  /** `max(0, x)`. */
  function Max0(x: int): nat {
    if x < 0 then 0 else x
  }
}
