/** Failure-compatible result types shared by every module of the model.
    A Go function that returns `(T, error)`, or that panics, is modelled by a
    function returning `Result<T, E>`; `:-` propagates the first failure. */
module Wrappers {

  datatype Option<+T> = None | Some(value: T)

  datatype Result<+T, +E> = Ok(value: T) | Err(error: E) {

    predicate IsFailure() {
      Err?
    }

    function PropagateFailure<U>(): Result<U, E>
      requires Err?
    {
      Err(error)
    }

    function Extract(): T
      requires Ok?
    {
      value
    }
  }
}
