/** The two outcome types the model returns. `Option` is an answer that may be
    absent, as the cache service's restore is. `Result` is either a value or a
    typed error; the `IsFailure`/`PropagateFailure`/`Extract` members let a
    caller pass an error straight up with `:-`, which is how discovery aborts
    on the first unknown package. */
module Wrappers {

  datatype Option<+T> = None | Some(value: T)

  datatype Result<+R, +E> = Success(value: R) | Failure(error: E) {

    predicate IsFailure() {
      Failure?
    }

    function PropagateFailure<U>(): Result<U, E>
      requires Failure?
    {
      Failure(error)
    }

    function Extract(): R
      requires Success?
    {
      value
    }
  }
}
