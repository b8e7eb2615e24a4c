/** Option and Result, the two failure-compatible wrappers the model uses for
    Rust's `Option<T>` and `Result<T, E>`. The Result constructors are named
    Success/Failure so that they do not clash with the `Ok` variants of the
    wire enums. */
module Wrappers {

  datatype Option<+T> = None | Some(value: T)

  datatype Result<+T, +E> = Success(value: T) | Failure(error: E) {
    predicate IsFailure() {
      Failure?
    }

    function PropagateFailure<U>(): Result<U, E>
      requires Failure?
    {
      Failure(error)
    }

    function Extract(): T
      requires Success?
    {
      value
    }
  }
}
