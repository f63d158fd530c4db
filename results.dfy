/** Option, Result and Outcome: the model's stand-ins for Java's Optional and for
    methods that either return normally or throw one typed exception. */
module Results {

  datatype Option<+T> = None | Some(value: T)

  datatype Result<+T, +E> = Success(value: T) | Failure(error: E) {
    predicate IsFailure() { Failure? }

    function PropagateFailure<U>(): Result<U, E>
      requires Failure?
    {
      Failure(error)
    }

    function Extract(): T
      requires Success?
    {
      value
    }
  }

  /** The outcome of a `void` method: it returned, or it threw `error`. */
  datatype Outcome<+E> = Pass | Fail(error: E)
}
