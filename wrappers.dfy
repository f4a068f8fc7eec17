/** Option and Result values used wherever the source returns null or throws. */
module Wrappers {

  /** A nullable value: Kotlin's `T?`, Swift's `T?`. */
  datatype Option<+T> = None | Some(value: T)

  /** The outcome of an operation that either yields a value or throws; `:-` propagates the throw. */
  datatype Result<+T, +E> = Ok(value: T) | Err(error: E)
  {
    predicate IsFailure() {
      Err?
    }

    function PropagateFailure<U>(): Result<U, E>
      requires Err?
    {
      Err(error)
    }

    function Extract(): T
      requires Ok?
    {
      value
    }
  }
}
