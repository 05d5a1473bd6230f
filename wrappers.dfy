/** Option and Result: a value that may be absent (a Java or Spark null) and
    the outcome of an operation that may fail (a thrown exception). */
module Wrappers {

  datatype Option<+T> = None | Some(value: T)

  datatype Result<+T, +E> = Ok(value: T) | Err(error: E)
  {
    /** Lets `:-` pass a failure on to the caller. */
    predicate IsFailure() {
      Err?
    }

    function PropagateFailure<U>(): Result<U, E>
      requires Err?
    {
      Err(error)
    }

    function Extract(): T
      requires Ok?
    {
      value
    }
  }
}
