/**
 * Failure-carrying values shared by the whole model.
 *
 * The Python code reports failures by raising exceptions; every operation that
 * can raise returns one of these values instead, naming the exception class.
 */
module Wrappers {

  /** The Python exception classes the modelled code can raise. */
  datatype Exception =
    | ValueError
    | TypeError
    | KeyError
    | IndexError
    | AssertionError
    | AttributeError
    | ZeroDivisionError

  datatype Option<+T> = None | Some(value: T)

  /** A value, or the exception raised while computing it. */
  datatype Result<+T> = Ok(value: T) | Err(error: Exception) {
    predicate IsFailure() { Err? }
    function PropagateFailure<U>(): Result<U>
      requires Err?
    {
      Err(error)
    }
    function Extract(): T
      requires Ok?
    {
      value
    }
  }

  /** The outcome of a statement that returns nothing: it completes or raises. */
  datatype Outcome = Pass | Fail(error: Exception)
}
