/** Failure-carrying results shared by every module of the model.

    The modelled program signals failures with Python exceptions; here each
    exception class that can escape a modelled operation becomes a `PyError`
    value, and an operation that may raise returns a `Result`.
 */
module Wrappers {

  datatype Option<+T> = None | Some(value: T)

  /** The Python exception classes the modelled code raises or catches. */
  datatype PyError =
    | ValueError
    | IndexError
    | KeyError
    | TypeError
    | ZeroDivisionError
    | RuntimeError
    | NotImplementedError
    | UnboundLocalError
    | AttributeError

  datatype Result<+T> = Ok(value: T) | Err(error: PyError) {
    predicate IsFailure() { Err? }

    function PropagateFailure<U>(): Result<U>
      requires Err?
    {
      Err(error)
    }

    function Extract(): T
      requires Ok?
    {
      value
    }
  }
}
