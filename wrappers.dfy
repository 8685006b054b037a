/** Failure-aware results shared by the whole model.

    The source signals its error conditions by raising Python exceptions;
    here each such condition is an `Err` carrying the exception's kind. */
module Wrappers {

  datatype Option<T> = None | Some(value: T)

  /** The exception a step of the source raises. */
  datatype Error =
    | IndexError         // positional access past the end, missing sentinel row
    | KeyError           // dictionary or label lookup that finds nothing
    | ValueError         // max() of an empty sequence, failed conversion, shape mismatch
    | TypeError          // calling a float, comparing incomparable values
    | AttributeError     // attribute access on a missing column or a NaN cell
    | ZeroDivisionError  // division by zero (including Decimal's DivisionByZero)
    | InvalidOperation   // Decimal quantize of an infinity, ordering of a Decimal NaN

  datatype Result<T> = Ok(value: T) | Err(error: Error) {

    predicate IsFailure() {
      Err?
    }

    function PropagateFailure<U>(): Result<U>
      requires Err?
    {
      Err(error)
    }

    function Extract(): T
      requires Ok?
    {
      value
    }
  }
}
