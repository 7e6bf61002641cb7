/** The error outcomes of the modelled Python code: an exception becomes an
    `Err` carrying the exception class and message, a normal return an `Ok`. */
module Results {

  /** The Python exception classes the modelled code raises. */
  datatype Error =
    | ValueError(message: string)
    | ZeroDivisionError
    | NotImplementedError
    | TypeError
    | AttributeError

  datatype Result<+T> = Ok(value: T) | Err(error: Error) {

    predicate IsFailure() {
      Err?
    }

    function PropagateFailure<U>(): Result<U>
      requires Err?
    {
      Err(error)
    }

    function Extract(): T
      requires Ok?
    {
      value
    }
  }

  datatype Option<+T> = None | Some(value: T) {

    /** The value, or `default` when absent (Python's `x if x is not None else default`). */
    function GetOr(default: T): T {
      match this
      case Some(v) => v
      case None => default
    }
  }
}
