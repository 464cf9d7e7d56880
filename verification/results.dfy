/** Option and Result types standing in for C# nulls and thrown exceptions. */
module Results {

  /** A value that may be absent: `None` plays the role of a C# `null` reference. */
  datatype Option<+T> = None | Some(value: T) {

    /** The wrapped value, or `default` when absent. */
    function GetOr(default: T): T {
      match this
      case Some(v) => v
      case None => default
    }
  }

  /** The two exception classes the statement compiler throws. */
  datatype Error =
    | InvalidOperation(message: string)   // System.InvalidOperationException
    | UnsupportedArgument(message: string) // System.ArgumentException

  /** Either a computed value or the exception that aborted the computation. */
  datatype Result<+T> = Ok(value: T) | Err(error: Error) {

    predicate IsFailure() {
      Err?
    }

    function PropagateFailure<U>(): Result<U>
      requires Err?
    {
      Err(error)
    }

    function Extract(): T
      requires Ok?
    {
      value
    }
  }
}
