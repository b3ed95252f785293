/**
 * Error kinds raised by the handle layer and by the backend facades, and the
 * small failure-carrying datatypes every operation returns instead of
 * throwing.
 */
module Exceptions {

  /** The exception classes the library throws (excBadArgument,
      excUnimplemented, excMath). A math error carries the backend's info. */
  datatype Error =
    | BadArgument
    | Unimplemented
    | MathError(info: int)

  datatype Option<+T> = None | Some(value: T)

  /** The outcome of an operation that may throw. */
  datatype Result<+T> = Ok(value: T) | Err(error: Error) {
    predicate IsFailure() { Err? }

    function PropagateFailure<U>(): Result<U>
      requires Err?
    {
      Err(error)
    }

    function Extract(): T
      requires Ok?
    {
      value
    }
  }
}
