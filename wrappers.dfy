/** Failure-carrying results for the engine's exceptions, and the exception kinds it throws. */
module Wrappers {

  /** The exception types thrown by the modelled code. */
  datatype Error =
    | IndexOutOfRange    // IndexOutOfRangeException
    | InvalidArgument    // ArgumentException
    | ArgumentNull       // ArgumentNullException
    | InvalidOperation   // InvalidOperationException (container not created)
    | NullReference      // a member access through a null reference
    | UnsafeAccess       // a raw pointer read or write outside the allocated buffer

  datatype Option<+T> = None | Some(value: T)

  datatype Result<+T> = Ok(value: T) | Err(error: Error) {
    predicate IsFailure() { Err? }
  }

  /** The outcome of a check that returns nothing but may throw. */
  datatype Outcome = Pass | Fail(error: Error)
}
