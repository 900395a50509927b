/** Failure-carrying results for operations that the C# code aborts with an exception. */
module Wrappers {

  datatype Option<+T> = None | Some(value: T)

  /** A value, or the reason the operation threw. */
  datatype Result<+T> = Ok(value: T) | Err(reason: string)

  /** Success or the reason the operation threw, for operations without a result. */
  datatype Outcome = Pass | Fail(reason: string)

  /** The messages .NET itself gives the runtime errors the C# code can run into. */
  const NullReference := "Object reference not set to an instance of an object."
  const DivideByZero := "Attempted to divide by zero."
  const IndexOutOfRange := "Index was outside the bounds of the array."
}
