/** Failure-carrying datatypes shared by the parsers and the planner.

    `Fault` names the .NET exceptions the original code raises on malformed
    input instead of recovering (an index past the end of a list, a number
    that does not parse, a value outside the 32-bit range, a missing object).
 */
module Wrappers {

  datatype Option<+T> = None | Some(value: T)

  datatype Fault =
    | IndexOutOfRange   // ArgumentOutOfRangeException from a list indexer
    | FormatError       // FormatException from int.Parse
    | Overflow          // OverflowException from int.Parse
    | NullReference     // NullReferenceException on a missing object

  datatype Result<+T> = Success(value: T) | Failure(error: Fault) {

    predicate IsFailure() {
      Failure?
    }

    function PropagateFailure<U>(): Result<U>
      requires Failure?
    {
      Failure(error)
    }

    function Extract(): T
      requires Success?
    {
      value
    }
  }
}
