/** Option and Result values, and the exceptions the modelled code can raise. */
module Wrappers {

  datatype Option<+T> = None | Some(value: T) {
    function GetOr(default: T): T {
      match this
      case Some(v) => v
      case None => default
    }
  }

  /** What a call that throws throws.
      OsSqlException: raised by OsSqlDebugger.Error, always with its message.
      NullReference: a method call on a null reference.
      Overflow: Convert.ToInt32 of a number outside the range of int.
      Unmodelled: a branch of the marshaller outside this model (floating point, JSON). */
  datatype Exception =
    | OsSqlException(message: string)
    | NullReference
    | Overflow
    | Unmodelled(branch: string)

  datatype Result<+T> = Success(value: T) | Failure(error: Exception)

  /** The outcome of a call that returns nothing (C# `void`). */
  datatype Outcome = Pass | Fail(error: Exception)
}
