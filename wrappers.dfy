/** Failure-carrying values standing in for the exceptions the engine throws. */
module Wrappers {

  datatype Option<+T> = None | Some(value: T)

  /** The exceptions that can escape the modelled code. */
  datatype Exception =
    /** `Enumerable.First()` on an empty sequence. */
    | InvalidOperation
    /** `Math.Clamp` called with `min > max`. */
    | MinGreaterThanMax
    /** A member access on a field that is still null. */
    | NullReference
    /** `new Exception(message)` thrown by the engine itself. */
    | Thrown(message: string)
    /** The validation-layer check, carrying the names of the missing layers. */
    | UnsupportedValidationLayers(missing: seq<string>)

  datatype Result<+T> = Success(value: T) | Failure(error: Exception)

  datatype Outcome = Pass | Fail(error: Exception)
}
