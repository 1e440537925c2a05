/** Option, Result and Outcome: the error paths of the timetable builder. */
module Wrappers {

  datatype Option<+T> = None | Some(value: T)

  /** A computation that either yields a value or stops with the exception it raises. */
  datatype Result<+T, +E> = Success(value: T) | Failure(error: E) {

    /** The value on success, `default` when the computation raised. */
    function GetOr(default: T): T {
      match this
      case Success(v) => v
      case Failure(_) => default
    }

    /** Forgets the value, keeping only whether and how the computation failed. */
    function ToOutcome(): Outcome<E> {
      match this
      case Success(_) => Pass
      case Failure(e) => Fail(e)
    }
  }

  datatype Outcome<+E> = Pass | Fail(error: E)
}
