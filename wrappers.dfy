/** Option and Result values, and the Java exceptions the modelled code can end in. */
module Wrappers {

  /** A value that may be absent: a missing JSON key, a JSON null, or a null reference. */
  datatype Option<+T> = None | Some(value: T) {
    function GetOr(default: T): T {
      match this
      case Some(v) => v
      case None => default
    }
  }

  /** The unchecked exceptions the modelled code throws and does not catch. */
  datatype JavaException =
    | NullPointer
    | NumberFormat
    | IllegalState(message: string)
    | IllegalArgument(message: string)

  /** The outcome of a Java call that either returns a value or throws. */
  datatype Result<+T> = Ok(value: T) | Err(error: JavaException)

  /** The outcome of a Java call that returns nothing or throws. */
  datatype Outcome = Pass | Fail(error: JavaException)
}
