/** Option and Result values standing for the null references and exceptions of the source. */
module Wrappers {

  /** A nullable reference (`string?`, `int?`, `T | null`, an optional property). */
  datatype Option<+T> = None | Some(value: T) {

    /** The value, or `default` when absent (the `??` operator of C# and TypeScript). */
    function GetOr(default: T): T {
      match this
      case Some(v) => v
      case None => default
    }
  }

  /** The outcome of an operation that either returns a value or throws. */
  datatype Result<+R, +E> = Success(value: R) | Failure(error: E)
}
