/** Option and Result values, used for JavaScript's `undefined`/`null` and for
    operations that reject with an error message. */
module Wrappers {

  datatype Option<+T> = None | Some(value: T) {
    function GetOr(default: T): T {
      match this
      case Some(v) => v
      case None => default
    }
  }

  /** The outcome of an operation that may reject with a message. */
  datatype Result<+T> = Success(value: T) | Failure(error: string)
}
