/** Option and Result values standing for the source's `undefined`/`null` and its thrown errors. */
module Wrappers {

  datatype Option<+T> = None | Some(value: T) {

    /** The value, or `default` when absent (the source's `x || default`). */
    function GetOr(default: T): T {
      match this
      case Some(v) => v
      case None => default
    }
  }

  datatype Result<+R, +E> = Success(value: R) | Failure(error: E)

  /** A check that passes or fails with an error, as a `void` function that may throw. */
  datatype Outcome<+E> = Pass | Fail(error: E)
}
