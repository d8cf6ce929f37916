/** Failure-carrying return values, standing in for the JavaScript
    `null` results and thrown `Error`s of the pipeline. */
module Wrappers {

  datatype Option<+T> = None | Some(value: T) {
    function GetOr(default: T): T {
      match this
      case Some(v) => v
      case None => default
    }
  }

  datatype Result<+R, +E> = Ok(value: R) | Err(error: E)

  /** A result that carries no value on success (a `Promise<void>`). */
  datatype Outcome<+E> = Pass | Fail(error: E)
}
