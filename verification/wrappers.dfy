/** Failure-compatible helper datatypes shared by every module of the model. */
module Wrappers {

  /** A value that may be absent: TypeScript's `T | null` / `T | undefined`. */
  datatype Option<+T> = None | Some(value: T) {
    function GetOr(default: T): T {
      match this
      case Some(v) => v
      case None => default
    }
  }

  /** The outcome of a call that may throw: `Ok` carries the returned value, `Err` the error message. */
  datatype Result<+R> = Ok(value: R) | Err(message: string) {
    predicate IsFailure() { Err? }
  }
}
