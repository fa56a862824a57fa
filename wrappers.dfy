/** Optional values and results with an error, as the rest of the model uses them. */
module Wrappers {

  /** A value that may be absent: JavaScript's `undefined`/`null`, or SQL's NULL. */
  datatype Option<+T> = None | Some(value: T) {

    /** `x ?? d`: the value when present, `d` otherwise. */
    function GetOr(default: T): T {
      match this
      case Some(v) => v
      case None => default
    }

    /** `x ?? y` where `y` may itself be absent. */
    function OrElse(other: Option<T>): Option<T> {
      if Some? then this else other
    }
  }

  /** The outcome of an operation that can fail with an error `E`. */
  datatype Result<+R, +E> = Ok(value: R) | Err(error: E)
}
