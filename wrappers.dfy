/** Nullable values and error returns shared by every module of the model. */
module Wrappers {

  /** A value that may be absent: JavaScript's `null` / `undefined`. */
  datatype Option<+T> = None | Some(value: T) {

    /** `this ?? other`: the value when present, `other` otherwise. */
    function OrElse(other: Option<T>): Option<T> {
      if Some? then this else other
    }

    function GetOr(default: T): T {
      if Some? then value else default
    }
  }

  /** The result of an operation that throws on bad input. */
  datatype Result<+R, +E> = Success(value: R) | Failure(error: E)
}
