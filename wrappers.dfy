/** Optional values and failures, standing in for JavaScript's `undefined`/`null`
    and for thrown errors. */
module Wrappers {

  datatype Option<+T> = None | Some(value: T) {

    /** The JavaScript `x ?? default` on an optional value. */
    function GetOr(default: T): T {
      match this
      case Some(v) => v
      case None => default
    }
  }

  /** The outcome of a call that may throw: a value, or the message of the error. */
  datatype Result<+R> = Success(value: R) | Failure(error: string)

  /** `a ?? b` on two optional values: the first one that is present. */
  function Or<T>(a: Option<T>, b: Option<T>): Option<T> {
    if a.Some? then a else b
  }
}
