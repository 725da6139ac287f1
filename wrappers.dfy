/** Optional values and results: the shapes a JavaScript `null`, a `NaN` and a
    caught exception take in this model. */
module Wrappers {

  /** `None` stands for JavaScript's `null` (a failed pool slot) or, in
      `JsNumber.Num`, for a non-finite number. */
  datatype Option<+T> = None | Some(value: T) {

    /** The wrapped value, or `default` when there is none. */
    function GetOr(default: T): T {
      match this
      case Some(v) => v
      case None => default
    }
  }

  /** The outcome of an operation that may throw: a returned value or the error. */
  datatype Result<+T, +E> = Success(value: T) | Failure(error: E)
}
