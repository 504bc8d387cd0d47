/** Optional values and success-or-failure results shared by the other modules. */
module Wrappers {

  /** A value that may be absent: TypeScript's `undefined`/`null`, Rust's `Option`. */
  datatype Option<T> = None | Some(value: T) {

    /** The value, or `default` when absent (TypeScript's `??`). */
    function GetOr(default: T): T {
      match this
      case Some(v) => v
      case None => default
    }
  }

  /** A computation that either succeeds with a value or fails with an error. */
  datatype Result<T, E> = Success(value: T) | Failure(error: E)
}
