/** Option and Result, the two failure-carrying shapes the Rust code uses
    (`Option<T>` and `Result<T, Error>`, where an error is kept as its text). */
module Wrappers {

  datatype Option<+T> = None | Some(value: T) {
    /** `unwrap_or(default)` */
    function GetOr(default: T): T {
      match this
      case Some(v) => v
      case None => default
    }
  }

  datatype Result<+R, +E> = Success(value: R) | Failure(error: E) {
    /** `unwrap_or(default)` / `unwrap_or_else(|_| default)` */
    function GetOr(default: R): R {
      match this
      case Success(v) => v
      case Failure(_) => default
    }
  }

  /** Rust's `u8`, the type of every numeric path or query parameter. */
  type U8 = x: nat | x < 256
}
