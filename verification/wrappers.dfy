/** Option and Result, the two failure-carrying datatypes the rest of the model uses
    for Rust's `Option<T>` and `Result<T, E>`. */
module Wrappers {

  /** Rust's `Option<T>`. */
  datatype Option<+T> = None | Some(value: T) {

    /** The value, or `default` when absent (prost's optional-field getters). */
    function GetOr(default: T): T {
      match this
      case Some(v) => v
      case None => default
    }
  }

  /** Rust's `Result<T, E>`. */
  datatype Result<+T, +E> = Ok(value: T) | Err(error: E)
}
