/** Failure-carrying values standing in for Rust's `Option<T>`, `Result<T, E>`
    and `Result<(), E>`. */
module Wrappers {

  datatype Option<+T> = None | Some(value: T)

  datatype Result<+T, +E> = Success(value: T) | Failure(error: E)

  /** A result that carries no value on success, as `Result<(), E>` does. */
  datatype Outcome<+E> = Pass | Fail(error: E)
}
