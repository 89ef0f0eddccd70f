/**
 * Option and Result, the shapes of the Rust `Option` and `Result` values the
 * core passes around, and Outcome: whether a call returned a value or panicked
 * (an `unwrap` on `None` or `Err`).
 */
module Wrappers {

  datatype Option<+T> = None | Some(value: T)

  datatype Result<+R, +E> = Ok(value: R) | Err(error: E)

  datatype Outcome<+T> = Returned(value: T) | Panicked
}
