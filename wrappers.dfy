/** Option and Result, the two shapes the server's functions return. */
module Wrappers {

  datatype Option<+T> = None | Some(value: T)

  /** Rust's `Result`: a value, or an error of type `E`. */
  datatype Result<+T, +E> = Ok(value: T) | Err(error: E)
}
