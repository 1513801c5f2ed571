/** Rust's `Option` and `anyhow::Result` as datatypes. */
module Outcomes {

  /** Rust's `Option<T>`. */
  datatype Option<+T> = None | Some(value: T)

  /** A value-carrying result, as `Result<T>` in the source. */
  datatype Result<+T, +E> = Ok(value: T) | Err(error: E)

  /** A result without a value, as `Result<()>` in the source. */
  datatype Outcome<+E> = Pass | Fail(error: E)
}
