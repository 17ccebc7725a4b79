/** Failure-carrying results: Rust's `Option` and `anyhow::Result` / `bail!`. */
module Wrappers {

  datatype Option<+T> = None | Some(value: T)

  datatype Result<+T, +E> = Success(value: T) | Failure(error: E)
}
