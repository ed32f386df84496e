/** Gleam's `Result` and an optional value, as the adapters hand them back and forth. */
module Results {

  /** A value that may be missing (an absent port, an absent stream fault). */
  datatype Option<+T> = None | Some(value: T)

  /** Gleam's `Ok(value)` / `Error(error)`. */
  datatype Result<+T, +E> = Ok(value: T) | Error(error: E)
}
