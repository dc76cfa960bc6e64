/** Optional values and error-or-value results used by the other modules. */
module Optional {

  /** A value that may be absent, like TypeScript's `T | undefined`. */
  datatype Option<+T> = None | Some(value: T)

  /** A computation that yields a value or an error message. */
  datatype Result<+T, +E> = Ok(value: T) | Err(error: E)
}
