/** Nullable references and error-or-value results. */
module Wrappers {
  /** A Java reference that may be null. */
  datatype Option<T> = None | Some(value: T)

  /** An operation that either yields a value or fails with a message. */
  datatype Result<T> = Ok(value: T) | Err(message: string)
}
