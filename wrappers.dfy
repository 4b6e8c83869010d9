/** Failure-carrying results shared by the codec, the syncing client and the controller. */
module Wrappers {

  /** A value that may be absent (a null pointer or an unset callback in the source). */
  datatype Option<+T> = None | Some(value: T)

  /** The outcome of an operation that either yields a value or reports why it failed. */
  datatype Result<+T, +E> = Ok(value: T) | Err(error: E)

  /** The outcome of an operation that yields nothing on success. */
  datatype Outcome<+E> = Pass | Fail(error: E)
}
