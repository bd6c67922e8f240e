/** Failure-carrying wrappers shared by the other modules. */
module Wrappers {

  /** A value that may be absent (the source's `T | null`). */
  datatype Option<+T> = None | Some(value: T)

  /** The outcome of an operation that may throw; `error` is the thrown error's message. */
  datatype Result<+T> = Ok(value: T) | Err(error: string)
}
