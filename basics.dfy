/** Failure-carrying wrappers shared by the other modules. */
module Basics {

  /** A value that may be missing: JavaScript's `null` for an optional field. */
  datatype Option<+T> = None | Some(value: T)

  /** The outcome of a network request: a payload, or the message of the error it threw. */
  datatype Result<+T> = Ok(value: T) | Err(message: string)
}
