/** Option for JavaScript's null/undefined, Result for an operation that may throw. */
module Wrappers {

  datatype Option<+T> = None | Some(value: T)

  /** `Err(message)` stands for an `Error` thrown with that message. */
  datatype Result<+T> = Ok(value: T) | Err(message: string)
}
