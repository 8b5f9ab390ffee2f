/** Values that may be missing, and operations that may throw. */
module Outcome {

  /** The source's `T | null` and `T | undefined`. */
  datatype Option<+T> = None | Some(value: T)

  /** The source's thrown `Error`s: the message is kept, the stack is not. */
  datatype Result<+T> = Ok(value: T) | Err(message: string)
}
