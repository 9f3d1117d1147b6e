/** Optional values and success/failure results shared by the other modules. */
module Outcomes {

  /** A value that may be missing: TypeScript's `T | undefined`. */
  datatype Option<+T> = None | Some(value: T)

  /** A settled promise: resolved with a value, or rejected with an error whose `message` is kept. */
  datatype Result<+T> = Ok(value: T) | Err(message: string)
}
