/** Optional values and the success-or-thrown-error outcome of an awaited call. */
module Wrappers {

  /** A JavaScript value that may be `undefined` or `null` (None) or present (Some). */
  datatype Option<+T> = None | Some(value: T)

  /** The outcome of a collaborator call: a value, or the `message` of the error it threw. */
  datatype Result<+T> = Ok(value: T) | Err(message: string)
}
