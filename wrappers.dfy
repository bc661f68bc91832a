/** Option and Result, the two shapes every fallible step of the client takes. */
module Wrappers {

  /** A value that may be missing: TypeScript's `T | null`. */
  datatype Option<+T> = None | Some(value: T)

  /** The outcome of a step that may throw: the value, or the `message` of
      the `Error` it threw. */
  datatype Result<+T> = Ok(value: T) | Err(error: string)
}
