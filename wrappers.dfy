/** Optional values and results with an error case, as used across the model. */
module Wrappers {

  /** A value that may be absent: `undefined` / `null` on the TypeScript side. */
  datatype Option<+T> = None | Some(value: T)

  /** The outcome of an operation that can be refused with an error. */
  datatype Result<+R, +E> = Ok(value: R) | Err(error: E)
}
