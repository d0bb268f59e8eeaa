/** Optional values and results with an error, used for JavaScript's `null` and thrown errors. */
module Wrappers {

  /** `None` stands for the source's `null` / `undefined`. */
  datatype Option<+T> = None | Some(value: T)

  /** `Err` stands for an `Error` thrown by the store. */
  datatype Result<+T, +E> = Ok(value: T) | Err(error: E)
}
