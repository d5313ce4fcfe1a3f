/** Optional values and results with an error, shared by the other modules. */
module Wrappers {
  /** `None` stands for JavaScript's `undefined` wherever a value may be missing. */
  datatype Option<+T> = None | Some(value: T)

  /** The outcome of a step that can throw: `Err` carries the exception raised. */
  datatype Result<+T, +E> = Ok(value: T) | Err(error: E)
}
