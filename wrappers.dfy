/** Outcome types for the operations whose numpy counterparts raise or yield NaN. */
module Wrappers {
  datatype Option<T> = None | Some(value: T)

  datatype Result<T, E> = Ok(value: T) | Err(error: E)
}
