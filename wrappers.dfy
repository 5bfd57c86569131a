/** Optional values and the outcome of a step that may raise. */
module Wrappers {

  datatype Option<T> = None | Some(value: T)

  /**
   * The outcome of a Python call that either returns a value or raises the
   * `ValueError` that `float()` / `int()` raise on a token they cannot read.
   */
  datatype Parsed<T> = Ok(value: T) | BadNumber(token: string)
}
