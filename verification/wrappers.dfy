/** Optional values and error returns used throughout the model. */
module Wrappers {

  /** Python's `X | None`. */
  datatype Option<T> = None | Some(value: T)

  /** A value, or the exception that would have propagated instead. */
  datatype Result<T, E> = Ok(value: T) | Err(error: E)

  function Min(a: int, b: int): int { if a <= b then a else b }

  function Max(a: int, b: int): int { if a >= b then a else b }
}
