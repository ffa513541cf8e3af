/** Optional values and the outcome of a Python call that may raise. */
module Wrappers {
  datatype Option<T> = None | Some(value: T)

  /** A value, or an exception that propagates to the nearest `except`. */
  datatype Outcome<T> = Ok(value: T) | Raised
}
