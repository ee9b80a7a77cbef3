/** Optional values and value-or-error results, shared by the other modules. */
module Wrappers {

  /** A value that may be absent (an attribute or an item the store does not hold). */
  datatype Option<+T> = None | Some(value: T)

  /** Either a returned value or a thrown error. */
  datatype Result<+T, +E> = Ok(value: T) | Err(error: E)
}
