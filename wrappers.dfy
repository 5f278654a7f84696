/** Optional cells and fallible results. */
module Wrappers {

  /** A cell that may be missing (a NaN in the sales sheet). */
  datatype Option<+T> = None | Some(value: T)

  /** A value, or the error the computation raised instead. */
  datatype Result<+T, +E> = Ok(value: T) | Err(error: E)
}
