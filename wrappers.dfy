/** Optional values and fallible results, standing in for Python's `None`
    and for the exceptions the region tools raise. */
module Wrappers {

  datatype Option<+T> = None | Some(value: T)

  datatype Result<+T, +E> = Ok(value: T) | Err(error: E)

  /** The outcome of a call that returns nothing in Python but may raise. */
  datatype Outcome<+E> = Pass | Fail(error: E)
}
