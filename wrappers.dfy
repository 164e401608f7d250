/** Optional values, standing for Python's `None` and for a lookup that raised. */
module Wrappers {

  datatype Option<+T> = None | Some(value: T)

  /** An unsigned octet of a request body. */
  newtype byte = x: int | 0 <= x < 256
}
