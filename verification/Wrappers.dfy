/** Optional values and results, the shapes that Go's nil pointers and error returns take here. */
module Wrappers {
  datatype Option<+T> = None | Some(value: T)

  datatype Result<+T, +E> = Ok(value: T) | Err(error: E)
}
