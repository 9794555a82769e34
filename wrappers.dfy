/** Optional values and success/failure results, standing in for Python's `None` and for
    the `{'success': ..., 'error': ...}` replies of the request handlers. */
module Wrappers {

  datatype Option<+T> = None | Some(value: T)

  datatype Result<+T, +E> = Ok(value: T) | Err(error: E)
}
