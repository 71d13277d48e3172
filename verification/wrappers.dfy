/** Optional values and success-or-error results, used for nullable inputs
    (a query string that may be null, a limit that may be omitted) and for
    the outcome of one HTTP attempt. */
module Wrappers {

  datatype Option<+T> = None | Some(value: T)

  datatype Result<+R, +E> = Ok(value: R) | Err(error: E)
}
