/** Optional values and success-or-error results, used where the source
    returns an error record or raises. */
module Wrappers {

  datatype Option<T> = None | Some(value: T)

  datatype Result<T, E> = Ok(value: T) | Failure(error: E)
}
