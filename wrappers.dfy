/** Optional values and results with an error message, used wherever the
    Go code returns nil or a non-nil error. */
module Wrappers {

  datatype Option<T> = None | Some(value: T)

  datatype Result<T> = Ok(value: T) | Err(message: string)
}
