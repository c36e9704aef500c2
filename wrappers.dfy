/** Optional values and success-or-failure results, used wherever the source
    has `undefined`/`null` or a thrown exception. */
module Wrappers {

  datatype Option<+T> = None | Some(value: T)

  datatype Result<+R, +E> = Ok(value: R) | Err(error: E)
}
