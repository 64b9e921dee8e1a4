/** Optional values and results carrying an error, used for the lookups'
    "record or None" fields and for the exceptions they raise. */
module Wrappers {

  datatype Option<+T> = None | Some(value: T)

  datatype Result<+T, +E> = Success(value: T) | Failure(error: E)
}
