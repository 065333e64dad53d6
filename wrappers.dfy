/** Optional values and results, used for the document model's unset fields
    and for the validator's fault paths. */
module Wrappers {

  datatype Option<+T> = None | Some(value: T)

  datatype Result<+R, +E> = Success(value: R) | Failure(error: E)
}
