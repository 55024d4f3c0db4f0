/** Optional values and error-carrying results shared by every module of the model.
    Java's `null` returns become `None`; thrown exceptions become `Err`. */
module Wrappers {

  datatype Option<+T> = None | Some(value: T)

  datatype Result<+T, +E> = Ok(value: T) | Err(error: E)
}
