/** Optional values and error-carrying results shared by the model. */
module Wrappers {

  datatype Option<+T> = None | Some(value: T)

  /** The outcome of an operation that the scripts run inside `try`: a value, or the reason it raised. */
  datatype Result<+T> = Ok(value: T) | Err(reason: string)
}
