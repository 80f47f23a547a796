/** Optional values and results that carry an error. */
module Wrappers {
  datatype Option<+T> = None | Some(value: T)

  /** `Err` stands for an exception that leaves the call. */
  datatype Result<+T> = Ok(value: T) | Err
}
