/** Option and Result types used for the source's nulls and exceptions. */
module Wrappers {

  datatype Option<+T> = None | Some(value: T)

  /** `Err` stands for an exception thrown by the source; its text names the failure. */
  datatype Result<+T> = Ok(value: T) | Err(msg: string)
}
