/** Shared result types. `Option` stands for a nil-able value, `Result` for a value with an error. */
module Wrappers {
  datatype Option<+T> = None | Some(value: T)

  datatype Result<+T> = Ok(value: T) | Err(message: string)
}
