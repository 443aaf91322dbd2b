/** The value-or-nothing and value-or-error types every other module uses. */
module Wrappers {

  datatype Option<+T> = None | Some(value: T)

  /** A stable machine-readable code plus human-readable detail. */
  datatype Error = Error(code: string, message: string)

  datatype Result<+T> = Ok(value: T) | Err(error: Error)
}
