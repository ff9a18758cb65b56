/** Option and Result values standing for Python's None and for raised exceptions. */
module Wrappers {

  datatype Option<+T> = None | Some(value: T)

  /** The exception classes the modelled code raises. */
  datatype Error =
    | KeyError(key: string)
    | TypeError(message: string)
    | ValueError(message: string)
    | PermissionError(message: string)

  /** A value, or the exception that the Python code raises instead of returning it. */
  datatype Result<+T> = Ok(value: T) | Err(error: Error)
}
