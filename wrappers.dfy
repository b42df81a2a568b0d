/** Option and Result types, and the Python exceptions the modelled code raises. */
module Wrappers {

  datatype Option<+T> = None | Some(value: T)

  /** The exception classes that reach the caller of the modelled functions. */
  datatype Error =
    | ValueError(msg: string)
    | IndexError
    | KeyError(key: string)
    | TypeError
    | NameError(name: string)
    | IOError(path: string)
    | StopIteration

  /** A value, or the exception raised instead of returning one. */
  datatype Result<+T> = Ok(value: T) | Err(error: Error)
}
