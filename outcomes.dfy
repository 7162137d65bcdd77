/** The Python exceptions the two distribution classes raise, and the
    success-or-exception result every fallible operation returns. */
module Outcomes {

  /** The built-in Python exception classes raised by the core, with their messages. */
  datatype Exception =
    | ValueError(msg: string)
    | TypeError(msg: string)
    | ZeroDivisionError(msg: string)

  /** Either a returned value or a raised exception. */
  datatype Result<+T> = Ok(value: T) | Err(error: Exception)

  datatype Option<+T> = None | Some(value: T)
}
