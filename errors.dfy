/** The Python exceptions the modelled runner code can raise, and the
    result types that carry them instead of a crash. */
module Errors {

  /** An exception raised by the Python code. A `ValueError` carries the
      message the source raises it with. */
  datatype PyError =
    | AssertionError
    | ZeroDivisionError
    | IndexError
    | TypeError
    | ValueError(message: string)

  /** A value, or the exception raised while computing it. */
  datatype Result<+T> = Ok(value: T) | Err(error: PyError)

  /** Success of a step that returns nothing, or the exception it raised. */
  datatype Outcome = Pass | Fail(error: PyError)
}
