/** Optional values and exception-carrying results, as the Python code uses
    `None` and `try`/`except Exception as e: str(e)`. */
module Outcomes {

  /** Python's `Optional[...]`: a value or `None`. */
  datatype Option<+T> = None | Some(value: T)

  /** The outcome of a call that may raise: its value, or the text `str(e)`
      of the exception it raised. */
  datatype Result<+T> = Ok(value: T) | Err(message: string)
}
