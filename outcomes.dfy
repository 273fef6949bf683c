/** Python exceptions raised by the services, and the result types that carry them. */
module Outcomes {

  /** The exception classes the services raise, with their message where the
      message is built from strings only. */
  datatype Error =
    | ValueError(msg: string)
    | AttributeError(msg: string)
    | TypeError(msg: string)
    | IndexError(msg: string)
    | NameError(name: string)
    | AssertionError

  datatype Option<+T> = None | Some(value: T)

  /** A call that returns a value or raises. */
  datatype Result<+T> = Ok(value: T) | Err(error: Error)

  /** A call that returns nothing or raises. */
  datatype Outcome = Pass | Fail(error: Error)

  /** The AttributeError Python raises when an attribute was never assigned. */
  function Missing(owner: string, attr: string): Error
  {
    AttributeError("'" + owner + "' object has no attribute '" + attr + "'")
  }
}
