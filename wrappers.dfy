/** Optional values and error results shared by the other modules. */
module Wrappers {

  /** Python's `None` or a present value. */
  datatype Option<+T> = None | Some(value: T) {
    function GetOr(default: T): T {
      match this
      case Some(v) => v
      case None => default
    }
  }

  /** The Python exceptions the modelled code can raise. */
  datatype Error =
    | KeyError
    | ValueError
    | TypeError
    | AttributeError
    | UnboundLocalError
    | IndexError
    | AssertionError
    | InvalidDrawingMode
    /** Anything the session reader raises while opening a session file. */
    | ReaderError

  /** A value, or the exception raised instead of producing it. */
  datatype Result<+R> = Ok(value: R) | Err(error: Error)

  /** Completion of an operation that returns nothing, or the exception it raised. */
  datatype Outcome = Pass | Fail(error: Error)
}
