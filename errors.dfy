/** Optional values, results and the Python exceptions the program can raise. */
module Errors {

  datatype Option<+T> = None | Some(value: T)
  {
    /** The value, or the default when there is none. */
    function GetOr(default: T): T
    {
      match this
      case Some(v) => v
      case None => default
    }
  }

  /** The exceptions raised by the modelled code. */
  datatype Error =
    | ValueError(message: string)   // an unknown analysis mode
    | RuntimeError                  // the audio source cannot be opened
    | IndexError                    // beats[0] on no beats; random.choice on an empty pool
    | ZeroDivisionError             // 60/bpm with bpm == 0
    | OSError                       // makedirs, open or copy failed

  /** A value, or the exception raised instead of returning it. */
  datatype Result<+T> = Ok(value: T) | Err(error: Error)

  /** How a procedure without a result ended: it returned, or it raised. */
  datatype Outcome = Returned | Raised(error: Error)
}
