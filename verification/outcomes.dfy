/** Results and the failures the spectrum pipeline can raise. */
module Outcomes {

  /** A value that may be absent. */
  datatype Option<+T> = None | Some(value: T)

  /** A value, or the reason it could not be computed. */
  datatype Result<+T, +E> = Ok(value: T) | Err(error: E)

  /** The exceptions the pipeline's helpers raise, one variant per Python exception kind. */
  datatype Error =
    | NotANumber(token: string)   // `float(token)` raises ValueError
    | IndexError                  // a list index past the end (or into an empty list)
    | ZeroDivisionError           // a float division by zero
    | ShapeMismatch               // numpy refuses to stack arrays of different lengths

  /** The failure of a whole import: the first line that could not be read, and why. */
  datatype LineFailure = LineFailure(line: nat, cause: Error)
}
