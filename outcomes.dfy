/** Failure-carrying values for the Monte Carlo engine.

    The engine signals failures with Python exceptions; each kind it can
    raise is one constructor of `Error`, and every operation that can fail
    returns a `Result` (or an `Outcome` when it has no value to return). */
module Outcomes {

  datatype Option<+T> = None | Some(value: T)

  /** The exceptions the engine raises. */
  datatype Error =
    | AssertionFailed      // a bare `assert` on an unset or falsy attribute
    | IndexOutOfRange      // indexing an empty trade list (IndexError)
    | DivisionByZero       // ZeroDivisionError
    | ZeroRangeStep        // ValueError: range() with a step of 0
    | ExcessiveBaseEquity  // no run of the sweep meets the risk target

  datatype Result<+T> = Ok(value: T) | Err(error: Error)

  datatype Outcome = Pass | Fail(error: Error)
}
