/** Optional values and results with an error, as the rest of the model uses them. */
module Wrappers {

  datatype Option<+T> = None | Some(value: T)

  /** A value or the error that stopped its computation; `:-` propagates the error. */
  datatype Result<+T, +E> = Success(value: T) | Failure(error: E) {
    predicate IsFailure() {
      Failure?
    }

    function PropagateFailure<U>(): Result<U, E>
      requires Failure?
    {
      Failure(error)
    }

    function Extract(): T
      requires Success?
    {
      value
    }
  }

  /** The exceptions the modelled Python code can raise, by kind. */
  datatype Exception =
    | StabilityCheckFailed(dt: real, limit: real)  // ValueError("Stability check failed: ...")
    | ValueError
    | TypeError
    | ZeroDivisionError
    | IndexError
    | KeyError
    | AttributeError
    | FileNotFoundError
    | MissingHeader                                // ValueError("Missing header in ...")
    | NoSpatialColumns                             // ValueError("No spatial columns found ...")
}
