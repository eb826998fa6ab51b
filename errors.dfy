/** Failures of the bandit engines, and the result types that carry them. */
module Errors {

  /** Why an engine operation failed. */
  datatype EngineError =
    | NotImplemented  // the base engine has no selection rule
    | EmptyRange      // a uniform integer draw from an empty range [0, nActions - 1)
    | EmptyArgmax     // an argmax over rows that have no arms
    | NotRun          // results requested before `run` has completed

  /** An optional value. */
  datatype Option<T> = None | Some(value: T)

  /** The value of an operation that may fail. */
  datatype Result<T> = Ok(value: T) | Err(error: EngineError)

  /** The outcome of an operation that returns nothing on success. */
  datatype Outcome = Pass | Fail(error: EngineError)
}
