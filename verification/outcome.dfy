/** Results of the modelled operations: a value, or the way the Python code gives up. */
module Outcome {

  datatype Option<+T> = None | Some(value: T)

  /** The exceptions the modelled code raises, plus the planner loop that never ends. */
  datatype Failure =
    | NotPaired                        // the G property before a survey is paired
    | MissingSurvey                    // the forward operator reads receivers from an absent survey
    | OutOfRangeIndex                  // scipy refuses a projector index outside the grid
    | ZeroWorkers                      // n_cpu == 0: the planner divides by zero
    | UnsupportedBackend(message: string) // the assertion on the `parallelized` setting
    | NothingToStack                   // np.vstack / da.vstack of an empty list of rows
    | ShapeMismatch                    // numpy refuses a product of misaligned shapes
    | NeverReturns                     // the chunk planner's while loop does not terminate

  datatype Result<+T> = Ok(value: T) | Err(error: Failure)
}
