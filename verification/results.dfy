/** The outcome of a computation that stops on a degenerate state instead of producing a non-finite value. */
module Results {

  /** Why a tick could not be completed. */
  datatype Failure =
    /** The wheel-speed solver returned 0 for a current-limited wheel, so its slip ratio is undefined. */
    | ZeroWheelSpeed

  datatype Result<T> = Ok(value: T) | Err(failure: Failure)
}
