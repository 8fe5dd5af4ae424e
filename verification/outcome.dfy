/** Failure-compatible results for the conditions under which numpy would
    silently produce NaN or infinity, or raise. */
module Outcome {

  /** Why a single ensemble member could not be produced. */
  datatype Error =
    | LogDomain      // log of a non-positive argument A/sigma_i - B (numpy: NaN, or -inf at 0)
    | EmptyRange     // nanmin/nanmax of an empty time axis (numpy: ValueError)
    | ZeroTimeRange  // max(time_ratio) == min(time_ratio) (numpy: 0/0 = NaN)
    | ZeroTimeStep   // time_ratio[i] == time_ratio[i-1] in the rate rescaling (numpy: inf)
    | OutsideModel   // A = 0, B < 0, or a noise vector or attributes of the wrong length: not followed

  datatype Result<+T> = Success(value: T) | Failure(error: Error) {

    predicate IsFailure() {
      Failure?
    }

    function PropagateFailure<U>(): Result<U>
      requires Failure?
    {
      Failure(error)
    }

    function Extract(): T
      requires Success?
    {
      value
    }
  }
}
