/** Failure-compatible wrappers shared by every module of the model. */
module Wrappers {

  /** A value that may be absent. */
  datatype Option<+T> = None | Some(value: T)

  /** The outcome of an operation that raises an exception in the original program. */
  datatype Result<+T, +E> = Ok(value: T) | Err(error: E) {

    predicate IsFailure() {
      Err?
    }

    function PropagateFailure<U>(): Result<U, E>
      requires Err?
    {
      Err(error)
    }

    function Extract(): T
      requires Ok?
    {
      value
    }
  }
}

/**
 * The failures of the encoder, one constructor per distinct exception it
 * raises, plus `UnpairedScan`, which only the corrected time calibration
 * raises (the original fits such a scan anyway).
 */
module Errors {

  datatype Error =
    | ConflictingDarkShotStrategies      // both `events_channel` and `dark_shot_filter` given
    | UnknownBackgroundMethod(name: string)
    | UnknownEdgeType(edgeType: string)
    | StepLengthTooShort(stepLength: int)
    | NoDarkShots                        // a dark mask that selects no row
    | BackgroundNotCalibrated
    | BadDimensions                      // input of more than two dimensions
    | ShapeMismatch                      // numpy broadcasting or size-1 assignment fails
    | IndexOutOfRange                    // numpy/h5py IndexError
    | MissingKey(key: string)            // an HDF5 group or file that is not there
    | BadWorkerCount(nproc: int)         // `Pool(processes=nproc)` with nproc < 1
    | UnknownCalibrationMethod(name: string) // `calibrate_time` with another method: the original has no check and
                                             // fails with UnboundLocalError when it reaches the unbound `scan_pos_fs`
    | FitFailed                          // the least-squares fit raised
    | UnpairedScan                       // readbacks and file lists do not pair up step by step
}
