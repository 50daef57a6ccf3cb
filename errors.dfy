/** Failure-carrying results shared by every module of the linear optical model.

    The crate reports two kinds of failure: the variants of its error enum, returned
    as `Err`, and panics (failed `assert!`, `unwrap` on `None`, out-of-range slicing,
    nalgebra shape assertions, `unimplemented!`). Both become `Err` here, so that no
    operation needs a precondition the crate itself does not impose. */
module Errors {

  /** Why a computation panicked. */
  datatype PanicReason =
    | ShapeMismatch       // nalgebra: the element count does not match rows × columns
    | DimensionMismatch   // nalgebra: matrix product of incompatible shapes
    | ZeroChunkSize       // `chunks(0)`
    | SliceOutOfRange     // `split_at` or a range index past the end of a slice
    | IndexOutOfRange     // `v[k]`, `row(k)`, `column_mut(k)` past the end
    | EmptyRows           // nalgebra `from_rows` with no rows
    | NoMatch             // `unwrap` on `None` (lookup failure, exhausted iterator)
    | Unimplemented       // `unimplemented!()`
    | NotEnoughSamples    // `assert!(n_total >= n_sample, "not enough samples")`
    | MissingMask         // `panic!` when a looked-up entry is not the expected mask

  /** The crate's error values, plus panics. */
  datatype Fault =
    | SegmentTipTiltError          // `LinearOpticalModelError::SegmentTipTilt`
    | FromRecordError(column: string) // `RigidBodyMotionsError::FromRecord`: missing column
    | TableError(column: string)     // `LinearOpticalModelError::Table`: missing column
    | Panic(reason: PanicReason)

  datatype Option<+T> = None | Some(value: T)

  datatype Result<+T> = Ok(value: T) | Err(fault: Fault) {
    predicate IsFailure() { Err? }
    function PropagateFailure<U>(): Result<U>
      requires Err?
    {
      Err(fault)
    }
    function Extract(): T
      requires Ok?
    {
      value
    }
  }

  /** Outcome of a state-changing operation that returns nothing but may panic. */
  datatype Outcome = Pass | Fail(fault: Fault)

  function UnwrapOr<T>(o: Option<T>, default: T): T
  {
    match o
    case Some(v) => v
    case None => default
  }
}
