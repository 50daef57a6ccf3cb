/** The rigid body motion time series held by the linear optical model: an `84 × n`
    matrix with one column per time sample (the 42 M1 motions, then the 42 M2 motions),
    an optional time vector and sampling frequency, and the display format. */
module Motions {
  import opened Errors
  import opened DenseMatrix

  /** Number of rigid body motions of one mirror: 7 segments × 6 motions. */
  const M1Rows: nat := 42

  datatype Formatting = AdHoc | Latex

  datatype RigidBodyMotions = RigidBodyMotions(
    samplingFrequency: Option<real>,
    time: Option<seq<real>>,
    data: Matrix,
    format: Formatting)

  /** The number of time samples: one per column of the motion matrix. */
  function Samples(r: RigidBodyMotions): nat
  {
    r.data.ncols
  }
}
