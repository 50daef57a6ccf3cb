# GMT linear optical model, in Dafny

This project models the core of `gmt-lom`, the linear optical model of the Giant Magellan
Telescope. It also proves properties of that model. The crate turns the rigid body motions
of the 7 primary (M1) and 7 secondary (M2) mirror segments into optical metrics. There are
84 motions per time sample: 7 segments × 6 degrees of freedom × 2 mirrors, M1 first. The
metrics are tip-tilt, segment tip-tilt, segment piston and the exit-pupil wavefront. The
crate applies fixed linear maps, the optical sensitivities.

The model covers:

- **Sensitivity store** (`OpticalSensitivities`):
  - the six-variant sensitivity enum;
  - the lookup keyed on the variant tag only;
  - the column-major `rows × 84` view of each payload;
  - the `M1` and `M2` column extractors;
  - the response `into_optics`, a matrix product flattened column-major;
  - `from_opticals`, which stacks sensitivities vertically.
- **Metric buffers** (`OpticalMetrics`): the widths 2, 14 and 7, `items`, and `time_wise`,
  a transpose of a trailing window. Also the trailing-window `mean`, `var` and `std`, with
  their "not enough samples" panic and `f64` division by zero.
- **The model object** (`Lom.LOM`): a class holding the sensitivities and the motion time
  series. It has the metric accessors, `len`, `is_empty`, `latex` and `adhoc`.
- **Wavefront post-processing** (`Wavefronts`), written as functions of a given wavefront
  vector and the masks:
  - the per-segment split, with its shared, consumed iterator;
  - the per-segment RMS;
  - the re-expansion onto the full pupil.
- **Motion tables** (`Arrow`, `RigidBodyMotionsParquet`):
  - the row filter that keeps the rows whose M1 and M2 lists are present and free of nulls;
  - times as row indices and the sampling frequency;
  - the `84 × n` packing;
  - the M1/M2 split written by `to_record`.
- **PMT series** (`Pmts`):
  - the `PMT3D` table reader;
  - `shuffle`, a row selection done in place;
  - the row-major PMT sensitivity;
  - the scaled products.
- **Actor interface** (`ActorsInterface`): the two `Read` impls, which overwrite column 0 of
  the motion matrix in place, and the `Write` impls.

Supporting modules:

- `Errors`: results and the panics.
- `Iter`: `flatten`, `chunks`, `step_by` and `skip`.
- `DenseMatrix`: the column-major nalgebra matrices. The shape-checked constructors
  `from_column_slice`, `from_row_slice`, `from_iterator` and `from_rows` become `Err` on a
  wrong element count or on zero rows.

## Modelling conventions

- **Numbers.** `f64` values are `real`. `x / 0` in the statistics is modelled explicitly as
  NaN or an infinity (`OpticalMetrics.Float`). `sqrt` and skyangle's `to_mas` are function
  parameters and are never interpreted.
- **Panics.** A panic (`unwrap` on `None`, an index out of range, a nalgebra shape assertion,
  `unimplemented!`, a missing mask) is an `Err(Panic(reason))` result, so no precondition
  excludes an input the code accepts. A `Result` error of the crate is its own `Fault`
  constructor, such as `FromRecordError(label)` or `TableError(label)`.
- **Matrices.** A matrix is its shape plus its column-major storage. `At(m, i, j)` is
  `data[j·nrows + i]`.
- **Sample count.** `RigidBodyMotions::len` is not part of this model. It is taken to be the
  number of columns, one per time sample.
- **The `Wavefront` arm of `into_optics`.** In the code this arm is commented out, so
  `into_optics` on a `Wavefront` entry reaches `unimplemented!()`. The class methods
  `masked_wavefront`, `segment_wavefront`, `segment_wfe_rms` and `wavefront` therefore
  always panic. The model proves exactly this. The post-processing they would do is modelled
  and proved separately, on a given wavefront vector.

## Model

| member | source | states |
|---|---|---|
| OpticalSensitivities.Eq | src/optical_sensitivities.rs:47-58 | two sensitivities compare equal exactly when they have the same variant and that variant is not `PupilMask`; payloads are ignored |
| OpticalSensitivities.FindWith | src/optical_sensitivities.rs:63-66 | returns the first position whose element matches the key; returns none exactly when no element matches |
| OpticalSensitivities.Index | src/optical_sensitivities.rs:60-67 | succeeds exactly when some stored element compares equal to the key; the result is in the store and has the key's variant; otherwise it panics |
| OpticalSensitivities.IndexFirst | src/optical_sensitivities.rs:63-66 | for every variant but `PupilMask`, the lookup returns the first stored element with that variant |
| OpticalSensitivities.PupilMaskNeverFound | src/optical_sensitivities.rs:47-67 | a `PupilMask` key panics even when the store holds a `PupilMask`; the intended lookup finds it |
| OpticalSensitivities.EqIntended | src/optical_sensitivities.rs:47-58 | corrected comparison: equal exactly when the variants are equal; it differs from the written one only on two `PupilMask`s |
| OpticalSensitivities.IndexIntended | src/optical_sensitivities.rs:60-67 | corrected lookup: succeeds exactly when some entry has the key's variant, `PupilMask` included |
| OpticalSensitivities.ToMatrix | src/optical_sensitivities.rs:34-45 | a float variant with `Rows × 84` values becomes a `Rows × 84` matrix over the same column-major storage; `Rows` is `len/84`, 2, 14 or 7; a wrong count or a mask panics |
| OpticalSensitivities.AsSlice | src/optical_sensitivities.rs:69-80 | the payload of the four float variants; the masks panic |
| OpticalSensitivities.M1Wavefront | src/optical_sensitivities.rs:84-96 | defined exactly for a `Wavefront` whose length is a positive multiple of 84; gives an `n × 42` matrix, `n = len/84`; other variants give the `SegmentTipTilt` error |
| OpticalSensitivities.M1WavefrontAt | src/optical_sensitivities.rs:84-96 | entry `(i, j)` of `m1_wavefront` is entry `(i, 42 + j)` of the sensitivity: the suffix after `split_at(42 n)` |
| OpticalSensitivities.M1WavefrontTakesSecondHalf | src/optical_sensitivities.rs:86-93 | on a `1 × 84` sensitivity whose values are their indices, `m1_wavefront` starts at 42 while the first M1 column is 0 |
| OpticalSensitivities.M1WavefrontIntended | src/optical_sensitivities.rs:84-96 | corrected extractor: an `n × 42` matrix of the first 42 columns for any `Wavefront` of at least 84 values; fewer still panics in `chunks(0)`; other variants give the `SegmentTipTilt` error |
| OpticalSensitivities.M1WavefrontIntendedAt | src/optical_sensitivities.rs:84-96 | entry `(i, j)` of the corrected extractor is entry `(i, j)` of the sensitivity |
| OpticalSensitivities.M2Rxy | src/optical_sensitivities.rs:99-115 | a `14 × 14` matrix on success; a payload shorter than `14·42` panics in `split_at`; other variants give the `SegmentTipTilt` error |
| OpticalSensitivities.M2PickedFull | src/optical_sensitivities.rs:102-110 | on a full payload, chunking by 42, skipping one and stepping by 2 keeps exactly chunks 1, 3, …, 13 of the M2 half |
| OpticalSensitivities.M2RxyAt | src/optical_sensitivities.rs:99-115 | column `j` of `m2_rxy` is column `42 + 6(j/2) + 3 + j%2` of the `14 × 84` sensitivity, the Rx/Ry motions of M2 segment `j/2` |
| OpticalSensitivities.Optics | src/optical_sensitivities.rs:116-177 | succeeds exactly for tip-tilt, segment tip-tilt and segment piston with `Rows × 84` values and 84 motion rows, and gives `Rows` values per sample; every other variant is unimplemented |
| OpticalSensitivities.OpticsAt | src/optical_sensitivities.rs:150-162 | `out[t·r + i] = Σ_k sens[k·r + i] · rbm(k, t)` |
| OpticalSensitivities.DifferentialPiston | src/optical_sensitivities.rs:163-172 | the loop's buffer is the 21 pairwise row differences `row j − row k`, `k < j`, in loop order |
| OpticalSensitivities.DifferencesAt | src/optical_sensitivities.rs:163-172 | the difference of rows `j` and `k` at sample `t` sits at block `k`'s base plus `j − k − 1` |
| OpticalSensitivities.IntoOptics | src/optical_sensitivities.rs:116-177 | the step-by-step `into_optics`, which builds and discards the differential buffer, returns the same result as `Optics` |
| OpticalSensitivities.Matrices | src/optical_sensitivities.rs:443 | every sensitivity is converted, failing exactly when one conversion fails |
| OpticalSensitivities.FromOpticals | src/optical_sensitivities.rs:442-461 | succeeds exactly when every input converts; the result has 84 columns |
| OpticalSensitivities.FromOpticalsShape | src/optical_sensitivities.rs:442-461 | the result is `(Σ rows) × 84`: as many rows as the input matrices together |
| OpticalSensitivities.FromOpticalsAt | src/optical_sensitivities.rs:442-461 | row `i` of input `l` is row `offset(l) + i` of the result: a vertical stack |
| OpticalMetrics.NItem | src/lib.rs:272-316 | 2 for tip-tilt, 14 for segment tip-tilt, 7 for segment piston |
| OpticalMetrics.Items | src/lib.rs:263-268 | the buffer cut into consecutive chunks of `n_item` values; only the last may be shorter; laid end to end they are the buffer |
| OpticalMetrics.TimeWise | src/lib.rs:277-290 | panics with "not enough samples" exactly when the window exceeds `len / n_item` |
| OpticalMetrics.TimeWiseAt | src/lib.rs:277-290 | `n_item·w` values with `out[i·w + j] = values[(n_total − w + j)·n_item + i]` |
| OpticalMetrics.TimeWiseBlock | src/lib.rs:277-290 | values `i·w .. i·w + w` of `time_wise` are the last `w` samples of channel `i` |
| OpticalMetrics.TimeWiseExample | src/lib.rs:277-290 | `[x1, y1, x2, y2]` gives `[x1, x2, y1, y2]`, the last sample gives `[x2, y2]`, and a window of 3 panics |
| OpticalMetrics.DefaultWindow | src/lib.rs:277-378 | without a window, `time_wise`, `mean` and `var` equal their values for a window of `n_total` |
| OpticalMetrics.Div | src/lib.rs:352 | a positive divisor gives the exact quotient; `0/0` is NaN and `x/0` an infinity |
| OpticalMetrics.Mean | src/lib.rs:338-355 | panics exactly when the window is too long; otherwise one value per channel |
| OpticalMetrics.MeanTimeWise | src/lib.rs:338-355 | channel `i` of `mean` is the average of block `i` of `time_wise` |
| OpticalMetrics.Var | src/lib.rs:359-378 | panics exactly when the window is too long; otherwise one value per channel |
| OpticalMetrics.VarNonNegative | src/lib.rs:359-387 | a finite variance is never negative, so `std` never takes the root of a negative number |
| OpticalMetrics.VarOnePass | src/lib.rs:359-378 | over a non-empty window the two-pass variance equals the mean of the squares minus the squared mean |
| OpticalMetrics.TrailingLength | src/lib.rs:345-351 | over complete samples, every channel window holds `w` values |
| OpticalMetrics.Std | src/lib.rs:382-387 | same length as `var`, element-wise square root: NaN below zero |
| Wavefronts.ZipSelect | src/lom.rs:196-200 | one `by_ref().zip(mask)` pass: the values paired with `sid`, in order, and where the shared cursor is left, one past the mask when the mask ends first |
| Wavefronts.SplitSegments | src/lom.rs:187-206 | seven segments, each selected from what the earlier ones left of the shared iterator |
| Wavefronts.SharedStarves | src/lom.rs:194-202 | when the mask is at least as long as the wavefront, segment 1 is right and segments 2 to 7 are empty |
| Wavefronts.SharedSegmentsExample | src/lom.rs:194-202 | wavefront `[1, 2]` with mask `[1, 2]`: segment 2 comes out empty instead of `[2]` |
| Wavefronts.SegmentsIntended | src/lom.rs:194-202 | corrected split: segment `sid` holds, in order, the values whose mask id is `sid` |
| Wavefronts.SegmentsPartition | src/lom.rs:194-202 | with an id in 1..7 for every point, the intended segments together hold exactly the wavefront values, each as often as the wavefront does (equal multisets), and as many values as the wavefront |
| Wavefronts.SegmentWavefrontOf | src/lom.rs:187-206 | a wavefront or lookup failure comes first; a non-`SegmentMask` entry panics; otherwise the shared split |
| Wavefronts.FoldCounts | src/lom.rs:216-225 | the fold's index plus one is `max(count, 1)`, and its sum is the sum of squares |
| Wavefronts.Scale | src/lom.rs:227-229 | `10^(−E)` is positive and inverts `10^E` |
| Wavefronts.MeanSquare | src/lom.rs:225-226 | non-negative, and 0 for a segment with no point |
| Wavefronts.WfeRms | src/lom.rs:214-232 | one value per segment |
| Wavefronts.WfeRmsAt | src/lom.rs:214-231 | segment `k + 1` gives the root of the mean square of its values, times `10^(−E)` unless `E = 0` |
| Wavefronts.WfeRmsOf | src/lom.rs:208-236 | a wavefront failure comes first, then a failed `SegmentMask` lookup; a non-`SegmentMask` entry panics; otherwise the RMS |
| Wavefronts.Expand | src/lom.rs:245-253 | on success one value per pupil point; too few values panics |
| Wavefronts.ExpandStep | src/lom.rs:246-251 | a dark point gives 0; a lit point takes the next value or panics when there is none |
| Wavefronts.Reexpand | src/lom.rs:238-253 | the one-pass loop pulling the next value at each lit point computes the expansion |
| Wavefronts.ExpandOk | src/lom.rs:245-253 | the expansion succeeds exactly when there is a value for every lit point |
| Wavefronts.ExpandRoundTrip | src/lom.rs:245-253 | dark points are 0, and the lit points read back in order give the wavefront's prefix |
| Wavefronts.FullPupilOf | src/lom.rs:238-257 | a wavefront or lookup failure comes first; a non-`PupilMask` entry panics; otherwise the expansion |
| Lom.ResponseOk | src/lom.rs:144-172 | a metric response exists exactly when the store holds the variant with a `Rows × 84` payload and the motions have 84 rows; it then has `Rows` values per sample |
| Lom.ResponseAt | src/lom.rs:144-172 | value `i` of sample `t` is row `i` of the stored sensitivity applied to motion column `t` |
| Lom.MapValues | src/lom.rs:147-155 | the conversion is applied to each value, keeping the length and any error |
| Lom.LOM.Latex | src/lom.rs:120-122 | only the format changes, to LaTeX |
| Lom.LOM.AdHoc | src/lom.rs:123-125 | only the format changes, to ad hoc |
| Lom.LOM.EmptyResponses | src/lom.rs:131-136 | a model is empty exactly when its metric responses are empty |
| Lom.LOM.TipTilt | src/lom.rs:144-146 | `2·len` values; without a tip-tilt entry it panics in the lookup, with one it can fail only on a shape mismatch |
| Lom.LOM.TipTiltMas | src/lom.rs:147-155 | the tip-tilt with each value converted, same length |
| Lom.LOM.SegmentPiston | src/lom.rs:159-163 | `7·len` values; the lookup and shape errors as for the tip-tilt |
| Lom.LOM.SegmentTipTilt | src/lom.rs:167-172 | `14·len` values; the lookup and shape errors as for the tip-tilt |
| Lom.LOM.SegmentTipTiltMas | src/lom.rs:173-181 | the segment tip-tilt with each value converted, same length |
| Lom.LOM.MaskedWavefront | src/lom.rs:183-185 | always panics: unimplemented with a `Wavefront` entry, no match without one |
| Lom.LOM.SegmentWavefront | src/lom.rs:187-206 | panics like `masked_wavefront`, before the mask lookup |
| Lom.LOM.SegmentWfeRms | src/lom.rs:208-236 | panics like `masked_wavefront`, which it calls first |
| Lom.LOM.Wavefront | src/lom.rs:238-257 | panics like `masked_wavefront`, before the pupil mask lookup |
| ActorsInterface.OverwriteAt | src/actors_interface.rs:33-52 | after the zip, column 0 from the start row holds the values in order; every other entry is unchanged |
| ActorsInterface.ZipColumn | src/actors_interface.rs:33-39 | the `iter_mut().zip(..).for_each` loop writes exactly the overwrite |
| ActorsInterface.ReadM1 | src/actors_interface.rs:31-40 | column 0 takes the first 42 values; no column panics and changes nothing; nothing but the data changes |
| ActorsInterface.ReadM2 | src/actors_interface.rs:43-53 | column 0 from row 42 takes the values; no column panics and changes nothing; nothing but the data changes |
| ActorsInterface.ReadM1At | src/actors_interface.rs:31-40 | rows `0..min(42, len)` of column 0 hold the data; every other entry, the M2 block included, is unchanged |
| ActorsInterface.ReadM2At | src/actors_interface.rs:43-53 | rows from 42 of column 0 hold the data until the column or the data ends; every other entry, the M1 block included, is unchanged |
| ActorsInterface.ReadsCommute | src/actors_interface.rs:31-53 | the M1 and M2 reads touch disjoint rows, so either order gives the same matrix |
| ActorsInterface.WriteTipTilt | src/actors_interface.rs:59-63 | emits the tip-tilt, 2 values per sample |
| ActorsInterface.WriteSegmentTipTilt | src/actors_interface.rs:67-71 | emits the segment tip-tilt, 14 values per sample |
| ActorsInterface.WriteTipTiltFeedback | src/actors_interface.rs:73-77 | the fast steering mirror feedback emits the segment tip-tilt |
| ActorsInterface.WriteSegmentPiston | src/actors_interface.rs:81-85 | as written, the segment piston output is the segment tip-tilt |
| ActorsInterface.SegmentPistonWriteMismatch | src/actors_interface.rs:81-85 | with samples, that output has twice the 7 values per sample of a segment piston |
| ActorsInterface.WriteSegmentPistonIntended | src/actors_interface.rs:81-85 | corrected output: the segment piston, 7 values per sample |
| Arrow.IndexOf | src/rigid_body_motions/parquet.rs:44-54 | the first column with the label; none exactly when no column has it |
| Arrow.AllSome | src/rigid_body_motions/parquet.rs:66-77 | collecting into `Option<Vec<f64>>` succeeds exactly when no item is null, keeping every value in order |
| Arrow.Complete | src/rigid_body_motions/parquet.rs:64-78 | a cell has values exactly when it is present and free of nulls |
| Arrow.Filter | src/rigid_body_motions/parquet.rs:60-92 | the kept rows are present rows, with their own index, in strictly increasing order |
| Arrow.FilterIff | src/rigid_body_motions/parquet.rs:64-91 | a row is kept exactly when its values are present |
| Arrow.FilterAll | src/rigid_body_motions/parquet.rs:60-92 | when every row is present, every row is kept, at its own index |
| Arrow.SamplingFrequency | src/rigid_body_motions/parquet.rs:95 | fewer than two kept rows panics; otherwise a positive frequency whose product with `time[1] − time[0]` is 1 |
| Arrow.Pack | src/rigid_body_motions/parquet.rs:93-97 | succeeds exactly with at least two rows and `rows × n` values; the times are the row indices and the matrix is `rows × n` |
| Arrow.PackAt | src/rigid_body_motions/parquet.rs:97 | kept row `t` becomes column `t` of the matrix |
| RigidBodyMotionsParquet.Paired | src/rigid_body_motions/parquet.rs:60-85 | a zipped row has values exactly when both its lists do; they are M1's followed by M2's |
| RigidBodyMotionsParquet.FromRecord | src/rigid_body_motions/parquet.rs:37-100 | a missing M1 or M2 label, defaults "OSSM1Lcl"/"MCM2Lcl6D", is a `FromRecord` error; with both found, the result is exactly the kept rows packed 84 to a column, with their frequency and times and the ad hoc format, or the packing's panic; on success an `84 × n` matrix with `n ≥ 2` times |
| RigidBodyMotionsParquet.FromRecordOutcome | src/rigid_body_motions/parquet.rs:60-97 | with both labels found: fewer than two kept rows panics on `time[1]`, kept rows not totalling 84 values each panic in `from_iterator`, and otherwise the call succeeds |
| RigidBodyMotionsParquet.FromRecordTiming | src/rigid_body_motions/parquet.rs:60-96 | on success the times are the indices of the kept rows and the sampling frequency is `1 / (t1 − t0)` |
| RigidBodyMotionsParquet.FromRecordTimes | src/rigid_body_motions/parquet.rs:60-92 | times strictly increase and lie within the table; a row is kept exactly when both its lists are present and free of nulls |
| RigidBodyMotionsParquet.FromRecordColumns | src/rigid_body_motions/parquet.rs:81-97 | column `t` of the motions is kept row `t`: the M1 values then the M2 values |
| RigidBodyMotionsParquet.ToRecord | src/rigid_body_motions/parquet.rs:102-139 | fewer than 84 rows panics; otherwise two columns labelled by default "M1RigidBodyMotions"/"M2RigidBodyMotions", one cell per sample |
| RigidBodyMotionsParquet.ToRecordAt | src/rigid_body_motions/parquet.rs:107-118 | sample `t` is written as rows 0–41 of column `t` in the M1 list and rows 42–83 in the M2 list, with no null |
| RigidBodyMotionsParquet.ToRecordKept | src/rigid_body_motions/parquet.rs:107-118 | reading a written record keeps every row, at its own index, with its full column |
| RigidBodyMotionsParquet.RoundTrip | src/rigid_body_motions/parquet.rs:37-139 | writing and reading back with two distinct labels gives the matrix back, times `0..n−1` and 1 Hz |
| RigidBodyMotionsParquet.DefaultLabelsDiffer | src/rigid_body_motions/parquet.rs:44-126 | a record written with the default labels cannot be read with the default labels |
| Pmts.NewPmtSensitivity | src/pmts.rs:107-115 | as many rows as records and as many columns as the first record has values; data is the records end to end; no record panics |
| Pmts.SensitivityAt | src/pmts.rs:80-84 | records of equal length give a row-major matrix whose row `r` is record `r` |
| Pmts.RaggedRecordsAccepted | src/pmts.rs:107-115 | records of unequal length with the right total are accepted, and their rows straddle the records |
| Pmts.Present | src/pmts.rs:29-44 | each PMT cell's values, exactly when the cell is present and free of nulls |
| Pmts.Table | src/pmts.rs:15-52 | a missing "PMT3D" column is a `Table` error; otherwise the filtered rows packed `300 × n`, times as row indices |
| Pmts.TableRows | src/pmts.rs:26-45 | a row is kept exactly when its list is present and free of nulls; kept times increase |
| Pmts.TableNeedsTwoRows | src/pmts.rs:46-48 | a second row with a null leaves one kept row, and the sampling frequency panics |
| Pmts.Pmt.FromTable | src/pmts.rs:15-52 | a fresh PMT series holding the table's frequency, times and data, or the table's error |
| Pmts.Shuffled | src/pmts.rs:53-56 | an out-of-range row panics first; an empty selection panics; otherwise `len(idx)` rows and the same columns |
| Pmts.ShuffledAt | src/pmts.rs:53-56 | new row `k` is old row `idx[k]` |
| Pmts.ShuffleIdentity | src/pmts.rs:53-56 | selecting every row in order gives the matrix back |
| Pmts.ShuffleCompose | src/pmts.rs:53-56 | two selections are one selection by their composition |
| Pmts.Pmt.Shuffle | src/pmts.rs:53-56 | the data becomes the selection; a panic leaves it; frequency and times are unchanged |
| Pmts.Product | src/pmts.rs:57-72 | `pmt_sens * data` exists exactly when the records are non-empty, reshape without loss and are as long as the PMT data has rows; one row per record, one column per sample |
| Pmts.ScaledProduct | src/pmts.rs:57-72 | succeeds exactly for non-empty records that reshape and whose column count matches the PMT rows; each value is the product's value times the factor |
| Pmts.ProductAt | src/pmts.rs:57-72 | value `i` of sample `t` of the product is sensitivity row `i` applied to PMT sample `t` |
| Pmts.Pmt.SegmentTipTilt | src/pmts.rs:57-64 | the product with the data, each value times `1e3`, one column per sample |
| Pmts.Pmt.SegmentPiston | src/pmts.rs:65-72 | the product with the data, each value times `1e9`, one column per sample |

## Left out

- `OpticalSensitivities::compute`: a perturb-and-measure loop through an external GPU ray
  tracer.
- The commented-out `transform` and wavefront variance code: dead code.
- File I/O and serialisation:
  - `Bin::dump`/`load`, the loaders and the `LOM` environment variable, `ToPkl`.
  - `TryFrom<&[u8]>`.
  - The Parquet, Arrow and object-store plumbing: `table.rs`, `table/store.rs`,
    `from_parquet`, `to_parquet`, `to_table`, and the older reader in
    `rigid_body_motions.rs`.
  - The CSV reader inside `PmtSensitivity::new`. The records it would read are a parameter,
    and a CSV error is not modelled.
- `LOMBuilder` and its loaders: they only read files. The class constructor takes the
  sensitivities and the motions directly.
- Floating point: values are reals, so rounding, overflow and NaN propagation through
  products are not modelled. Only the `x / 0` of the statistics is modelled.
- `sqrt`, `to_mas` and `from_arcsec` are uninterpreted function parameters.
- `time()`, the `FromIterator` and `AsMut` impls of `RigidBodyMotions`, and `len()` are not
  part of this model. `len` is taken to be the number of motion columns.
- The actor framework itself (`Update`, `Data`, `Arc`): only the buffer updates and the
  emitted values are modelled.
- The command-line tools, Python bindings and benchmarks.
- Lom.LOM.TipTilt: when the entry exists but the shapes do not fit, the contract says only
  that the failure is a shape or dimension mismatch, not which of the two.
- Lom.LOM.SegmentPiston: the same as for `TipTilt`.
- Lom.LOM.SegmentTipTilt: the same as for `TipTilt`.
- Wavefronts.WfeRms: its own contract gives only the length. The value of each segment is
  stated by `WfeRmsAt`.
- OpticalSensitivities.M2Rxy: the column map is proved for a full `14 × 84` payload only.
  For a partial payload the contract gives the shape and the short-slice panic.
- Arrow.Pack: `from_iterator` is taken to need exactly `rows × n` values and to panic
  otherwise, as for the other shape-checked constructors.

## Findings

| source | as written | input that shows it | evidently intended | confidence | as-written member | corrected member |
|---|---|---|---|---|---|---|
| src/optical_sensitivities.rs:47-58 | `PartialEq` has no `PupilMask` arm, so a `PupilMask` equals nothing and `sens[PupilMask(..)]` always panics | a store holding `PupilMask([])`, looked up with `PupilMask(p)` | variants compare equal by tag, `PupilMask` included, so `wavefront` can find its mask | not executed; high | OpticalSensitivities.PupilMaskNeverFound | OpticalSensitivities.IndexIntended |
| src/lom.rs:194-202 | `segment_wavefront` shares one `by_ref` wavefront iterator across the seven zips, so segment 1 consumes it | wavefront `[1.0, 2.0]`, mask `[1, 2]`: segment 2 is `[]` | each segment selected from the whole wavefront, as `segment_wfe_rms` does | not executed; high | Wavefronts.SharedStarves | Wavefronts.SegmentsIntended |
| src/actors_interface.rs:81-85 | `Write<SegmentPiston>` emits `segment_tiptilt()` | any model with one sample and both entries: 14 values emitted instead of 7 | emit `segment_piston()` | not executed; high | ActorsInterface.SegmentPistonWriteMismatch | ActorsInterface.WriteSegmentPistonIntended |
| src/optical_sensitivities.rs:86-93 | `m1_wavefront` keeps the part after `split_at(42 n)`, the M2 columns 42–83 | a `1 × 84` sensitivity with values `0..83`: column 0 is 42, not 0 | the first 42 columns, the M1 motions | not executed; medium | OpticalSensitivities.M1WavefrontTakesSecondHalf | OpticalSensitivities.M1WavefrontIntended |
