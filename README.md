# Spatial encoder of photodiag, modelled in Dafny

The `SpatialEncoder` of photodiag finds the arrival time of an X-ray pulse. It
locates a step edge in the camera waveforms of a spatial encoder. The encoder:

- is configured once;
- holds a background reference waveform;
- removes that background from every waveform ('div' or 'sub');
- hands the corrected waveforms to an edge search;
- processes whole bsread files (dark shots get an undetermined edge);
- processes eco scans, one file per scan step, with a worker pool;
- fits edge position against scan position to calibrate pixels per femtosecond.

The model follows the source file `photodiag/spatial_encoder.py` module by
module:

- `wrappers.dfy`: `Option`, `Result`, and the `Error` datatype. There is one
  constructor per exception the encoder raises, plus `UnpairedScan`, which only
  the corrected time calibration raises (see Findings).
- `indexing.dfy`: numpy selection by boolean mask and by position, masked
  assignment, and negative indices.
- `waveforms.dfy`: samples (`NaN` or a finite real), the column-wise mean,
  `np.nanmean`, and the two background removal methods with their inverse.
- `pulse_ids.dfy`: the pulse-id alignment of `_read_bsread_file`: dropping id 0,
  `np.intersect1d` with first-occurrence indices, and the dark flags.
- `config.dfy`: the options of `__init__`, the validating setters, and the two
  dark-shot strategies.
- `recordings.dfy`: bsread files and eco scans as values, and the readers
  `_read_bsread_file` and `_read_eco_scan` over them.
- `processing.dfy`: the behaviour of `process`, `calibrate_background`,
  `process_hdf5`, `process_eco` and `calibrate_time`, as functions of the
  configuration, the background and the recordings. The lemmas about them are
  here too.
- `spatial_encoder.dfy`: the `SpatialEncoder` class, with fields updated in
  place:
  - `process` corrects the caller's array in place;
  - `process_hdf5` blanks dark shots in place;
  - `calibrate_time` fills its arrays in loops.

  Each processing method (`process`, `process_hdf5`, `process_eco`,
  `calibrate_background`, `calibrate_time` and their loops) is proved equal to
  the function of `processing.dfy` that describes it. Construction, the
  setters and the worker copies are specified directly against the
  configuration.

Two operations outside the file are function-typed parameters:

- `EdgeLocator` stands for the edge search `find_edge` from
  `photodiag/utils.py`. utils.py is not part of this model.
- `LinearFit` stands for `np.polyfit(x, y, 1)`. It returns `None` where polyfit
  raises.

Other model choices:

- HDF5 and JSON files are a `Storage` value: maps from paths to file contents.
- The worker pool of `process_eco` is a list of fresh copies of the encoder,
  one per worker, each kept for all the files that worker handles. `pool.map`
  pickles the bound `process_hdf5` once per chunk of tasks, so each chunk gets
  its own copy. Persistent per-worker copies cover that case too, because
  `schedule` is any assignment of files to workers.
- `NaN` stands for every non-finite value. Division by zero and the mean over
  no rows produce it. The never-written slots of an `np.empty` array are not
  `NaN`: they are a separate `Unset` value (see Findings).

Three details of the source shape the model:

- **Conflicting dark-shot strategies.** Setting both `events_channel` and
  `dark_shot_filter` is refused only in `__init__`, and by truthiness, so an
  empty events channel counts as none.
- **Background guard in `calibrate_time`.** This guard tests `is None`. So an
  empty events channel passes the guard, while `process_hdf5` and
  `process_eco` treat it as absent.
- **Scan positions.** `_read_eco_scan` flattens the readbacks of all steps and
  takes the first file of each step. A step with other than one readback
  shifts every later position against its file (see Findings).

## Model

| member | source | states |
|---|---|---|
| EncoderConfig.MakeConfigAccepts | photodiag/spatial_encoder.py:44-57 | construction succeeds iff not both strategies are set (truthiness), the method is 'div'/'sub', step length >= 4, and the edge type is 'falling'/'rising'; both strategies give the conflict error first; a built configuration holds exactly the given options |
| EncoderConfig.MakeConfig | photodiag/spatial_encoder.py:44-57 | `__init__`'s checks in its order (both strategies by truthiness, background method, step length, edge type), giving the first error or the configuration; its meaning is stated by MakeConfigAccepts |
| EncoderConfig.StepLengthBoundary | photodiag/spatial_encoder.py:83-87 | step length 4 is accepted and 3 is refused with the step-length error |
| EncoderConfig.ParseBackgroundMethodExact | photodiag/spatial_encoder.py:63-67 | a method name is accepted iff it is listed in `background_methods`, and then it names the method stored |
| EncoderConfig.ParseEdgeTypeExact | photodiag/spatial_encoder.py:73-77 | an edge type is accepted iff it is listed in `edge_types`, and then it names the edge type stored |
| Encoder.SpatialEncoder.New | photodiag/spatial_encoder.py:17-57 | a new encoder exists iff the configuration checks pass (same error otherwise); it holds the given options, no background and no `pix_per_fs` |
| Encoder.SpatialEncoder.SetBackgroundMethod | photodiag/spatial_encoder.py:63-67 | succeeds iff the name is listed and stores it; otherwise raises and leaves the method unchanged |
| Encoder.SpatialEncoder.SetEdgeType | photodiag/spatial_encoder.py:73-77 | succeeds iff the name is listed and stores it; otherwise raises and leaves the edge type unchanged |
| Encoder.SpatialEncoder.SetStepLength | photodiag/spatial_encoder.py:83-87 | succeeds iff the length is at least 4 and stores it; otherwise raises and leaves it unchanged |
| Encoder.SpatialEncoder.CalibrateBackground | photodiag/spatial_encoder.py:89-102 | on success the background becomes the calibrated mean, replacing any earlier one; on failure it is unchanged |
| Processing.CalibratedBackground | photodiag/spatial_encoder.py:89-102 | `calibrate_background`: the column-wise mean of the dark rows (all rows without a mask), its contract states that it fails exactly for a mask selecting no row (`NoDarkShots`, checked first) or of the wrong length (IndexError), and gives one value per pixel otherwise; CalibratedBackgroundFromDarkRows states what the value is |
| Processing.CalibratedBackgroundFromDarkRows | photodiag/spatial_encoder.py:94-102 | a mask without dark shots is refused; otherwise the background has one value per pixel, depends only on the dark rows, and equals the row when all dark rows are equal |
| Waveforms.ColumnMeanUndefined | photodiag/spatial_encoder.py:102 | a background pixel is undetermined iff there are no rows or some row is undetermined there |
| Waveforms.ColumnMeanOfRepeatedRow | photodiag/spatial_encoder.py:102 | the column-wise mean of copies of one row is that row |
| Processing.ProcessResult | photodiag/spatial_encoder.py:147-181 | `process`: the background guard, the dimension check, broadcasting, correction of every row and the edge search with the configured options; stated by ProcessVectorAsOneRow and ProcessContract |
| Processing.ProcessVectorAsOneRow | photodiag/spatial_encoder.py:163-165 | a 1-D input gives the same result as the one-row matrix holding it |
| Processing.ProcessContract | photodiag/spatial_encoder.py:160-181 | `process` fails with no background first, then for more than two dimensions, then when broadcasting fails, and only then. Otherwise the edge search receives, with the configured step length, edge type and refinement, the rows with 'sub' giving `x - b` and 'div' giving `x / b - 1` at every pixel. In debug mode the corrected rows are returned. |
| Encoder.SpatialEncoder.Process | photodiag/spatial_encoder.py:147-181 | the result is ProcessResult of the array's contents on entry; on success the caller's vector or matrix holds the corrected values, and `raw_input` is that array; on failure the array is untouched |
| Encoder.CorrectVector | photodiag/spatial_encoder.py:169-174 | the in-place loop leaves every pixel corrected against the (broadcast) background |
| Encoder.CorrectMatrix | photodiag/spatial_encoder.py:169-174 | the in-place loops leave every pixel of every row corrected against the same background |
| Waveforms.RestoreCorrectRows | photodiag/spatial_encoder.py:169-174 | with a finite background (nonzero for 'div'), background removal can be undone exactly: it loses no information |
| Waveforms.CorrectBackgroundItself | photodiag/spatial_encoder.py:169-174 | the background corrected against itself is zero at every pixel, for both methods |
| Processing.FileResult | photodiag/spatial_encoder.py:183-210 | `process_hdf5`: read the file, then FileDataResult; returns the output and the background it leaves; stated by FileResultBackground |
| Processing.FileDataResult | photodiag/spatial_encoder.py:195-210 | `process_hdf5` after the read: recalibrate from the file's dark shots when a strategy is set, else require a background; then process and blank dark shots; stated by FileResultBackground and FileDataDarkShotsUndetermined |
| Processing.FileResultBackground | photodiag/spatial_encoder.py:195-199 | with a dark-shot strategy the result does not depend on the previous background, and the new background is the one calibrated from the file's dark shots. Without a strategy the background is kept, and a missing one raises unless the read already failed. |
| Processing.FileDataDarkShotsUndetermined | photodiag/spatial_encoder.py:201-207 | every dark shot gets an undetermined edge and every other shot exactly the edge found; pulse ids and dark flags are the file's |
| Processing.DarkShotsBlanked | photodiag/spatial_encoder.py:203-204 | masked assignment fails iff there are dark flags of the wrong length; otherwise exactly the dark entries become undetermined and the others are kept |
| Encoder.BlankDarkShots | photodiag/spatial_encoder.py:203-204 | the array written in place holds DarkShotsBlanked's result, error included |
| Encoder.SpatialEncoder.ProcessFileData | photodiag/spatial_encoder.py:195-210 | once the file is read, the result and the background left behind are FileDataResult's for the background on entry |
| Encoder.SpatialEncoder.ProcessHdf5 | photodiag/spatial_encoder.py:183-210 | its result and the background it leaves are FileResult's for the encoder's state on entry |
| Encoder.MarkDark | photodiag/spatial_encoder.py:203-204 | the in-place loop sets exactly the dark entries to undetermined and keeps the others |
| Processing.EcoResult | photodiag/spatial_encoder.py:212-237 | `process_eco`: the background guard by truthiness, the scan read, the worker-count check, the files' results in order (first error wins) and the positions attached; stated by EcoResultOrder |
| Processing.EcoResultOrder | photodiag/spatial_encoder.py:223-237 | `process_eco` raises with neither strategy nor background; otherwise there is one entry per scan step, and entry i is file i's own result carrying position i, with file i the first file listed for step i |
| Encoder.SpatialEncoder.ProcessEco | photodiag/spatial_encoder.py:212-237 | the result is EcoResult's for every worker count and every assignment of files to workers, and the encoder is not changed |
| Encoder.SpatialEncoder.Workers | photodiag/spatial_encoder.py:231 | the pool holds `nproc` fresh copies, each with the encoder's options and (without a strategy) its background |
| Encoder.SpatialEncoder.RunWorkers | photodiag/spatial_encoder.py:231-232 | mapping `process_hdf5` over the files on the workers gives the same results, in file order, as this encoder's own state determines |
| Encoder.SpatialEncoder.RunWorker | photodiag/spatial_encoder.py:231-232 | one worker handling one file gives this encoder's own result for that file, and every worker still carries the encoder's options and (without a strategy) its background |
| Processing.CollectFirstError | photodiag/spatial_encoder.py:231-232 | gathering per-file results fails iff some file fails, and then with the error of the first failing file, every earlier file having succeeded |
| Encoder.AnnotateSteps | photodiag/spatial_encoder.py:234-235 | the loop pairs output i with position i, and raises when positions run out |
| Recordings.ReadEcoScan | photodiag/spatial_encoder.py:304-323 | `_read_eco_scan`: the readbacks flattened and scaled by 1e15, the first file of each step, IndexError for a step without files; stated by ReadEcoScanOrder |
| Recordings.ReadEcoScanOrder | photodiag/spatial_encoder.py:312-323 | the read fails iff the scan is missing or a step lists no file; step i uses the first file listed for step i; with one readback per step, position i is readback i in femtoseconds |
| Recordings.PairedScanPositions | photodiag/spatial_encoder.py:312-323 | when each step has one readback, there is one position per step, position i is step i's readback in femtoseconds, and file i is step i's first file |
| Recordings.ReadTwoReadbackScan | photodiag/spatial_encoder.py:312-323 | a scan of two steps with two readbacks each reads as four positions and two files, and has steps of other than one readback |
| Recordings.ReadBsreadFile | photodiag/spatial_encoder.py:239-301 | `_read_bsread_file`: the channel's shots kept by pulse-id alignment, their waveforms, pulse ids and dark flags, with a missing file or group as MissingKey; stated by ReadBsreadFileShape and the alignment lemmas |
| Recordings.ReadBsreadFileShape | photodiag/spatial_encoder.py:257-296 | one waveform per kept pulse id, and dark flags (one per kept id) iff a dark-shot strategy is configured |
| PulseIds.Intersect1d | photodiag/spatial_encoder.py:263-265 | the common ids are ascending and duplicate-free, contain exactly the ids in both arrays, and are paired with their first positions in each |
| PulseIds.DropZero | photodiag/spatial_encoder.py:266-275 | the index arrays filtered by `pid != 0` only when some common id is 0; stated by DropZeroKeepsPairing |
| PulseIds.DropZeroKeepsPairing | photodiag/spatial_encoder.py:267-276 | dropping the common id 0 keeps the ids ascending, paired with their positions, and exactly the non-zero common ids |
| PulseIds.AlignWithEvents | photodiag/spatial_encoder.py:258-278 | the events branch: intersect the ids, drop a common 0, read column `dark_shot_event` of each kept events row as a flag; stated by AlignWithEventsKeepsCommonIds |
| PulseIds.AlignWithEventsKeepsCommonIds | photodiag/spatial_encoder.py:259-280 | with an events channel the kept ids are exactly the non-zero ids in both channels, ascending, each with one dark flag: the events value at `dark_shot_event` of its first events row, true iff non-zero or NaN |
| PulseIds.AlignWithoutEvents | photodiag/spatial_encoder.py:281-290 | the branches without events: keep the non-zero ids, with the filter's flags restricted to them when a filter is set; stated by AlignWithoutEventsKeepsNonZero |
| PulseIds.AlignWithoutEventsKeepsNonZero | photodiag/spatial_encoder.py:282-290 | without an events channel the kept ids are the non-zero ids in order; the filter's flags are restricted to them (one per kept id); it fails iff the filter returns the wrong length |
| PulseIds.CompressNonZero | photodiag/spatial_encoder.py:282-290 | keeping the entries where `pulse_id != 0` leaves exactly the non-zero ids |
| Indexing.Select | photodiag/spatial_encoder.py:290-293 | numpy indexing fails iff a mask has the wrong length or a position is out of range, and otherwise picks the selected entries in order |
| Indexing.PyIndex | photodiag/spatial_encoder.py:278 | an index is valid iff `-n <= i < n`, and a negative one counts from the end |
| Waveforms.NanMeanUndefined | photodiag/spatial_encoder.py:139 | `np.nanmean` is undetermined iff every entry is |
| Waveforms.NanMeanIgnoresUndetermined | photodiag/spatial_encoder.py:139 | inserting an undetermined entry anywhere does not change `np.nanmean` |
| Waveforms.NanMeanOfConstant | photodiag/spatial_encoder.py:139 | when all determined entries equal `x` and one exists, `np.nanmean` is `x` |
| Processing.TimeCalibrationResult | photodiag/spatial_encoder.py:104-145 | `calibrate_time` with its `is None` guard, the two methods, `UnknownCalibrationMethod` for any other method (where the source fails with UnboundLocalError at line 142) and the fit. It is corrected to refuse the scans the source fits out of step (see Findings): for 'avg_wf' any scan without one readback and one file list per step, and for 'avg_edge' any scan with a step of other than one readback; stated by TimeCalibrationPairs and TimeCalibrationPositions |
| Processing.TimeCalibrationPairs | photodiag/spatial_encoder.py:114-145 | `calibrate_time` refuses with no events channel, filter or background (`is None` tests), and for any other method (UnboundLocalError in the source, `UnknownCalibrationMethod` here). 'avg_wf' gives one edge per step, the edge of that step's mean waveform. With 'avg_edge', position i and edge i come from `process_eco` entry i, the edge being the nanmean of that step's edges. The fit receives exactly the returned positions and edges. |
| Processing.TimeCalibrationPositions | photodiag/spatial_encoder.py:104-145 | a successful calibration, by either method, has a scan with one readback per step and one position and one edge per file list, and fits position i, step i's readback in femtoseconds, against edge i; with 'avg_wf' there are as many readback steps as file lists |
| Encoder.SpatialEncoder.CalibrateTime | photodiag/spatial_encoder.py:104-145 | the result is TimeCalibrationResult's; on success `pix_per_fs` becomes the fit's first coefficient, otherwise it keeps its value |
| Encoder.SpatialEncoder.AveragedWaveformEdgeOf | photodiag/spatial_encoder.py:126-130 | one 'avg_wf' step: the file's mean waveform processed as a vector, which must give exactly one edge |
| Encoder.SpatialEncoder.AveragedWaveformEdgesOf | photodiag/spatial_encoder.py:124-130 | the loop writes file i's edge into slot i and stops at the first failing file |
| Encoder.SpatialEncoder.AveragedEdgesOf | photodiag/spatial_encoder.py:135-139 | the loops fill position i and edge i (nanmean) from step i |
| Processing.AveragedWaveformSlotsAsWritten | photodiag/spatial_encoder.py:121-130 | the 'avg_wf' edge array as the source fills it: one slot per flattened position, file i's edge written into slot i, IndexError past the end; stated by WriteSlotsContents and AveragedWaveformUnsetSlots |
| Processing.WriteSlotsContents | photodiag/spatial_encoder.py:124-130 | with no more files than slots, the source's loop fails iff some file fails (first error), writes slot i with file i's edge and leaves later slots unset |
| Processing.AveragedWaveformUnsetSlots | photodiag/spatial_encoder.py:121-130 | a one-step scan with two readbacks and one file leaves the second slot of the edge array unset |
| Processing.AveragedWaveformMismatch | photodiag/spatial_encoder.py:121-142 | with fewer files than positions the source hands unset slots to the fit; the corrected calibration refuses that scan |
| Processing.AveragedWaveformAgrees | photodiag/spatial_encoder.py:121-142 | when the scan pairs up (one readback and one file list per step, as many of each), the corrected calibration fails with the source's error, or fits exactly the edges the source writes |
| Processing.AveragedEdgeCalibrationAsWritten | photodiag/spatial_encoder.py:132-142 | 'avg_edge' as the source computes it: `process_eco`'s entries, their positions and nanmean edges, fitted whatever the scan's shape; stated by AveragedEdgeMisaligned and AveragedEdgeAgrees |
| Processing.AveragedEdgeAsWrittenPositions | photodiag/spatial_encoder.py:132-139 | as written, 'avg_edge' fits one position per file list, position i being the i-th flattened readback (lines 234-235), whichever step it belongs to |
| Processing.AveragedEdgeMisaligned | photodiag/spatial_encoder.py:132-139 | for a two-step scan with two readbacks per step, the source fits step 1's edges against step 0's second readback (positions `[x0, y0]` in femtoseconds), and the corrected calibration refuses the scan |
| Processing.AveragedEdgeAgrees | photodiag/spatial_encoder.py:132-142 | on every scan with one readback per step (surplus readback steps included), the corrected 'avg_edge' calibration equals the source's |

## Left out

- HDF5 and JSON access (`h5py.File`, `json.load`). Files are a `Storage` value; a missing file, group or key is a `MissingKey` error.
- The `sf_databuffer_writer` versus bsread path prefix (`/data/{}` or `/{}`). Groups are looked up by channel name only.
- The region of interest and the camera images. A channel's data rows are the images already averaged over the `roi` rows (`images.mean(axis=1)`). The `images` output of `process_hdf5` is not modelled.
- The `uint16` to float cast, and floating point in general. Waveforms are reals plus `NaN`; the `1e15` scale is an exact multiplication.
- `find_edge` and `np.polyfit`. They are parameters; the cross-correlation and lags that `find_edge` returns in debug mode are not modelled.
- `multiprocessing.Pool` concurrency. Workers run the files sequentially in the order given by `schedule`; which exception the pool re-raises when several files fail is modelled as the first failing file.
- Pickling: a `dark_shot_filter` that cannot be pickled makes the pool fail. Not modelled.
- `warnings.warn` for zeroed pulse ids (a side channel only).
- h5py's demand for increasing indices in fancy selection (`[event_index, ...]`, `[index, ...]`). Any in-range positions are accepted.
- Input arrays with zero dimensions, and 1-D data passed to `calibrate_background`. The model only takes rows of waveforms.
- dtype errors (for example in-place division of an integer array). They are not modelled.
- Ragged `scan_readbacks` lists. `np.ravel` of a ragged list behaves differently; the model flattens them.
- Reassigning `events_channel`, `dark_shot_filter`, `channel`, `roi`, `refinement` or `dark_shot_event` after construction. These are plain attributes without checks and are not modelled as operations.
- Processing.TimeCalibrationResult: with 'avg_wf' it refuses (`UnpairedScan`) a scan whose steps do not each record one readback and list files, instead of fitting an uninitialised array or raising IndexError mid-loop; with 'avg_edge' it refuses a scan with a step of other than one readback, instead of fitting edges against positions of other steps. A scan with more single-readback steps than file lists is still fitted by 'avg_edge', as the source does. See Findings; the source's behaviour is Processing.AveragedWaveformSlotsAsWritten and Processing.AveragedEdgeCalibrationAsWritten.
- Infinite edge positions. `np.nanmean` propagates an infinity, while the model's `NaN` stands for infinities too and `NanMean` skips it. Edge positions reaching `nanmean` are taken to be finite or NaN.
- `calibrate_background` with `is_dark` given as an index array. `is_dark` is modelled only as a boolean mask (or absent), which is what `process_hdf5` passes.

## Findings

| source | as written | input that shows it | evidently intended | confidence | as-written member | corrected member |
|---|---|---|---|---|---|---|
| photodiag/spatial_encoder.py:121-130 | 'avg_wf': `edge_pos_pix = np.empty(len(scan_pos_fs))`, then one slot written per file of the scan | an eco scan with one step, two readbacks (`scan_readbacks = [[x, y]]`, as a scan of two adjustables records) and one file: `np.ravel` gives two positions, so slot 1 is never written and its uninitialised value is fitted; with more files than positions the loop raises IndexError instead | one edge per scan step, fitted against that step's position; a scan whose steps do not each have one readback and one file list is refused | not executed | Processing.AveragedWaveformSlotsAsWritten, Processing.AveragedWaveformUnsetSlots | Processing.TimeCalibrationResult, Processing.AveragedWaveformMismatch, Processing.TimeCalibrationPositions |
| photodiag/spatial_encoder.py:132-139 | 'avg_edge': entry i of `process_eco` carries `scan_pos_fs[i]` of the flattened readbacks (lines 234-235), and its edges are fitted against it | an eco scan with two steps of two readbacks each (`scan_readbacks = [[x0, y0], [x1, y1]]`) and one file per step: step 1's edges are fitted against `y0`, step 0's second readback | each step's edges fitted against that step's own position; a scan with a step of other than one readback is refused | not executed | Processing.AveragedEdgeCalibrationAsWritten, Processing.AveragedEdgeMisaligned | Processing.TimeCalibrationResult, Processing.TimeCalibrationPositions, Processing.AveragedEdgeAgrees |
