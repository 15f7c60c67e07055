/**
 * What the encoder computes, as functions of its configuration, its current
 * background reference and the recordings: `process`, `calibrate_background`,
 * `process_hdf5`, `process_eco` and `calibrate_time`. The class in
 * spatial_encoder.dfy is proved to behave as these functions say.
 *
 * The edge search (`find_edge`) and the least-squares fit (`np.polyfit`) are
 * parameters: they are outside this model.
 */
module Processing {
  import opened Wrappers
  import opened Errors
  import opened Indexing
  import opened Waveforms
  import opened PulseIds
  import opened EncoderConfig
  import opened Recordings

  /** `find_edge(data, step_length, edge_type, refinement)['edge_pos']`: edge positions of corrected waveforms. */
  type EdgeLocator = (Rows, int, EdgeType, int) -> seq<Sample>

  /** The coefficients `np.polyfit(x, y, 1)` returns, highest degree first. */
  datatype FitCoeff = FitCoeff(slope: real, intercept: real)

  /** `np.polyfit(scan_pos_fs, edge_pos_pix, 1)`; `None` when it raises. */
  type LinearFit = (seq<real>, seq<Sample>) -> Option<FitCoeff>

  // ---------------------------------------------------------------------------
  // process
  // ---------------------------------------------------------------------------

  /** The array given to `process`, by its number of dimensions. */
  datatype Input = Vector(v: seq<Sample>) | Matrix(rows: Rows, width: nat) | HigherDimensional

  predicate WellShaped(input: Input) {
    input.Matrix? ==> Rectangular(input.rows, input.width)
  }

  /** The rows `process` works on: a vector becomes the one-row matrix `data[np.newaxis, :]`. */
  function AsRows(input: Input): (Rows, nat)
    requires !input.HigherDimensional?
  {
    if input.Vector? then ([input.v], |input.v|) else (input.rows, input.width)
  }

  /** `process`'s result: edge positions and, in debug mode, the corrected waveforms (`raw_input`). */
  datatype ProcessOutput = ProcessOutput(edgePos: seq<Sample>, rawInput: Option<Rows>)

  /**
   * `process`: refuse without a background or with more than two dimensions,
   * remove the background elementwise (numpy broadcasting decides whether the
   * background fits the rows), then locate the edges of the corrected rows.
   */
  function ProcessResult(cfg: Config, background: Option<seq<Sample>>, input: Input, debug: bool,
                         locate: EdgeLocator): Result<ProcessOutput, Error>
    requires WellShaped(input)
  {
    if background.None? then Err(BackgroundNotCalibrated)
    else if input.HigherDimensional? then Err(BadDimensions)
    else
      var (rows, width) := AsRows(input);
      if !Broadcasts(width, background.value) then Err(ShapeMismatch)
      else
        var corrected := CorrectRows(rows, width, background.value, cfg.backgroundMethod);
        Ok(ProcessOutput(locate(corrected, cfg.stepLength, cfg.edgeType, cfg.refinement),
                         if debug then Some(corrected) else None))
  }

  /** A 1-D input is processed exactly like the one-row matrix that contains it. */
  lemma ProcessVectorAsOneRow(cfg: Config, background: Option<seq<Sample>>, v: seq<Sample>, debug: bool,
                              locate: EdgeLocator)
    ensures ProcessResult(cfg, background, Vector(v), debug, locate) ==
            ProcessResult(cfg, background, Matrix([v], |v|), debug, locate)
  {
  }

  /**
   * `process` fails exactly when there is no background, when the input has
   * more than two dimensions, or when the background does not broadcast, in
   * that order of precedence. Otherwise the edge search receives the input
   * with 'sub' giving `x - b` and 'div' giving `x / b - 1` at every pixel,
   * together with the configured step length, edge type and refinement.
   */
  lemma ProcessContract(cfg: Config, background: Option<seq<Sample>>, input: Input, debug: bool,
                        locate: EdgeLocator)
    requires WellShaped(input)
    ensures var r := ProcessResult(cfg, background, input, debug, locate);
            (background.None? ==> r == Err(BackgroundNotCalibrated)) &&
            (background.Some? && input.HigherDimensional? ==> r == Err(BadDimensions)) &&
            (r.Ok? <==> background.Some? && !input.HigherDimensional? &&
                        Broadcasts(AsRows(input).1, background.value)) &&
            (r.Ok? ==>
               var (rows, width) := AsRows(input);
               var bg := background.value;
               exists corrected: Rows ::
                 |corrected| == |rows| && Rectangular(corrected, width) &&
                 (forall i, c :: 0 <= i < |rows| && 0 <= c < width ==>
                    corrected[i][c] == (match cfg.backgroundMethod
                                        case Sub => Minus(rows[i][c], BackgroundAt(bg, c))
                                        case Div => Minus(Quotient(rows[i][c], BackgroundAt(bg, c)), Finite(1.0)))) &&
                 r.value.edgePos == locate(corrected, cfg.stepLength, cfg.edgeType, cfg.refinement) &&
                 r.value.rawInput == (if debug then Some(corrected) else None))
  {
    if ProcessResult(cfg, background, input, debug, locate).Ok? {
      var (rows, width) := AsRows(input);
      var corrected := CorrectRows(rows, width, background.value, cfg.backgroundMethod);
      assert |corrected| == |rows|;
    }
  }

  // ---------------------------------------------------------------------------
  // calibrate_background
  // ---------------------------------------------------------------------------

  /**
   * `calibrate_background`: the column-wise mean of the dark rows (of all rows
   * when no mask is given); a mask with no dark shot is refused before the
   * rows are indexed by it.
   */
  function CalibratedBackground(rows: Rows, width: nat, isDark: Option<seq<bool>>): (r: Result<seq<Sample>, Error>)
    requires Rectangular(rows, width)
    ensures r.Err? <==> isDark.Some? && (!AnyTrue(isDark.value) || |isDark.value| != |rows|)
    ensures isDark.Some? && !AnyTrue(isDark.value) ==> r == Err(NoDarkShots)
    ensures isDark.Some? && AnyTrue(isDark.value) && |isDark.value| != |rows| ==> r == Err(IndexOutOfRange)
    ensures r.Ok? ==> |r.value| == width
  {
    match isDark
    case None => Ok(ColumnMean(rows, width))
    case Some(mask) =>
      if !AnyTrue(mask) then Err(NoDarkShots)
      else if |mask| != |rows| then Err(IndexOutOfRange)
      else
        CompressRectangular(rows, mask, width);
        Ok(ColumnMean(Compress(rows, mask), width))
  }

  lemma CompressRectangular(rows: Rows, mask: seq<bool>, width: nat)
    requires |mask| == |rows| && Rectangular(rows, width)
    ensures Rectangular(Compress(rows, mask), width)
  {
    CompressMembership(rows, mask);
    var dark := Compress(rows, mask);
    forall i | 0 <= i < |dark| ensures |dark[i]| == width {
      assert dark[i] in dark;
    }
  }

  lemma {:induction false} CompressAgreeing(a: Rows, b: Rows, mask: seq<bool>)
    requires |a| == |mask| && |b| == |mask|
    requires forall i :: 0 <= i < |mask| && mask[i] ==> a[i] == b[i]
    ensures Compress(a, mask) == Compress(b, mask)
  {
    if mask != [] {
      CompressAgreeing(a[1..], b[1..], mask[1..]);
    }
  }

  /**
   * The background has one value per pixel and is built from the dark rows
   * only: two inputs that agree on their dark rows give the same background,
   * whatever their other rows; identical dark rows give that row back. With a
   * mask that selects nothing calibration fails.
   */
  lemma CalibratedBackgroundFromDarkRows(rows: Rows, other: Rows, width: nat, mask: seq<bool>)
    requires Rectangular(rows, width) && Rectangular(other, width)
    requires |rows| == |mask| && |other| == |mask|
    requires forall i :: 0 <= i < |mask| && mask[i] ==> rows[i] == other[i]
    ensures !AnyTrue(mask) ==> CalibratedBackground(rows, width, Some(mask)) == Err(NoDarkShots)
    ensures AnyTrue(mask) ==>
              CalibratedBackground(rows, width, Some(mask)).Ok? &&
              |CalibratedBackground(rows, width, Some(mask)).value| == width &&
              CalibratedBackground(rows, width, Some(mask)) == CalibratedBackground(other, width, Some(mask))
    ensures forall v :: |v| == width && AnyTrue(mask) && (forall i :: 0 <= i < |mask| && mask[i] ==> rows[i] == v) ==>
              CalibratedBackground(rows, width, Some(mask)) == Ok(v)
  {
    CompressAgreeing(rows, other, mask);
    forall v | |v| == width && AnyTrue(mask) && (forall i :: 0 <= i < |mask| && mask[i] ==> rows[i] == v)
      ensures CalibratedBackground(rows, width, Some(mask)) == Ok(v)
    {
      var dark := Compress(rows, mask);
      AnyTrueIffCount(mask);
      CompressMembership(rows, mask);
      forall i | 0 <= i < |dark| ensures dark[i] == v {
        assert dark[i] in dark;
      }
      ColumnMeanOfRepeatedRow(dark, v);
    }
  }

  // ---------------------------------------------------------------------------
  // process_hdf5
  // ---------------------------------------------------------------------------

  /** `process_hdf5`'s result: edge positions with dark shots undetermined, pulse ids, dark flags, debug rows. */
  datatype FileOutput = FileOutput(edgePos: seq<Sample>, pulseId: seq<nat>, isDark: Option<seq<bool>>,
                                   rawInput: Option<Rows>)

  /** `output['edge_pos'][is_dark] = np.nan` when there are dark flags; a mask of the wrong length raises. */
  function DarkShotsBlanked(edgePos: seq<Sample>, isDark: Option<seq<bool>>): (r: Result<seq<Sample>, Error>)
    ensures r.Err? <==> isDark.Some? && |isDark.value| != |edgePos|
    ensures r.Ok? ==> |r.value| == |edgePos| &&
                      forall i :: 0 <= i < |edgePos| ==>
                        r.value[i] == if isDark.Some? && isDark.value[i] then NaN else edgePos[i]
  {
    match isDark
    case None => Ok(edgePos)
    case Some(mask) => if |mask| != |edgePos| then Err(IndexOutOfRange) else Ok(Fill(edgePos, mask, NaN))
  }

  /** The part of `process_hdf5` after the background is settled: process, then blank the dark shots. */
  function FileOutputOf(cfg: Config, background: Option<seq<Sample>>, fd: FileData, debug: bool,
                        locate: EdgeLocator): Result<FileOutput, Error>
    requires Rectangular(fd.data, fd.width)
  {
    var out :- ProcessResult(cfg, background, Matrix(fd.data, fd.width), debug, locate);
    var edges :- DarkShotsBlanked(out.edgePos, fd.isDark);
    Ok(FileOutput(edges, fd.pulseId, fd.isDark, out.rawInput))
  }

  /**
   * `process_hdf5` once the file is read: its result and the encoder's
   * background afterwards. With a dark-shot strategy the background is first
   * recalibrated from this file's dark shots; without one a stored background
   * is required.
   */
  function FileDataResult(cfg: Config, background: Option<seq<Sample>>, fd: FileData, debug: bool,
                          locate: EdgeLocator): (Result<FileOutput, Error>, Option<seq<Sample>>)
    requires Rectangular(fd.data, fd.width)
  {
    if HasDarkShotStrategy(cfg) then
      match CalibratedBackground(fd.data, fd.width, fd.isDark)
      case Err(e) => (Err(e), background)
      case Ok(bg) => (FileOutputOf(cfg, Some(bg), fd, debug, locate), Some(bg))
    else if background.None? then (Err(BackgroundNotCalibrated), background)
    else (FileOutputOf(cfg, background, fd, debug, locate), background)
  }

  /** `process_hdf5` on `path`: the file read, then FileDataResult. */
  function FileResult(cfg: Config, background: Option<seq<Sample>>, storage: Storage, path: string,
                      debug: bool, locate: EdgeLocator): (Result<FileOutput, Error>, Option<seq<Sample>>)
    requires storage.WellFormed()
  {
    match ReadBsreadFile(cfg, storage, path)
    case Err(e) => (Err(e), background)
    case Ok(fd) => FileDataResult(cfg, background, fd, debug, locate)
  }

  /**
   * Every shot flagged dark gets an undetermined edge; every other shot gets
   * exactly the edge found for its row with the background in force; pulse
   * ids and dark flags are those the file read returned.
   */
  lemma FileDataDarkShotsUndetermined(cfg: Config, background: Option<seq<Sample>>, fd: FileData, debug: bool,
                                      locate: EdgeLocator)
    requires Rectangular(fd.data, fd.width)
    requires FileDataResult(cfg, background, fd, debug, locate).0.Ok?
    ensures var out := FileDataResult(cfg, background, fd, debug, locate).0.value;
            var bg := FileDataResult(cfg, background, fd, debug, locate).1;
            var found := ProcessResult(cfg, bg, Matrix(fd.data, fd.width), debug, locate);
            found.Ok? &&
            out.pulseId == fd.pulseId && out.isDark == fd.isDark && |out.edgePos| == |found.value.edgePos| &&
            (forall i :: 0 <= i < |out.edgePos| ==>
               out.edgePos[i] == if out.isDark.Some? && out.isDark.value[i] then NaN else found.value.edgePos[i])
  {
  }

  /**
   * With a dark-shot strategy a file's result does not depend on the
   * background the encoder held before, and the new background is the one
   * calibrated from the file's dark shots. Without a strategy the background
   * is left as it was, and a missing one is an error unless the file cannot
   * be read at all.
   */
  lemma FileResultBackground(cfg: Config, background: Option<seq<Sample>>, other: Option<seq<Sample>>,
                             storage: Storage, path: string, debug: bool, locate: EdgeLocator)
    requires storage.WellFormed()
    ensures HasDarkShotStrategy(cfg) ==>
              FileResult(cfg, background, storage, path, debug, locate).0 ==
              FileResult(cfg, other, storage, path, debug, locate).0
    ensures HasDarkShotStrategy(cfg) && FileResult(cfg, background, storage, path, debug, locate).0.Ok? ==>
              var fd := ReadBsreadFile(cfg, storage, path).value;
              CalibratedBackground(fd.data, fd.width, fd.isDark).Ok? &&
              FileResult(cfg, background, storage, path, debug, locate).1 ==
                Some(CalibratedBackground(fd.data, fd.width, fd.isDark).value)
    ensures !HasDarkShotStrategy(cfg) ==> FileResult(cfg, background, storage, path, debug, locate).1 == background
    ensures !HasDarkShotStrategy(cfg) && background.None? ==>
              FileResult(cfg, background, storage, path, debug, locate).0 ==
              (if ReadBsreadFile(cfg, storage, path).Err? then Err(ReadBsreadFile(cfg, storage, path).error)
               else Err(BackgroundNotCalibrated))
  {
  }

  // ---------------------------------------------------------------------------
  // process_eco
  // ---------------------------------------------------------------------------

  /** One step of `process_eco`'s result: a file's output annotated with its scan position. */
  datatype StepOutput = StepOutput(file: FileOutput, scanPosFs: real)

  /** Results gathered in order, as a loop that raises on the first failure does: the first error wins. */
  function Collect<T>(rs: seq<Result<T, Error>>): (r: Result<seq<T>, Error>)
    ensures r.Ok? ==> |r.value| == |rs| && forall i :: 0 <= i < |rs| ==> rs[i] == Ok(r.value[i])
  {
    if rs == [] then Ok([])
    else if rs[0].Err? then Err(rs[0].error)
    else
      var rest :- Collect(rs[1..]);
      assert forall i :: 1 <= i < |rs| ==> rs[i] == rs[1..][i - 1];
      Ok([rs[0].value] + rest)
  }

  /** Collect fails exactly when some result is an error, and then with the first of them. */
  lemma {:induction false} CollectFirstError<T>(rs: seq<Result<T, Error>>)
    ensures Collect(rs).Err? <==> exists i :: 0 <= i < |rs| && rs[i].Err?
    ensures Collect(rs).Err? ==>
              exists i :: 0 <= i < |rs| && rs[i] == Err(Collect(rs).error) && forall j :: 0 <= j < i ==> rs[j].Ok?
  {
    if rs != [] && rs[0].Ok? {
      CollectFirstError(rs[1..]);
      if Collect(rs).Err? {
        var i :| 0 <= i < |rs[1..]| && rs[1..][i] == Err(Collect(rs).error) &&
                 forall j :: 0 <= j < i ==> rs[1..][j].Ok?;
        assert rs[i + 1] == Err(Collect(rs).error);
        assert forall j :: 0 <= j < i + 1 ==> rs[j].Ok? by {
          forall j | 0 <= j < i + 1 ensures rs[j].Ok? {
            if j > 0 { assert rs[j] == rs[1..][j - 1]; }
          }
        }
      } else {
        forall i | 0 <= i < |rs| ensures rs[i].Ok? {
          if i > 0 { assert rs[i] == rs[1..][i - 1]; }
        }
      }
    }
  }

  /** `process_hdf5` mapped over the files in order, with the background the encoder had; the first error wins. */
  function FileResults(cfg: Config, background: Option<seq<Sample>>, storage: Storage, files: seq<string>,
                       debug: bool, locate: EdgeLocator): Result<seq<FileOutput>, Error>
    requires storage.WellFormed()
  {
    Collect(EachFileResult(cfg, background, storage, files, debug, locate))
  }

  /** Entry i is what file i alone yields. */
  function EachFileResult(cfg: Config, background: Option<seq<Sample>>, storage: Storage, files: seq<string>,
                          debug: bool, locate: EdgeLocator): (each: seq<Result<FileOutput, Error>>)
    requires storage.WellFormed()
    ensures |each| == |files|
  {
    seq(|files|, i requires 0 <= i < |files| => FileResult(cfg, background, storage, files[i], debug, locate).0)
  }

  /** The loop adding `scan_pos_fs` to every step's output; too few positions raise IndexError. */
  function Annotate(outs: seq<FileOutput>, scanPosFs: seq<real>): Result<seq<StepOutput>, Error> {
    if |scanPosFs| < |outs| then Err(IndexOutOfRange)
    else Ok(seq(|outs|, i requires 0 <= i < |outs| => StepOutput(outs[i], scanPosFs[i])))
  }

  /**
   * `process_eco`: every file of the scan processed as `process_hdf5` would
   * with the encoder's current background, in scan order, each annotated with
   * its step's position. The worker count only has to be positive.
   */
  function EcoResult(cfg: Config, background: Option<seq<Sample>>, storage: Storage, path: string, nproc: int,
                     debug: bool, locate: EdgeLocator): Result<seq<StepOutput>, Error>
    requires storage.WellFormed()
  {
    if !HasDarkShotStrategy(cfg) && background.None? then Err(BackgroundNotCalibrated)
    else
      var scan :- ReadEcoScan(storage, path);
      if nproc < 1 then Err(BadWorkerCount(nproc))
      else
        var outs :- FileResults(cfg, background, storage, scan.files, debug, locate);
        Annotate(outs, scan.scanPosFs)
  }

  /**
   * `process_eco` refuses without a strategy and a background; otherwise entry
   * i of its result is file i's own result carrying position i, for every i,
   * and there is one entry per scan step.
   */
  lemma EcoResultOrder(cfg: Config, background: Option<seq<Sample>>, storage: Storage, path: string,
                       nproc: int, debug: bool, locate: EdgeLocator)
    requires storage.WellFormed()
    ensures !HasDarkShotStrategy(cfg) && background.None? ==>
              EcoResult(cfg, background, storage, path, nproc, debug, locate) == Err(BackgroundNotCalibrated)
    ensures EcoResult(cfg, background, storage, path, nproc, debug, locate).Ok? ==>
              var steps := EcoResult(cfg, background, storage, path, nproc, debug, locate).value;
              var scan := ReadEcoScan(storage, path).value;
              |steps| == |scan.files| && |scan.files| == |storage.eco[path].scanFiles| &&
              |steps| <= |scan.scanPosFs| &&
              forall i :: 0 <= i < |steps| ==>
                steps[i].scanPosFs == scan.scanPosFs[i] &&
                scan.files[i] == storage.eco[path].scanFiles[i][0] &&
                FileResult(cfg, background, storage, scan.files[i], debug, locate).0 == Ok(steps[i].file)
  {
    var r := EcoResult(cfg, background, storage, path, nproc, debug, locate);
    if r.Ok? {
      ReadEcoScanOrder(storage, path);
      var scan := ReadEcoScan(storage, path).value;
      var each := EachFileResult(cfg, background, storage, scan.files, debug, locate);
      var outs := Collect(each).value;
      assert r == Annotate(outs, scan.scanPosFs);
      forall i | 0 <= i < |r.value|
        ensures FileResult(cfg, background, storage, scan.files[i], debug, locate).0 == Ok(r.value[i].file)
      {
        assert each[i] == Ok(outs[i]);
      }
    }
  }

  // ---------------------------------------------------------------------------
  // calibrate_time
  // ---------------------------------------------------------------------------

  /** `calibrate_time`'s result: positions, edge positions, and the fit coefficients. */
  datatype TimeCalibration = TimeCalibration(scanPosFs: seq<real>, edgePosPix: seq<Sample>, fit: FitCoeff)

  /** One 'avg_wf' step: the edge of the file's mean waveform, processed as a 1-D input. */
  function AveragedWaveformEdge(cfg: Config, background: Option<seq<Sample>>, storage: Storage, path: string,
                                locate: EdgeLocator): Result<Sample, Error>
    requires storage.WellFormed()
  {
    var fd :- ReadBsreadFile(cfg, storage, path);
    var out :- ProcessResult(cfg, background, Vector(ColumnMean(fd.data, fd.width)), false, locate);
    if |out.edgePos| != 1 then Err(ShapeMismatch) else Ok(out.edgePos[0])
  }

  /** 'avg_wf' over the files in order; the first error wins. */
  function AveragedWaveformEdges(cfg: Config, background: Option<seq<Sample>>, storage: Storage,
                                 files: seq<string>, locate: EdgeLocator): Result<seq<Sample>, Error>
    requires storage.WellFormed()
  {
    Collect(EachAveragedWaveformEdge(cfg, background, storage, files, locate))
  }

  /** 'avg_edge': each step's nanmean edge, paired with the step's position. */
  function AveragedEdges(steps: seq<StepOutput>): (seq<real>, seq<Sample>) {
    (seq(|steps|, i requires 0 <= i < |steps| => steps[i].scanPosFs),
     seq(|steps|, i requires 0 <= i < |steps| => NanMean(steps[i].file.edgePos)))
  }

  /** `np.polyfit(..., 1)` applied; its failure is the calibration's failure. */
  function Fitted(scanPosFs: seq<real>, edgePosPix: seq<Sample>, fit: LinearFit): Result<TimeCalibration, Error> {
    match fit(scanPosFs, edgePosPix)
    case None => Err(FitFailed)
    case Some(coeff) => Ok(TimeCalibration(scanPosFs, edgePosPix, coeff))
  }

  /**
   * `calibrate_time`, refusing a scan on which the original fits positions and
   * edges out of step: with 'avg_wf' every scan whose steps do not each record
   * one readback and one file list (see AveragedWaveformSlotsAsWritten); with
   * 'avg_edge' every scan with a step of other than one readback (see
   * AveragedEdgeCalibrationAsWritten), surplus readback steps being ignored as
   * `process_eco` ignores them.
   */
  function TimeCalibrationResult(cfg: Config, background: Option<seq<Sample>>, storage: Storage, path: string,
                                 strategy: string, nproc: int, locate: EdgeLocator, fit: LinearFit)
    : Result<TimeCalibration, Error>
    requires storage.WellFormed()
  {
    if cfg.eventsChannel.None? && cfg.darkShotFilter.None? && background.None? then Err(BackgroundNotCalibrated)
    else if strategy == "avg_wf" then
      var scan :- ReadEcoScan(storage, path);
      if !ScanPairsUp(storage, path) then Err(UnpairedScan)
      else
        var edges :- AveragedWaveformEdges(cfg, background, storage, scan.files, locate);
        Fitted(scan.scanPosFs, edges, fit)
    else if strategy == "avg_edge" then
      var steps :- EcoResult(cfg, background, storage, path, nproc, false, locate);
      if !SingleReadbacks(storage, path) then Err(UnpairedScan)
      else
        var (positions, edges) := AveragedEdges(steps);
        Fitted(positions, edges, fit)
    else Err(UnknownCalibrationMethod(strategy))
  }

  /**
   * Whichever method succeeds, every step has one readback, there is one
   * position and one edge per file list, and position i is step i's readback
   * in femtoseconds; 'avg_wf' also has as many readback steps as file lists.
   */
  lemma TimeCalibrationPositions(cfg: Config, background: Option<seq<Sample>>, storage: Storage, path: string,
                                 strategy: string, nproc: int, locate: EdgeLocator, fit: LinearFit)
    requires storage.WellFormed()
    requires TimeCalibrationResult(cfg, background, storage, path, strategy, nproc, locate, fit).Ok?
    ensures var c := TimeCalibrationResult(cfg, background, storage, path, strategy, nproc, locate, fit).value;
            var scan := storage.eco[path];
            SingleReadbacks(storage, path) &&
            |c.scanPosFs| == |c.edgePosPix| == |scan.scanFiles| && |scan.scanFiles| <= |scan.scanReadbacks| &&
            (strategy == "avg_wf" ==> ScanPairsUp(storage, path)) &&
            forall i :: 0 <= i < |c.scanPosFs| ==> c.scanPosFs[i] == scan.scanReadbacks[i][0] * FemtosecondsPerSecond
  {
    TimeCalibrationPairs(cfg, background, storage, path, strategy, nproc, locate, fit);
    ReadEcoScanOrder(storage, path);
    PairedScanPositions(storage, path);
    if strategy == "avg_edge" {
      EcoResultOrder(cfg, background, storage, path, nproc, false, locate);
    }
  }

  /**
   * `calibrate_time` refuses when there is neither a background nor a
   * configured strategy (`is None` tests) and for an unknown method. With
   * 'avg_wf' there is one edge per step, the edge of step i's mean waveform;
   * with 'avg_edge' position i and edge i both come from `process_eco`'s entry
   * i, the edge being the nanmean of that step's edges. The fit is given the
   * positions and edges it returns.
   */
  lemma TimeCalibrationPairs(cfg: Config, background: Option<seq<Sample>>, storage: Storage, path: string,
                             strategy: string, nproc: int, locate: EdgeLocator, fit: LinearFit)
    requires storage.WellFormed()
    ensures var r := TimeCalibrationResult(cfg, background, storage, path, strategy, nproc, locate, fit);
            (cfg.eventsChannel.None? && cfg.darkShotFilter.None? && background.None? ==>
               r == Err(BackgroundNotCalibrated)) &&
            (r.Ok? ==> strategy == "avg_wf" || strategy == "avg_edge") &&
            (r.Ok? ==> fit(r.value.scanPosFs, r.value.edgePosPix) == Some(r.value.fit)) &&
            (r.Ok? && strategy == "avg_wf" ==>
               var scan := ReadEcoScan(storage, path).value;
               r.value.scanPosFs == scan.scanPosFs &&
               |r.value.edgePosPix| == |scan.files| == |scan.scanPosFs| &&
               forall i :: 0 <= i < |scan.files| ==>
                 AveragedWaveformEdge(cfg, background, storage, scan.files[i], locate) == Ok(r.value.edgePosPix[i])) &&
            (r.Ok? && strategy == "avg_edge" ==>
               var steps := EcoResult(cfg, background, storage, path, nproc, false, locate).value;
               |r.value.scanPosFs| == |steps| && |r.value.edgePosPix| == |steps| &&
               forall i :: 0 <= i < |steps| ==>
                 r.value.scanPosFs[i] == steps[i].scanPosFs &&
                 r.value.edgePosPix[i] == NanMean(steps[i].file.edgePos))
  {
    var r := TimeCalibrationResult(cfg, background, storage, path, strategy, nproc, locate, fit);
    if r.Ok? && strategy == "avg_wf" {
      var scan := ReadEcoScan(storage, path).value;
      var edges := AveragedWaveformEdges(cfg, background, storage, scan.files, locate);
      assert ScanPairsUp(storage, path);
      PairedScanPositions(storage, path);
      assert edges.Ok? && r == Fitted(scan.scanPosFs, edges.value, fit);
    } else if r.Ok? && strategy == "avg_edge" {
      var steps := EcoResult(cfg, background, storage, path, nproc, false, locate).value;
      assert r == Fitted(AveragedEdges(steps).0, AveragedEdges(steps).1, fit);
    }
  }

  // ---------------------------------------------------------------------------
  // calibrate_time 'avg_wf' as written: one slot per position, one write per file
  // ---------------------------------------------------------------------------

  /** A slot of the `np.empty` array: written by the loop, or left with whatever memory held. */
  datatype Slot = Written(edge: Sample) | Unset

  /**
   * The 'avg_wf' loop writing `n` slots: iteration i takes file i's averaged
   * edge (`each[i]`, computed in order) and writes slot i, raising past the end.
   */
  function WriteSlots(each: seq<Result<Sample, Error>>, n: nat): (r: Result<seq<Slot>, Error>)
    ensures r.Ok? ==> |r.value| == n
    decreases |each|
  {
    if each == [] then Ok(seq(n, _ => Unset))
    else
      var slots :- WriteSlots(each[..|each| - 1], n);
      var edge :- each[|each| - 1];
      if |each| - 1 >= n then Err(IndexOutOfRange) else Ok(slots[|each| - 1 := Written(edge)])
  }

  /** The per-file averaged edges of a scan, in file order. */
  function EachAveragedWaveformEdge(cfg: Config, background: Option<seq<Sample>>, storage: Storage,
                                    files: seq<string>, locate: EdgeLocator): (each: seq<Result<Sample, Error>>)
    requires storage.WellFormed()
    ensures |each| == |files|
  {
    seq(|files|, i requires 0 <= i < |files| => AveragedWaveformEdge(cfg, background, storage, files[i], locate))
  }

  /** The edge array 'avg_wf' hands to the fit, as the source computes it. */
  function AveragedWaveformSlotsAsWritten(cfg: Config, background: Option<seq<Sample>>, storage: Storage,
                                          path: string, locate: EdgeLocator): Result<seq<Slot>, Error>
    requires storage.WellFormed()
  {
    if cfg.eventsChannel.None? && cfg.darkShotFilter.None? && background.None? then Err(BackgroundNotCalibrated)
    else
      var scan :- ReadEcoScan(storage, path);
      WriteSlots(EachAveragedWaveformEdge(cfg, background, storage, scan.files, locate), |scan.scanPosFs|)
  }

  /**
   * As long as there are no more files than slots, the loop fails exactly
   * when collecting the files' edges fails, with the same first error;
   * otherwise it writes slot i with file i's edge and leaves every slot past
   * the last file unset.
   */
  lemma {:induction false} WriteSlotsContents(each: seq<Result<Sample, Error>>, n: nat)
    requires |each| <= n
    ensures var r := WriteSlots(each, n);
            (r.Err? <==> Collect(each).Err?) &&
            (r.Err? ==> r.error == Collect(each).error) &&
            (r.Ok? ==> forall i :: 0 <= i < n ==>
                         r.value[i] == if i < |each| then Written(Collect(each).value[i]) else Unset)
  {
    if each != [] {
      var init := each[..|each| - 1];
      WriteSlotsContents(init, n);
      assert each == init + [each[|each| - 1]];
      CollectAppend(init, each[|each| - 1]);
    }
  }

  /**
   * The discrepancy: a one-step scan whose step records two readbacks (so
   * `np.ravel` yields two positions) and one file gets through the 'avg_wf'
   * loop with the second slot of its edge array never written.
   */
  lemma AveragedWaveformUnsetSlots(cfg: Config, background: seq<Sample>, storage: Storage, path: string,
                                   file: string, x: real, y: real, locate: EdgeLocator)
    requires storage.WellFormed() && path in storage.eco && storage.eco[path] == EcoScan([[x, y]], [[file]])
    requires AveragedWaveformEdge(cfg, Some(background), storage, file, locate).Ok?
    ensures AveragedWaveformSlotsAsWritten(cfg, Some(background), storage, path, locate) ==
            Ok([Written(AveragedWaveformEdge(cfg, Some(background), storage, file, locate).value), Unset])
  {
    var edge := AveragedWaveformEdge(cfg, Some(background), storage, file, locate).value;
    var flat := Flatten([[x, y]]);
    assert [[x, y]][1..] == [];
    assert flat == [x, y] + Flatten([]);
    var d := ReadEcoScan(storage, path);
    assert d.Ok? && |d.value.scanPosFs| == 2 && d.value.files == [file];
    var each := EachAveragedWaveformEdge(cfg, Some(background), storage, [file], locate);
    assert each == [Ok(edge)] && each[..0] == [];
    var unset := seq(2, _ => Unset);
    assert unset == [Unset, Unset];
    assert WriteSlots(each[..0], 2) == Ok(unset);
    assert unset[0 := Written(edge)] == [Written(edge), Unset];
    assert WriteSlots(each, 2) == Ok([Written(edge), Unset]);
  }

  /**
   * Whenever the scan has fewer files than positions and the loop succeeds,
   * the fit would be handed unset slots; the corrected calibration refuses
   * the same scan.
   */
  lemma AveragedWaveformMismatch(cfg: Config, background: Option<seq<Sample>>, storage: Storage, path: string,
                                 nproc: int, locate: EdgeLocator, fit: LinearFit)
    requires storage.WellFormed()
    requires ReadEcoScan(storage, path).Ok?
    requires |ReadEcoScan(storage, path).value.files| < |ReadEcoScan(storage, path).value.scanPosFs|
    ensures AveragedWaveformSlotsAsWritten(cfg, background, storage, path, locate).Ok? ==>
              Unset in AveragedWaveformSlotsAsWritten(cfg, background, storage, path, locate).value
    ensures TimeCalibrationResult(cfg, background, storage, path, "avg_wf", nproc, locate, fit).Err?
  {
    var scan := ReadEcoScan(storage, path).value;
    ReadEcoScanOrder(storage, path);
    WriteSlotsContents(EachAveragedWaveformEdge(cfg, background, storage, scan.files, locate), |scan.scanPosFs|);
    if AveragedWaveformSlotsAsWritten(cfg, background, storage, path, locate).Ok? {
      var slots := AveragedWaveformSlotsAsWritten(cfg, background, storage, path, locate).value;
      assert slots[|scan.scanPosFs| - 1] == Unset;
    }
  }

  /**
   * When the scan pairs up, the corrected calibration fails with the source's
   * error and otherwise fits exactly the edges the source writes.
   */
  lemma AveragedWaveformAgrees(cfg: Config, background: Option<seq<Sample>>, storage: Storage, path: string,
                               nproc: int, locate: EdgeLocator, fit: LinearFit)
    requires storage.WellFormed()
    requires ReadEcoScan(storage, path).Ok? && ScanPairsUp(storage, path)
    ensures var slots := AveragedWaveformSlotsAsWritten(cfg, background, storage, path, locate);
            var r := TimeCalibrationResult(cfg, background, storage, path, "avg_wf", nproc, locate, fit);
            (slots.Err? ==> r == Err(slots.error)) &&
            (r.Ok? ==> slots.Ok? && |slots.value| == |r.value.edgePosPix| &&
                       forall i :: 0 <= i < |slots.value| ==> slots.value[i] == Written(r.value.edgePosPix[i]))
  {
    var scan := ReadEcoScan(storage, path).value;
    PairedScanPositions(storage, path);
    WriteSlotsContents(EachAveragedWaveformEdge(cfg, background, storage, scan.files, locate), |scan.scanPosFs|);
  }

  // ---------------------------------------------------------------------------
  // calibrate_time 'avg_edge' as written: step i fitted against flattened readback i
  // ---------------------------------------------------------------------------

  /** 'avg_edge' as the source computes it: `process_eco`'s entries fitted as they come, whatever the scan's shape. */
  function AveragedEdgeCalibrationAsWritten(cfg: Config, background: Option<seq<Sample>>, storage: Storage,
                                            path: string, nproc: int, locate: EdgeLocator, fit: LinearFit)
    : Result<TimeCalibration, Error>
    requires storage.WellFormed()
  {
    if cfg.eventsChannel.None? && cfg.darkShotFilter.None? && background.None? then Err(BackgroundNotCalibrated)
    else
      var steps :- EcoResult(cfg, background, storage, path, nproc, false, locate);
      var (positions, edges) := AveragedEdges(steps);
      Fitted(positions, edges, fit)
  }

  /**
   * As written, 'avg_edge' fits one position per file list, position i being
   * the i-th flattened readback, whichever step that readback belongs to.
   */
  lemma AveragedEdgeAsWrittenPositions(cfg: Config, background: Option<seq<Sample>>, storage: Storage, path: string,
                                       nproc: int, locate: EdgeLocator, fit: LinearFit)
    requires storage.WellFormed()
    requires AveragedEdgeCalibrationAsWritten(cfg, background, storage, path, nproc, locate, fit).Ok?
    ensures var c := AveragedEdgeCalibrationAsWritten(cfg, background, storage, path, nproc, locate, fit).value;
            ReadEcoScan(storage, path).Ok? &&
            var d := ReadEcoScan(storage, path).value;
            |c.scanPosFs| == |d.files| <= |d.scanPosFs| &&
            forall i :: 0 <= i < |c.scanPosFs| ==> c.scanPosFs[i] == d.scanPosFs[i]
  {
    var steps := EcoResult(cfg, background, storage, path, nproc, false, locate).value;
    EcoResultOrder(cfg, background, storage, path, nproc, false, locate);
    assert AveragedEdgeCalibrationAsWritten(cfg, background, storage, path, nproc, locate, fit) ==
           Fitted(AveragedEdges(steps).0, AveragedEdges(steps).1, fit);
  }

  /**
   * The discrepancy: in a two-step scan whose steps record two readbacks each,
   * step 1's edges are fitted against step 0's second readback; the corrected
   * calibration refuses the scan.
   */
  lemma AveragedEdgeMisaligned(cfg: Config, background: Option<seq<Sample>>, storage: Storage, path: string,
                               nproc: int, locate: EdgeLocator, fit: LinearFit,
                               x0: real, y0: real, x1: real, y1: real, f0: string, f1: string)
    requires storage.WellFormed() && path in storage.eco
    requires storage.eco[path] == EcoScan([[x0, y0], [x1, y1]], [[f0], [f1]])
    ensures var r := AveragedEdgeCalibrationAsWritten(cfg, background, storage, path, nproc, locate, fit);
            r.Ok? ==> r.value.scanPosFs == [x0 * FemtosecondsPerSecond, y0 * FemtosecondsPerSecond]
    ensures TimeCalibrationResult(cfg, background, storage, path, "avg_edge", nproc, locate, fit).Err?
  {
    var r := AveragedEdgeCalibrationAsWritten(cfg, background, storage, path, nproc, locate, fit);
    ReadTwoReadbackScan(storage, path, x0, y0, x1, y1, f0, f1);
    if r.Ok? {
      AveragedEdgeAsWrittenPositions(cfg, background, storage, path, nproc, locate, fit);
      assert |r.value.scanPosFs| == 2;
    }
  }

  /** On a scan with one readback per step, the corrected 'avg_edge' calibration is the source's. */
  lemma AveragedEdgeAgrees(cfg: Config, background: Option<seq<Sample>>, storage: Storage, path: string,
                           nproc: int, locate: EdgeLocator, fit: LinearFit)
    requires storage.WellFormed() && SingleReadbacks(storage, path)
    ensures TimeCalibrationResult(cfg, background, storage, path, "avg_edge", nproc, locate, fit) ==
            AveragedEdgeCalibrationAsWritten(cfg, background, storage, path, nproc, locate, fit)
  {
  }

  /** Collecting one more result: the earlier error wins, else the new one, else it is appended. */
  lemma {:induction false} CollectAppend<T>(rs: seq<Result<T, Error>>, last: Result<T, Error>)
    ensures Collect(rs + [last]) ==
            if Collect(rs).Err? then Err(Collect(rs).error)
            else if last.Err? then Err(last.error)
            else Ok(Collect(rs).value + [last.value])
  {
    if rs == [] {
      assert rs + [last] == [last] && [last][1..] == [];
      if last.Ok? {
        assert [last.value] + [] == [] + [last.value];
      }
    } else {
      assert (rs + [last])[0] == rs[0];
      assert (rs + [last])[1..] == rs[1..] + [last];
      CollectAppend(rs[1..], last);
      if rs[0].Ok? && Collect(rs).Ok? && last.Ok? {
        assert [rs[0].value] + (Collect(rs[1..]).value + [last.value]) ==
               ([rs[0].value] + Collect(rs[1..]).value) + [last.value];
      }
    }
  }

  /** Once a prefix of the results fails, the whole collection fails with the same error. */
  lemma {:induction false} CollectPrefixError<T>(rs: seq<Result<T, Error>>, k: nat)
    requires k <= |rs| && Collect(rs[..k]).Err?
    ensures Collect(rs) == Collect(rs[..k])
    decreases |rs|
  {
    if k < |rs| {
      var init := rs[..|rs| - 1];
      assert init[..k] == rs[..k];
      CollectPrefixError(init, k);
      assert rs == init + [rs[|rs| - 1]];
      CollectAppend(init, rs[|rs| - 1]);
    } else {
      assert rs[..k] == rs;
    }
  }

  /** One step of a loop that gathers results in order and raises on the first failure. */
  lemma CollectStep<T>(rs: seq<Result<T, Error>>, i: nat, gathered: seq<T>)
    requires i < |rs| && Collect(rs[..i]) == Ok(gathered)
    ensures rs[i].Err? ==> Collect(rs) == Err(rs[i].error)
    ensures rs[i].Ok? ==> Collect(rs[..i + 1]) == Ok(gathered + [rs[i].value])
  {
    assert rs[..i + 1] == rs[..i] + [rs[i]];
    CollectAppend(rs[..i], rs[i]);
    if rs[i].Err? {
      CollectPrefixError(rs, i + 1);
    }
  }
}
