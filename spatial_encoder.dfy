/**
 * The `SpatialEncoder` object: its options, its background reference and its
 * pixel-per-femtosecond calibration, updated in place by its methods. Each
 * method is proved to do what the matching function of module Processing
 * says.
 */
module Encoder {
  import opened Wrappers
  import opened Errors
  import opened Indexing
  import opened Waveforms
  import opened PulseIds
  import opened EncoderConfig
  import opened Recordings
  import opened Processing

  /** The contents of a 2-D array, row by row. */
  function Grid(m: array2<Sample>): (rows: Rows)
    reads m
    ensures |rows| == m.Length0 && Rectangular(rows, m.Length1)
  {
    seq(m.Length0, i requires 0 <= i < m.Length0 reads m =>
      seq(m.Length1, j requires 0 <= j < m.Length1 reads m => m[i, j]))
  }

  /** A numpy array handed to `process`: one or two dimensions, or more (whose contents do not matter). */
  datatype NdArray = OneDim(a: array<Sample>) | TwoDim(m: array2<Sample>) | MoreDims {

    function Footprint(): set<object> {
      match this
      case OneDim(a) => {a}
      case TwoDim(m) => {m}
      case MoreDims => {}
    }

    /** What the array currently holds, as `process` sees it. */
    function Snapshot(): (input: Input)
      reads Footprint()
      ensures WellShaped(input)
    {
      match this
      case OneDim(a) => Vector(a[..])
      case TwoDim(m) => Matrix(Grid(m), m.Length1)
      case MoreDims => HigherDimensional
    }
  }

  /** A fresh 2-D array holding `rows` (the `astype(float)` copy of the file's dataset). */
  method NewMatrix(rows: Rows, width: nat) returns (m: array2<Sample>)
    requires Rectangular(rows, width)
    ensures fresh(m) && m.Length1 == width && Grid(m) == rows
  {
    m := new Sample[|rows|, width]((i, j) requires 0 <= i < |rows| && 0 <= j < width => rows[i][j]);
    forall i | 0 <= i < |rows| ensures Grid(m)[i] == rows[i] {
      assert |Grid(m)[i]| == |rows[i]|;
    }
  }

  /** `data -= background` or `data /= background; data -= 1` on a vector, in place. */
  method CorrectVector(a: array<Sample>, bg: seq<Sample>, mode: BackgroundMethod)
    requires Broadcasts(a.Length, bg)
    modifies a
    ensures a[..] == CorrectRow(old(a[..]), bg, mode)
  {
    ghost var before := a[..];
    var j := 0;
    while j < a.Length
      invariant 0 <= j <= a.Length
      invariant forall c :: 0 <= c < a.Length ==>
                  a[c] == if c < j then Corrected(before[c], BackgroundAt(bg, c), mode) else before[c]
    {
      a[j] := Corrected(a[j], BackgroundAt(bg, j), mode);
      j := j + 1;
    }
    assert a[..] == CorrectRow(before, bg, mode);
  }

  /** The same background removal on a matrix, row after row, every row against the same background. */
  method CorrectMatrix(m: array2<Sample>, bg: seq<Sample>, mode: BackgroundMethod)
    requires Broadcasts(m.Length1, bg)
    modifies m
    ensures Grid(m) == CorrectRows(old(Grid(m)), m.Length1, bg, mode)
  {
    ghost var before := Grid(m);
    var i := 0;
    while i < m.Length0
      invariant 0 <= i <= m.Length0
      invariant forall k, c :: 0 <= k < m.Length0 && 0 <= c < m.Length1 ==>
                  m[k, c] == if k < i then Corrected(before[k][c], BackgroundAt(bg, c), mode) else before[k][c]
    {
      var j := 0;
      while j < m.Length1
        invariant 0 <= j <= m.Length1
        invariant forall k, c :: 0 <= k < m.Length0 && 0 <= c < m.Length1 ==>
                    m[k, c] == if k < i || (k == i && c < j) then Corrected(before[k][c], BackgroundAt(bg, c), mode)
                               else before[k][c]
      {
        m[i, j] := Corrected(m[i, j], BackgroundAt(bg, j), mode);
        j := j + 1;
      }
      i := i + 1;
    }
    forall k | 0 <= k < m.Length0 ensures Grid(m)[k] == CorrectRows(before, m.Length1, bg, mode)[k] {
      assert |Grid(m)[k]| == m.Length1;
    }
  }

  /** `output['edge_pos'][is_dark] = np.nan`: dark shots get an undetermined edge, in place. */
  method MarkDark(edges: array<Sample>, isDark: seq<bool>)
    requires edges.Length == |isDark|
    modifies edges
    ensures edges[..] == Fill(old(edges[..]), isDark, NaN)
  {
    ghost var before := edges[..];
    var i := 0;
    while i < edges.Length
      invariant 0 <= i <= edges.Length
      invariant forall k :: 0 <= k < edges.Length ==>
                  edges[k] == if k < i && isDark[k] then NaN else before[k]
    {
      if isDark[i] {
        edges[i] := NaN;
      }
      i := i + 1;
    }
    assert edges[..] == Fill(before, isDark, NaN);
  }

  /** The edges of a file with its dark shots blanked in place, when it has dark flags of the right length. */
  method BlankDarkShots(edgePos: seq<Sample>, isDark: Option<seq<bool>>) returns (r: Result<seq<Sample>, Error>)
    ensures r == DarkShotsBlanked(edgePos, isDark)
  {
    var edges := new Sample[|edgePos|](i requires 0 <= i < |edgePos| => edgePos[i]);
    assert edges[..] == edgePos;
    if isDark.Some? {
      if |isDark.value| != edges.Length {
        return Err(IndexOutOfRange);
      }
      MarkDark(edges, isDark.value);
    }
    r := Ok(edges[..]);
  }

  /** The loop adding each step's position to its output; a position missing for a step raises IndexError. */
  method AnnotateSteps(outs: seq<FileOutput>, scanPosFs: seq<real>) returns (r: Result<seq<StepOutput>, Error>)
    ensures r == Annotate(outs, scanPosFs)
  {
    var steps: seq<StepOutput> := [];
    var j := 0;
    while j < |outs|
      invariant 0 <= j <= |outs| && j <= |scanPosFs|
      invariant |steps| == j && forall k :: 0 <= k < j ==> steps[k] == StepOutput(outs[k], scanPosFs[k])
    {
      if j >= |scanPosFs| {
        return Err(IndexOutOfRange);
      }
      steps := steps + [StepOutput(outs[j], scanPosFs[j])];
      j := j + 1;
    }
    assert steps == Annotate(outs, scanPosFs).value;
    r := Ok(steps);
  }

  class SpatialEncoder {
    var channel: string
    var roi: Roi
    var backgroundMethod: BackgroundMethod
    var stepLength: int
    var refinement: int
    var eventsChannel: Option<string>
    var darkShotEvent: int
    var darkShotFilter: Option<DarkShotFilter>
    var edgeType: EdgeType
    /** `_background`: the reference waveform subtracted or divided out, once calibrated. */
    var background: Option<seq<Sample>>
    /** `pix_per_fs`: the slope of the last successful time calibration. */
    var pixPerFs: Option<real>

    /** The encoder's options as a value. */
    function Settings(): Config
      reads this
    {
      Config(channel, roi, backgroundMethod, stepLength, refinement, eventsChannel, darkShotEvent,
             darkShotFilter, edgeType)
    }

    predicate Valid()
      reads this
    {
      ValidConfig(Settings())
    }

    constructor Init(cfg: Config)
      requires ValidConfig(cfg)
      ensures Valid() && Settings() == cfg && background.None? && pixPerFs.None?
    {
      channel, roi, backgroundMethod, stepLength, refinement := cfg.channel, cfg.roi, cfg.backgroundMethod,
        cfg.stepLength, cfg.refinement;
      eventsChannel, darkShotEvent, darkShotFilter, edgeType := cfg.eventsChannel, cfg.darkShotEvent,
        cfg.darkShotFilter, cfg.edgeType;
      background, pixPerFs := None, None;
    }

    /** `__init__`: a fresh encoder without background or time calibration, or the first check that fails. */
    static method New(channel: string, roi: Roi, backgroundMethod: string, stepLength: int,
                      eventsChannel: Option<string>, darkShotEvent: int, darkShotFilter: Option<DarkShotFilter>,
                      refinement: int, edgeType: string) returns (r: Result<SpatialEncoder, Error>)
      ensures var cfg := MakeConfig(channel, roi, backgroundMethod, stepLength, eventsChannel, darkShotEvent,
                                    darkShotFilter, refinement, edgeType);
              (r.Err? <==> cfg.Err?) && (r.Err? ==> r.error == cfg.error) &&
              (r.Ok? ==> fresh(r.value) && r.value.Valid() && r.value.Settings() == cfg.value &&
                         r.value.background.None? && r.value.pixPerFs.None?)
    {
      MakeConfigAccepts(channel, roi, backgroundMethod, stepLength, eventsChannel, darkShotEvent, darkShotFilter,
                        refinement, edgeType);
      var cfg := MakeConfig(channel, roi, backgroundMethod, stepLength, eventsChannel, darkShotEvent,
                            darkShotFilter, refinement, edgeType);
      if cfg.Err? {
        return Err(cfg.error);
      }
      var e := new SpatialEncoder.Init(cfg.value);
      return Ok(e);
    }

    /** The copy of the encoder a worker process receives: every attribute, including the background. */
    constructor Copy(other: SpatialEncoder)
      requires other.Valid()
      ensures Valid() && Settings() == other.Settings()
      ensures background == other.background && pixPerFs == other.pixPerFs
    {
      channel, roi, backgroundMethod, stepLength, refinement := other.channel, other.roi, other.backgroundMethod,
        other.stepLength, other.refinement;
      eventsChannel, darkShotEvent, darkShotFilter, edgeType := other.eventsChannel, other.darkShotEvent,
        other.darkShotFilter, other.edgeType;
      background, pixPerFs := other.background, other.pixPerFs;
    }

    /** The `background_method` setter: accepts exactly 'div' and 'sub', and leaves the method unchanged otherwise. */
    method SetBackgroundMethod(value: string) returns (r: Result<(), Error>)
      requires Valid()
      modifies this`backgroundMethod
      ensures Valid()
      ensures r.Ok? <==> value in BackgroundMethodNames
      ensures r.Ok? ==> BackgroundMethodName(backgroundMethod) == value
      ensures r.Err? ==> r == Err(UnknownBackgroundMethod(value)) && backgroundMethod == old(backgroundMethod)
    {
      ParseBackgroundMethodExact(value);
      match ParseBackgroundMethod(value)
      case None => r := Err(UnknownBackgroundMethod(value));
      case Some(m) => backgroundMethod := m; r := Ok(());
    }

    /** The `edge_type` setter: accepts exactly 'falling' and 'rising'. */
    method SetEdgeType(value: string) returns (r: Result<(), Error>)
      requires Valid()
      modifies this`edgeType
      ensures Valid()
      ensures r.Ok? <==> value in EdgeTypeNames
      ensures r.Ok? ==> EdgeTypeName(edgeType) == value
      ensures r.Err? ==> r == Err(UnknownEdgeType(value)) && edgeType == old(edgeType)
    {
      ParseEdgeTypeExact(value);
      match ParseEdgeType(value)
      case None => r := Err(UnknownEdgeType(value));
      case Some(e) => edgeType := e; r := Ok(());
    }

    /** The `step_length` setter: accepts every length of at least 4. */
    method SetStepLength(value: int) returns (r: Result<(), Error>)
      requires Valid()
      modifies this`stepLength
      ensures Valid()
      ensures r.Ok? <==> value >= MinStepLength
      ensures r.Ok? ==> stepLength == value
      ensures r.Err? ==> r == Err(StepLengthTooShort(value)) && stepLength == old(stepLength)
    {
      if value < MinStepLength {
        r := Err(StepLengthTooShort(value));
      } else {
        stepLength := value;
        r := Ok(());
      }
    }

    /**
     * `calibrate_background`: the background becomes the mean of the dark
     * rows (of all rows without a mask); on failure it is left as it was.
     */
    method CalibrateBackground(data: Rows, width: nat, isDark: Option<seq<bool>>) returns (r: Result<(), Error>)
      requires Rectangular(data, width)
      requires Valid()
      modifies this`background
      ensures Valid()
      ensures var bg := CalibratedBackground(data, width, isDark);
              (r.Err? <==> bg.Err?) &&
              (r.Err? ==> r.error == bg.error && background == old(background)) &&
              (r.Ok? ==> background == Some(bg.value))
    {
      var bg := CalibratedBackground(data, width, isDark);
      if bg.Err? {
        return Err(bg.error);
      }
      background := Some(bg.value);
      r := Ok(());
    }

    /**
     * `process`: the array is corrected in place (through the `np.newaxis`
     * view for a vector) and its edges located; in debug mode `raw_input` is
     * the corrected array itself. On failure the array is untouched.
     */
    method Process(data: NdArray, debug: bool, locate: EdgeLocator) returns (r: Result<ProcessOutput, Error>)
      modifies data.Footprint()
      ensures r == ProcessResult(Settings(), background, old(data.Snapshot()), debug, locate)
      ensures r.Err? ==> data.Snapshot() == old(data.Snapshot())
      ensures r.Ok? && data.OneDim? ==>
                data.a[..] == CorrectRow(old(data.a[..]), background.value, backgroundMethod)
      ensures r.Ok? && data.TwoDim? ==>
                Grid(data.m) == CorrectRows(old(Grid(data.m)), data.m.Length1, background.value, backgroundMethod)
      ensures r.Ok? && debug ==> r.value.rawInput == Some(AsRows(data.Snapshot()).0)
    {
      if background.None? {
        return Err(BackgroundNotCalibrated);
      }
      var bg := background.value;
      match data
      case MoreDims =>
        return Err(BadDimensions);
      case OneDim(a) =>
        if !Broadcasts(a.Length, bg) {
          return Err(ShapeMismatch);
        }
        ghost var before := a[..];
        CorrectVector(a, bg, backgroundMethod);
        var rows := [a[..]];
        assert rows == CorrectRows([before], |before|, bg, backgroundMethod);
        r := Ok(ProcessOutput(locate(rows, stepLength, edgeType, refinement), if debug then Some(rows) else None));
      case TwoDim(m) =>
        if !Broadcasts(m.Length1, bg) {
          return Err(ShapeMismatch);
        }
        CorrectMatrix(m, bg, backgroundMethod);
        var rows := Grid(m);
        r := Ok(ProcessOutput(locate(rows, stepLength, edgeType, refinement), if debug then Some(rows) else None));
    }

    /**
     * `process_hdf5`: its result and the background it leaves behind are
     * those FileResult describes for the encoder's state on entry; the
     * options are not changed.
     */
    method ProcessHdf5(storage: Storage, path: string, debug: bool, locate: EdgeLocator)
      returns (r: Result<FileOutput, Error>)
      requires storage.WellFormed()
      requires Valid()
      modifies this`background
      ensures Valid()
      ensures (r, background) == FileResult(Settings(), old(background), storage, path, debug, locate)
    {
      var read := ReadBsreadFile(Settings(), storage, path);
      if read.Err? {
        return Err(read.error);
      }
      r := ProcessFileData(read.value, debug, locate);
    }

    /** `process_hdf5` once the file is read: settle the background, process, blank the dark shots. */
    method ProcessFileData(fd: FileData, debug: bool, locate: EdgeLocator) returns (r: Result<FileOutput, Error>)
      requires Rectangular(fd.data, fd.width)
      requires Valid()
      modifies this`background
      ensures Valid()
      ensures (r, background) == FileDataResult(Settings(), old(background), fd, debug, locate)
    {
      if HasDarkShotStrategy(Settings()) {
        var calibrated := CalibrateBackground(fd.data, fd.width, fd.isDark);
        if calibrated.Err? {
          return Err(calibrated.error);
        }
      } else if background.None? {
        return Err(BackgroundNotCalibrated);
      }
      var m := NewMatrix(fd.data, fd.width);
      var out :- Process(TwoDim(m), debug, locate);
      var edges :- BlankDarkShots(out.edgePos, fd.isDark);
      r := Ok(FileOutput(edges, fd.pulseId, fd.isDark, out.rawInput));
    }

    /** A worker's copy: the same options and, unless the background is recalibrated per file, the same background. */
    ghost predicate Mirrored(w: SpatialEncoder)
      reads this, w
    {
      w.Settings() == Settings() && (!HasDarkShotStrategy(Settings()) ==> w.background == background)
    }

    /**
     * `process_eco`: the files of the scan are processed by `nproc` workers,
     * each holding its own copy of the encoder, file i going to the worker
     * `schedule` picks; the outputs come back in scan order, each annotated
     * with its step's position. The result is EcoResult's whatever the worker
     * count and schedule, and this encoder is not changed.
     */
    method ProcessEco(storage: Storage, path: string, nproc: int, debug: bool, locate: EdgeLocator,
                      schedule: nat -> nat) returns (r: Result<seq<StepOutput>, Error>)
      requires Valid() && storage.WellFormed()
      ensures r == EcoResult(Settings(), background, storage, path, nproc, debug, locate)
    {
      if !HasDarkShotStrategy(Settings()) && background.None? {
        return Err(BackgroundNotCalibrated);
      }
      var scan :- ReadEcoScan(storage, path);
      if nproc < 1 {
        return Err(BadWorkerCount(nproc));
      }
      var workers := Workers(nproc);
      var outs :- RunWorkers(workers, storage, scan.files, debug, locate, schedule);
      r := AnnotateSteps(outs, scan.scanPosFs);
    }

    /** `Pool(processes=nproc)`: `nproc` fresh copies of the encoder. */
    method Workers(nproc: nat) returns (workers: seq<SpatialEncoder>)
      requires Valid()
      ensures |workers| == nproc
      ensures forall k :: 0 <= k < |workers| ==> fresh(workers[k]) && Mirrored(workers[k])
    {
      workers := [];
      while |workers| < nproc
        invariant |workers| <= nproc
        invariant forall k :: 0 <= k < |workers| ==> fresh(workers[k]) && Mirrored(workers[k])
        decreases nproc - |workers|
      {
        var w := new SpatialEncoder.Copy(this);
        workers := workers + [w];
      }
    }

    /**
     * `pool.map(process_hdf5, files)`: file i processed by the worker
     * `schedule` picks, outputs gathered in file order. Whichever worker gets
     * a file, its output is the one this encoder's state determines.
     */
    method RunWorkers(workers: seq<SpatialEncoder>, storage: Storage, files: seq<string>, debug: bool,
                      locate: EdgeLocator, schedule: nat -> nat) returns (r: Result<seq<FileOutput>, Error>)
      requires Valid() && storage.WellFormed() && |workers| > 0
      requires forall k :: 0 <= k < |workers| ==> workers[k] != this && Mirrored(workers[k])
      modifies set k | 0 <= k < |workers| :: workers[k]
      ensures r == FileResults(Settings(), background, storage, files, debug, locate)
    {
      ghost var each := EachFileResult(Settings(), background, storage, files, debug, locate);
      var outs: seq<FileOutput> := [];
      var i := 0;
      while i < |files|
        invariant 0 <= i <= |files|
        invariant forall k :: 0 <= k < |workers| ==> Mirrored(workers[k])
        invariant each == EachFileResult(Settings(), background, storage, files, debug, locate)
        invariant Collect(each[..i]) == Ok(outs)
      {
        var out := RunWorker(workers, schedule(i) % |workers|, storage, files[i], debug, locate);
        assert out == each[i];
        CollectStep(each, i, outs);
        if out.Err? {
          return Err(out.error);
        }
        ghost var gathered := outs;
        outs := outs + [out.value];
        assert outs == gathered + [each[i].value];
        i := i + 1;
      }
      assert each[..i] == each;
      r := Ok(outs);
    }

    /** Worker j of the pool handles one file; every worker still mirrors this encoder afterwards. */
    method RunWorker(workers: seq<SpatialEncoder>, j: nat, storage: Storage, file: string, debug: bool,
                     locate: EdgeLocator) returns (r: Result<FileOutput, Error>)
      requires Valid() && storage.WellFormed() && j < |workers|
      requires forall k :: 0 <= k < |workers| ==> workers[k] != this && Mirrored(workers[k])
      modifies workers[j]
      ensures r == FileResult(Settings(), background, storage, file, debug, locate).0
      ensures forall k :: 0 <= k < |workers| ==> Mirrored(workers[k])
    {
      var w := workers[j];
      FileResultBackground(Settings(), w.background, background, storage, file, debug, locate);
      r := w.ProcessHdf5(storage, file, debug, locate);
    }

    /** One 'avg_wf' step: the file's mean waveform processed as a vector, giving exactly one edge. */
    method AveragedWaveformEdgeOf(storage: Storage, path: string, locate: EdgeLocator) returns (e: Result<Sample, Error>)
      requires storage.WellFormed()
      ensures e == AveragedWaveformEdge(Settings(), background, storage, path, locate)
    {
      var fd :- ReadBsreadFile(Settings(), storage, path);
      var mean := ColumnMean(fd.data, fd.width);
      var a := new Sample[|mean|](i requires 0 <= i < |mean| => mean[i]);
      assert a[..] == mean;
      var out :- Process(OneDim(a), false, locate);
      if |out.edgePos| != 1 {
        return Err(ShapeMismatch);
      }
      e := Ok(out.edgePos[0]);
    }

    /**
     * The 'avg_wf' loop: file i's averaged edge written to slot i of an
     * array with one slot per file; the first failing file ends it.
     */
    method AveragedWaveformEdgesOf(storage: Storage, files: seq<string>, locate: EdgeLocator)
      returns (r: Result<seq<Sample>, Error>)
      requires storage.WellFormed()
      ensures r == AveragedWaveformEdges(Settings(), background, storage, files, locate)
    {
      ghost var each := EachAveragedWaveformEdge(Settings(), background, storage, files, locate);
      var edges := new Sample[|files|];
      var i := 0;
      while i < |files|
        invariant 0 <= i <= |files|
        invariant Collect(each[..i]) == Ok(edges[..i])
      {
        var e := AveragedWaveformEdgeOf(storage, files[i], locate);
        assert e == each[i];
        CollectStep(each, i, edges[..i]);
        if e.Err? {
          return Err(e.error);
        }
        ghost var gathered := edges[..i];
        edges[i] := e.value;
        assert edges[..i + 1] == gathered + [e.value];
        i := i + 1;
      }
      assert each[..i] == each && edges[..i] == edges[..];
      r := Ok(edges[..]);
    }

    /** The 'avg_edge' loop: each step's position and the nanmean of its edges, into two arrays. */
    static method AveragedEdgesOf(steps: seq<StepOutput>) returns (positions: seq<real>, edges: seq<Sample>)
      ensures (positions, edges) == AveragedEdges(steps)
    {
      var pos := new real[|steps|];
      var edgeArr := new Sample[|steps|];
      var i := 0;
      while i < |steps|
        invariant 0 <= i <= |steps|
        invariant pos[..i] == AveragedEdges(steps).0[..i] && edgeArr[..i] == AveragedEdges(steps).1[..i]
      {
        pos[i] := steps[i].scanPosFs;
        edgeArr[i] := NanMean(steps[i].file.edgePos);
        i := i + 1;
      }
      assert pos[..] == pos[..i] && edgeArr[..] == edgeArr[..i];
      assert AveragedEdges(steps).0[..i] == AveragedEdges(steps).0;
      assert AveragedEdges(steps).1[..i] == AveragedEdges(steps).1;
      positions, edges := pos[..], edgeArr[..];
    }

    /**
     * `calibrate_time`: edge positions per scan step by the chosen method,
     * fitted linearly against the positions; on success `pix_per_fs` becomes
     * the fit's slope, otherwise it keeps its value. A scan on which the
     * original would fit positions of other steps is refused (see
     * TimeCalibrationResult).
     */
    method CalibrateTime(storage: Storage, path: string, strategy: string, nproc: int, locate: EdgeLocator,
                         fit: LinearFit, schedule: nat -> nat) returns (r: Result<TimeCalibration, Error>)
      requires storage.WellFormed()
      requires Valid()
      modifies this`pixPerFs
      ensures Valid()
      ensures r == TimeCalibrationResult(Settings(), background, storage, path, strategy, nproc, locate, fit)
      ensures r.Ok? ==> pixPerFs == Some(r.value.fit.slope)
      ensures r.Err? ==> pixPerFs == old(pixPerFs)
    {
      if eventsChannel.None? && darkShotFilter.None? && background.None? {
        return Err(BackgroundNotCalibrated);
      }
      var positions: seq<real>;
      var edgePosPix: seq<Sample>;
      if strategy == "avg_wf" {
        var scan :- ReadEcoScan(storage, path);
        if !ScanPairsUp(storage, path) {
          return Err(UnpairedScan);
        }
        var edges :- AveragedWaveformEdgesOf(storage, scan.files, locate);
        positions, edgePosPix := scan.scanPosFs, edges;
      } else if strategy == "avg_edge" {
        var steps :- ProcessEco(storage, path, nproc, false, locate, schedule);
        if !SingleReadbacks(storage, path) {
          return Err(UnpairedScan);
        }
        positions, edgePosPix := AveragedEdgesOf(steps);
      } else {
        return Err(UnknownCalibrationMethod(strategy));
      }
      match fit(positions, edgePosPix)
      case None =>
        r := Err(FitFailed);
      case Some(coeff) =>
        pixPerFs := Some(coeff.slope);
        r := Ok(TimeCalibration(positions, edgePosPix, coeff));
    }
  }
}
