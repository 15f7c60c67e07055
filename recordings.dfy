/**
 * The two recordings the encoder reads, as values: bsread files (one group of
 * datasets per channel) and eco scan descriptions. The index logic of
 * `_read_bsread_file` and the file-list extraction of `_read_eco_scan` are
 * modelled here; opening and decoding the files is not.
 */
module Recordings {
  import opened Wrappers
  import opened Errors
  import opened Indexing
  import opened Waveforms
  import opened PulseIds
  import opened EncoderConfig

  /**
   * One channel of a bsread file: its `pulse_id` dataset and its `data`
   * dataset, one row of `width` values per pulse. For the encoder's channel a
   * row is the camera image already projected over the region of interest;
   * for the events channel it is the event values of that pulse.
   */
  datatype Group = Group(pulseId: seq<nat>, data: Rows, width: nat)

  /** A bsread file: its channel groups by name. */
  type BsreadFile = map<string, Group>

  /** An eco scan description: `scan_readbacks` (one list per step) and `scan_files` (one list per step). */
  datatype EcoScan = EcoScan(scanReadbacks: seq<seq<real>>, scanFiles: seq<seq<string>>)

  /** The files the encoder can open, by path. */
  datatype Storage = Storage(bsread: map<string, BsreadFile>, eco: map<string, EcoScan>) {
    /** HDF5 datasets are rectangular arrays. */
    predicate WellFormed() {
      forall path, ch :: path in bsread && ch in bsread[path] ==>
        Rectangular(bsread[path][ch].data, bsread[path][ch].width)
    }
  }

  /** What `_read_bsread_file` returns besides the images: waveforms, their pulse ids and dark flags. */
  datatype FileData = FileData(data: Rows, width: nat, pulseId: seq<nat>, isDark: Option<seq<bool>>)

  /** Rows selected from a rectangular matrix form a rectangular matrix. */
  lemma SelectRectangular(rows: Rows, width: nat, sel: Selector)
    requires Rectangular(rows, width) && Select(rows, sel).Ok?
    ensures Rectangular(Select(rows, sel).value, width)
  {
  }

  /**
   * `_read_bsread_file`: the channel's shots kept by pulse-id alignment (with
   * the events channel when one is configured, otherwise by dropping pulse id
   * 0 and applying the dark-shot filter), their waveforms and their dark flags.
   */
  function ReadBsreadFile(cfg: Config, storage: Storage, path: string): (r: Result<FileData, Error>)
    requires storage.WellFormed()
    ensures r.Ok? ==> Rectangular(r.value.data, r.value.width)
  {
    if path !in storage.bsread then Err(MissingKey(path))
    else
      var file := storage.bsread[path];
      if cfg.channel !in file then Err(MissingKey(cfg.channel))
      else
        var group := file[cfg.channel];
        var alignment :-
          if UsesEventsChannel(cfg) then
            if cfg.eventsChannel.value !in file then Err(MissingKey(cfg.eventsChannel.value))
            else
              var events := file[cfg.eventsChannel.value];
              AlignWithEvents(group.pulseId, events.pulseId, events.data, events.width, cfg.darkShotEvent)
          else AlignWithoutEvents(group.pulseId, cfg.darkShotFilter);
        var pulseId :- Select(group.pulseId, alignment.index);
        var rows :- Select(group.data, alignment.index);
        SelectRectangular(group.data, group.width, alignment.index);
        Ok(FileData(rows, group.width, pulseId, alignment.isDark))
  }

  /**
   * Every successful read pairs one waveform with each kept pulse id, and one
   * dark flag with each when a dark-shot strategy is configured (none otherwise).
   */
  lemma ReadBsreadFileShape(cfg: Config, storage: Storage, path: string)
    requires storage.WellFormed() && ReadBsreadFile(cfg, storage, path).Ok?
    ensures var fd := ReadBsreadFile(cfg, storage, path).value;
            |fd.data| == |fd.pulseId| &&
            (fd.isDark.Some? <==> HasDarkShotStrategy(cfg)) &&
            (fd.isDark.Some? ==> |fd.isDark.value| == |fd.pulseId|)
  {
    var file := storage.bsread[path];
    var group := file[cfg.channel];
    if UsesEventsChannel(cfg) {
      var events := file[cfg.eventsChannel.value];
      AlignWithEventsKeepsCommonIds(group.pulseId, events.pulseId, events.data, events.width, cfg.darkShotEvent);
    } else {
      AlignWithoutEventsKeepsNonZero(group.pulseId, cfg.darkShotFilter);
    }
  }

  // ---------------------------------------------------------------------------
  // eco scans
  // ---------------------------------------------------------------------------

  /** Femtoseconds in a second: readbacks are stored in seconds. */
  const FemtosecondsPerSecond: real := 1000000000000000.0

  /** `np.ravel` of the readbacks: the steps' lists one after the other. */
  function Flatten(rs: seq<seq<real>>): seq<real> {
    if rs == [] then [] else rs[0] + Flatten(rs[1..])
  }

  /** The scan positions in femtoseconds and the bsread file of each step, as `_read_eco_scan` returns them. */
  datatype ScanDescription = ScanDescription(scanPosFs: seq<real>, files: seq<string>)

  /** `_read_eco_scan`: readbacks flattened and scaled to femtoseconds; the first file listed for each step. */
  function ReadEcoScan(storage: Storage, path: string): Result<ScanDescription, Error> {
    if path !in storage.eco then Err(MissingKey(path))
    else
      var scan := storage.eco[path];
      var flat := Flatten(scan.scanReadbacks);
      if exists i :: 0 <= i < |scan.scanFiles| && |scan.scanFiles[i]| == 0 then Err(IndexOutOfRange)
      else
        Ok(ScanDescription(seq(|flat|, i requires 0 <= i < |flat| => flat[i] * FemtosecondsPerSecond),
                           seq(|scan.scanFiles|, i requires 0 <= i < |scan.scanFiles| => scan.scanFiles[i][0])))
  }

  lemma {:induction false} FlattenSingletons(rs: seq<seq<real>>)
    requires forall i :: 0 <= i < |rs| ==> |rs[i]| == 1
    ensures |Flatten(rs)| == |rs|
    ensures forall i :: 0 <= i < |rs| ==> Flatten(rs)[i] == rs[i][0]
  {
    if rs != [] {
      FlattenSingletons(rs[1..]);
      assert forall i :: 1 <= i < |rs| ==> rs[i] == rs[1..][i - 1];
    }
  }

  /**
   * Step i of a scan uses the first file listed for step i, in scan order; the
   * read fails exactly when the scan is missing or some step lists no file.
   * When every step has one readback, position i is that step's readback in
   * femtoseconds, so positions and files pair up step by step.
   */
  lemma ReadEcoScanOrder(storage: Storage, path: string)
    ensures ReadEcoScan(storage, path).Ok? <==>
            path in storage.eco &&
            forall i :: 0 <= i < |storage.eco[path].scanFiles| ==> |storage.eco[path].scanFiles[i]| > 0
    ensures ReadEcoScan(storage, path).Ok? ==>
            var scan, d := storage.eco[path], ReadEcoScan(storage, path).value;
            |d.files| == |scan.scanFiles| &&
            (forall i :: 0 <= i < |d.files| ==> d.files[i] == scan.scanFiles[i][0]) &&
            ((forall i :: 0 <= i < |scan.scanReadbacks| ==> |scan.scanReadbacks[i]| == 1) ==>
               |d.scanPosFs| == |scan.scanReadbacks| &&
               forall i :: 0 <= i < |d.scanPosFs| ==>
                 d.scanPosFs[i] == scan.scanReadbacks[i][0] * FemtosecondsPerSecond)
  {
    if path in storage.eco {
      var scan := storage.eco[path];
      if forall i :: 0 <= i < |scan.scanReadbacks| ==> |scan.scanReadbacks[i]| == 1 {
        FlattenSingletons(scan.scanReadbacks);
      }
    }
  }

  /** Every step of the scan records exactly one readback, so flattening keeps position i with step i. */
  predicate SingleReadbacks(storage: Storage, path: string) {
    path in storage.eco &&
    forall i :: 0 <= i < |storage.eco[path].scanReadbacks| ==> |storage.eco[path].scanReadbacks[i]| == 1
  }

  /** A scan whose positions and files pair up step by step: one readback per step, as many steps as file lists. */
  predicate ScanPairsUp(storage: Storage, path: string) {
    SingleReadbacks(storage, path) && |storage.eco[path].scanReadbacks| == |storage.eco[path].scanFiles|
  }

  /** With one readback per step, position i is step i's readback and file i is step i's first file. */
  lemma PairedScanPositions(storage: Storage, path: string)
    requires ReadEcoScan(storage, path).Ok? && SingleReadbacks(storage, path)
    ensures var scan, d := storage.eco[path], ReadEcoScan(storage, path).value;
            |d.scanPosFs| == |scan.scanReadbacks| && |d.files| == |scan.scanFiles| &&
            (forall i :: 0 <= i < |d.scanPosFs| ==>
               d.scanPosFs[i] == scan.scanReadbacks[i][0] * FemtosecondsPerSecond) &&
            forall i :: 0 <= i < |d.files| ==> d.files[i] == scan.scanFiles[i][0]
  {
    ReadEcoScanOrder(storage, path);
  }

  /** A two-step scan with two readbacks per step reads as four positions and two files. */
  lemma ReadTwoReadbackScan(storage: Storage, path: string, x0: real, y0: real, x1: real, y1: real,
                            f0: string, f1: string)
    requires path in storage.eco && storage.eco[path] == EcoScan([[x0, y0], [x1, y1]], [[f0], [f1]])
    ensures !SingleReadbacks(storage, path)
    ensures ReadEcoScan(storage, path) ==
            Ok(ScanDescription([x0 * FemtosecondsPerSecond, y0 * FemtosecondsPerSecond,
                                x1 * FemtosecondsPerSecond, y1 * FemtosecondsPerSecond], [f0, f1]))
  {
    var rbs: seq<seq<real>> := [[x0, y0], [x1, y1]];
    assert |storage.eco[path].scanReadbacks[0]| == 2;
    assert rbs[1..][1..] == [];
    assert Flatten(rbs) == [x0, y0] + ([x1, y1] + Flatten([]));
    var flat := Flatten(rbs);
    assert flat == [x0, y0, x1, y1];
    var files: seq<seq<string>> := [[f0], [f1]];
    assert forall i :: 0 <= i < |files| ==> |files[i]| > 0;
    var d := ReadEcoScan(storage, path);
    assert d.Ok?;
    assert d.value.scanPosFs == seq(4, i requires 0 <= i < 4 => flat[i] * FemtosecondsPerSecond);
    assert d.value.scanPosFs == [x0 * FemtosecondsPerSecond, y0 * FemtosecondsPerSecond,
                                 x1 * FemtosecondsPerSecond, y1 * FemtosecondsPerSecond];
    assert d.value.files == [files[0][0], files[1][0]];
  }
}
