/** The result sink of `main`: per scan, the projected labels are either
    saved at once under a sequential file name, or appended to `label_list`,
    which is pickled once after the loop. The byte encodings of `np.save`
    and `pickle.dump` are not modelled; an output is the path written and
    the value written there. */
module ResultSink {
  import opened Outcome
  import opened StrSplit
  import opened DecimalFormat
  import opened LabelProjection

  /** The global `INFER_KITTI` switch, passed as a value. */
  datatype Mode =
    | Folder   // INFER_KITTI = True: one saved array per scan
    | Chunked  // INFER_KITTI = False: one pickled list of arrays per chunk file

  /** One scan as it reaches line 126: the per-voxel argmax of the forward
      pass and the voxel coordinates of each point. */
  datatype Scan = Scan(pred: Volume, voxels: seq<Voxel>)

  /** A scan whose every point's voxel lies inside the grid, as the data
      loader guarantees; numpy's wrap-around of negative indices is not
      modelled. */
  type ValidScan = s: Scan | AllInVolume(s.pred, s.voxels) witness Scan([], [])

  /** Lines 126-128 applied to one scan. */
  function ProjectScan(scan: ValidScan, inv: map<int, int>): Result<seq<int>>
  {
    Project(scan.pred, scan.voxels, inv)
  }

  datatype Payload = ScanLabels(labels: seq<int>) | LabelList(arrays: seq<seq<int>>)

  /** One file written: its path and what was written to it. */
  datatype Output = Output(path: string, payload: Payload)

  /** The files a run wrote, in order, and the failure that ended it, if any. */
  datatype RunResult = RunResult(outputs: seq<Output>, failure: Option<Error>)

  /** `f"{save_dir}{k:06d}.label"`. */
  function LabelFileName(saveDir: string, k: nat): string
  {
    saveDir + ZeroPad6(k) + ".label"
  }

  /** The file `np.save` writes for a given name: ".npy" is appended to a
      name that does not already end in it. */
  function SavePath(name: string): string
  {
    if |name| >= 4 && name[|name| - 4..] == ".npy" then name else name + ".npy"
  }

  /** `data_dir.replace("raw", "labels")`. */
  function AggregatePath(dataDir: string): string
  {
    ReplaceAll(dataDir, "raw", "labels")
  }

  /** The labels of the scans projected in order, up to the first scan whose
      projection fails, and that failure. */
  datatype Projected = Projected(labels: seq<seq<int>>, failure: Option<Error>)

  function ProjectScans(scans: seq<ValidScan>, inv: map<int, int>): Projected
  {
    if scans == [] then Projected([], None)
    else
      match ProjectScan(scans[0], inv)
      case Err(e) => Projected([], Some(e))
      case Ok(labels) =>
        var rest := ProjectScans(scans[1..], inv);
        Projected([labels] + rest.labels, rest.failure)
  }

  /** The projected scans form a prefix of the input: each array is the
      projection of its scan, and the prefix ends at the first failing scan
      or covers every scan. */
  lemma {:induction false} ProjectScansSpec(scans: seq<ValidScan>, inv: map<int, int>)
    ensures var p := ProjectScans(scans, inv);
      && |p.labels| <= |scans|
      && (forall k :: 0 <= k < |p.labels| ==> ProjectScan(scans[k], inv) == Ok(p.labels[k]))
      && (p.failure.None? ==> |p.labels| == |scans|)
      && (p.failure.Some? ==>
            |p.labels| < |scans| && ProjectScan(scans[|p.labels|], inv) == Err(p.failure.value))
  {
    if scans != [] && ProjectScan(scans[0], inv).Ok? {
      var tail := scans[1..];
      ProjectScansSpec(tail, inv);
      var p, rest := ProjectScans(scans, inv), ProjectScans(tail, inv);
      forall k | 0 < k < |p.labels| ensures ProjectScan(scans[k], inv) == Ok(p.labels[k]) {
        assert p.labels[k] == rest.labels[k - 1] && scans[k] == tail[k - 1];
      }
      assert p.failure.Some? ==> scans[|p.labels|] == tail[|rest.labels|];
    }
  }

  /** The k-th array saved under the k-th sequential file name. */
  function PerScanOutputs(saveDir: string, arrays: seq<seq<int>>): seq<Output>
  {
    seq(|arrays|, k requires 0 <= k < |arrays| => Output(SavePath(LabelFileName(saveDir, k)), ScanLabels(arrays[k])))
  }

  /** What `main(args, data_dir)` writes for the given scans: per-scan files
      for every scan projected before a failure, or the pickled list, which
      an exception in the loop prevents from being written. */
  function MainRun(mode: Mode, saveFolder: string, dataDir: string, scans: seq<ValidScan>, inv: map<int, int>): RunResult
  {
    var p := ProjectScans(scans, inv);
    match mode
    case Folder => RunResult(PerScanOutputs(saveFolder + "/", p.labels), p.failure)
    case Chunked =>
      RunResult(if p.failure.None? then [Output(AggregatePath(dataDir), LabelList(p.labels))] else [], p.failure)
  }

  /** The state `main` keeps across scans: `label_list`, the counter
      `i_iter_demo` and the files written so far. */
  class Sink {
    const mode: Mode
    const saveDir: string
    const dataDir: string
    var labelList: seq<seq<int>>
    var outputs: seq<Output>
    var scans: nat
    var flushed: bool

    ghost predicate Valid()
      reads this
    {
      match mode
      case Folder =>
        && labelList == []
        && |outputs| == scans
        && forall k :: 0 <= k < scans ==> outputs[k].path == SavePath(LabelFileName(saveDir, k))
      case Chunked =>
        && |labelList| == scans
        && outputs == if flushed then [Output(AggregatePath(dataDir), LabelList(labelList))] else []
    }

    /** Lines 81 and 109: `save_dir` and the empty `label_list`. */
    constructor (mode: Mode, saveFolder: string, dataDir: string)
      ensures Valid()
      ensures this.mode == mode && saveDir == saveFolder + "/" && this.dataDir == dataDir
      ensures labelList == [] && outputs == [] && scans == 0 && !flushed
    {
      this.mode := mode;
      saveDir := saveFolder + "/";
      this.dataDir := dataDir;
      labelList := [];
      outputs := [];
      scans := 0;
      flushed := false;
    }

    /** Lines 131-134 for the scan just projected, then the next value of
        the loop counter. */
    method Store(labels: seq<int>)
      requires Valid() && !flushed
      modifies this
      ensures Valid() && !flushed && scans == old(scans) + 1
      ensures mode == Folder ==>
                && outputs == old(outputs) + [Output(SavePath(LabelFileName(saveDir, old(scans))), ScanLabels(labels))]
                && labelList == old(labelList)
      ensures mode == Chunked ==> labelList == old(labelList) + [labels] && outputs == old(outputs)
    {
      if mode == Folder {
        ghost var before := outputs;
        var path := SavePath(LabelFileName(saveDir, scans));
        outputs := outputs + [Output(path, ScanLabels(labels))];
        forall k | 0 <= k <= scans ensures outputs[k].path == SavePath(LabelFileName(saveDir, k)) {
          if k < scans {
            assert outputs[k] == before[k];
          }
        }
      } else {
        labelList := labelList + [labels];
      }
      scans := scans + 1;
    }

    /** Lines 136-138, once the loop is over. */
    method Flush()
      requires Valid() && !flushed
      modifies this
      ensures Valid() && flushed && scans == old(scans) && labelList == old(labelList)
      ensures mode == Folder ==> outputs == old(outputs)
      ensures mode == Chunked ==> outputs == old(outputs) + [Output(AggregatePath(dataDir), LabelList(labelList))]
    {
      if mode == Chunked {
        outputs := outputs + [Output(AggregatePath(dataDir), LabelList(labelList))];
      }
      flushed := true;
    }
  }

  /** The contract of ProjectScans determines its result: labels for a
      prefix of the scans, each the projection of its scan, ended by the
      first failure or by the last scan. */
  lemma {:induction false} ProjectScansDetermined(scans: seq<ValidScan>, inv: map<int, int>,
                                                  labels: seq<seq<int>>, failure: Option<Error>)
    requires |labels| <= |scans|
    requires forall k :: 0 <= k < |labels| ==> ProjectScan(scans[k], inv) == Ok(labels[k])
    requires failure.None? ==> |labels| == |scans|
    requires failure.Some? ==>
               |labels| < |scans| &&
               ProjectScan(scans[|labels|], inv) == Err(failure.value)
    ensures ProjectScans(scans, inv) == Projected(labels, failure)
  {
    if scans != [] && labels != [] {
      var tail := scans[1..];
      forall k | 0 <= k < |labels| - 1 ensures ProjectScan(tail[k], inv) == Ok(labels[1..][k]) {
        assert tail[k] == scans[k + 1];
      }
      assert failure.Some? ==> tail[|labels| - 1] == scans[|labels|];
      ProjectScansDetermined(tail, inv, labels[1..], failure);
      assert labels == [labels[0]] + labels[1..];
    }
  }

  lemma PerScanOutputsAppend(saveDir: string, arrays: seq<seq<int>>, labels: seq<int>)
    ensures PerScanOutputs(saveDir, arrays + [labels]) ==
            PerScanOutputs(saveDir, arrays) + [Output(SavePath(LabelFileName(saveDir, |arrays|)), ScanLabels(labels))]
  {
  }

  /** The scan loop of `main` (lines 109-138) over the scans the loader
      yields for `dataDir`. */
  method RunMain(mode: Mode, saveFolder: string, dataDir: string, scans: seq<ValidScan>, inv: map<int, int>)
    returns (res: RunResult)
    ensures res == MainRun(mode, saveFolder, dataDir, scans, inv)
  {
    var sink := new Sink(mode, saveFolder, dataDir);
    ghost var done: seq<seq<int>> := [];
    var i := 0;
    while i < |scans|
      invariant 0 <= i <= |scans|
      invariant sink.Valid() && !sink.flushed
      invariant sink.mode == mode && sink.saveDir == saveFolder + "/" && sink.dataDir == dataDir
      invariant sink.scans == i == |done|
      invariant forall k :: 0 <= k < i ==> ProjectScan(scans[k], inv) == Ok(done[k])
      invariant mode == Folder ==> sink.outputs == PerScanOutputs(saveFolder + "/", done)
      invariant mode == Chunked ==> sink.labelList == done && sink.outputs == []
    {
      var r := ProjectScan(scans[i], inv);
      if r.Err? {
        ProjectScansDetermined(scans, inv, done, Some(r.error));
        // the exception leaves `main`: files already saved stay, `label_list` is lost
        return RunResult(sink.outputs, Some(r.error));
      }
      PerScanOutputsAppend(saveFolder + "/", done, r.value);
      sink.Store(r.value);
      done := done + [r.value];
      i := i + 1;
    }
    ProjectScansDetermined(scans, inv, done, None);
    sink.Flush();
    res := RunResult(sink.outputs, None);
  }

  /** Two different counter values never give the same file name. */
  lemma LabelFileNamesDistinct(saveDir: string, a: nat, b: nat)
    requires a != b
    ensures LabelFileName(saveDir, a) != LabelFileName(saveDir, b)
  {
    if LabelFileName(saveDir, a) == LabelFileName(saveDir, b) {
      var na, nb := LabelFileName(saveDir, a), LabelFileName(saveDir, b);
      assert ZeroPad6(a) == na[|saveDir|..|na| - 6];
      assert ZeroPad6(b) == nb[|saveDir|..|nb| - 6];
      ZeroPad6Injective(a, b);
    }
  }

  lemma AppendDistinct(a: string, b: string, t: string)
    requires a != b
    ensures a + t != b + t
  {
    if |a| == |b| {
      var i :| 0 <= i < |a| && a[i] != b[i];
      assert (a + t)[i] == a[i] && (b + t)[i] == b[i];
    }
  }

  /** A per-scan name ends in ".label", so `np.save` adds ".npy" to it. */
  lemma LabelSavePath(saveDir: string, k: nat)
    ensures SavePath(LabelFileName(saveDir, k)) == LabelFileName(saveDir, k) + ".npy"
  {
    var name := LabelFileName(saveDir, k);
    assert name[|name| - 1] == 'l';
  }

  /** Per-scan mode: the k-th scan written goes to `save_dir + "/"` followed
      by k zero-padded to six digits and `.label.npy`, numbered from 0
      without gaps, no two scans share a file, and without a failure every
      scan is written. */
  lemma PerScanFilesSequential(saveFolder: string, dataDir: string, scans: seq<ValidScan>, inv: map<int, int>)
    ensures var res := MainRun(Folder, saveFolder, dataDir, scans, inv);
      && (res.failure.None? ==> |res.outputs| == |scans|)
      && (forall k :: 0 <= k < |res.outputs| ==>
            && k < |scans|
            && res.outputs[k].path == LabelFileName(saveFolder + "/", k) + ".npy"
            && res.outputs[k].payload.ScanLabels?
            && ProjectScan(scans[k], inv) == Ok(res.outputs[k].payload.labels))
      && (forall j, k :: 0 <= j < k < |res.outputs| ==> res.outputs[j].path != res.outputs[k].path)
  {
    var res := MainRun(Folder, saveFolder, dataDir, scans, inv);
    ProjectScansSpec(scans, inv);
    forall k | 0 <= k < |res.outputs| ensures res.outputs[k].path == LabelFileName(saveFolder + "/", k) + ".npy" {
      LabelSavePath(saveFolder + "/", k);
    }
    forall j, k | 0 <= j < k < |res.outputs| ensures res.outputs[j].path != res.outputs[k].path {
      LabelFileNamesDistinct(saveFolder + "/", j, k);
      AppendDistinct(LabelFileName(saveFolder + "/", j), LabelFileName(saveFolder + "/", k), ".npy");
    }
  }

  /** Aggregate mode: at most one file, written only when every scan was
      projected, holding one array per scan in processing order, at the
      input path with every "raw" replaced by "labels"; so that path holds
      no "raw" and, when the input path has one, is not the input path. */
  lemma AggregateWrittenOnce(saveFolder: string, dataDir: string, scans: seq<ValidScan>, inv: map<int, int>)
    ensures var res := MainRun(Chunked, saveFolder, dataDir, scans, inv);
      && |res.outputs| <= 1
      && (|res.outputs| == 1 <==> res.failure.None?)
      && (res.failure.None? ==>
            && res.outputs[0].path == AggregatePath(dataDir)
            && res.outputs[0].payload.LabelList?
            && |res.outputs[0].payload.arrays| == |scans|
            && forall k :: 0 <= k < |scans| ==>
                 ProjectScan(scans[k], inv) == Ok(res.outputs[0].payload.arrays[k]))
      && !Contains(AggregatePath(dataDir), "raw")
      && (Contains(dataDir, "raw") ==> AggregatePath(dataDir) != dataDir)
      && (!Contains(dataDir, "raw") ==> AggregatePath(dataDir) == dataDir)
  {
    ProjectScansSpec(scans, inv);
    ReplaceAllRemoves(dataDir, "raw", "labels");
    if Contains(dataDir, "raw") {
      ReplaceAllGrows(dataDir, "raw", "labels");
    } else {
      ReplaceAllAbsent(dataDir, "raw", "labels");
    }
  }
}
