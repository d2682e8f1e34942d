/** The `__main__` driver (lines 149-158): in folder mode `main` runs once
    on the demo folder; in chunk mode it runs once per selected chunk file,
    in the order the selection returns them, and the first failure ends the
    whole run. The data loader is a parameter: `scansOf(unit)` is what it
    yields for a folder or chunk file. */
module Demo {
  import opened Outcome
  import opened ChunkSelection
  import opened ResultSink

  /** The prefix chunk files are found and grouped by. */
  const ChunkPrefix: string := "raw_chunk"

  /** A run that wrote `outputs` before going on as `rest`. */
  function After(outputs: seq<Output>, rest: RunResult): RunResult
  {
    RunResult(outputs + rest.outputs, rest.failure)
  }

  /** Runs of `main` one after another: the first failure ends the
      sequence, and what the earlier runs wrote stays written. */
  function Chain(runs: seq<RunResult>): RunResult
  {
    if runs == [] then RunResult([], None)
    else if runs[0].failure.Some? then runs[0]
    else After(runs[0].outputs, Chain(runs[1..]))
  }

  /** `main` on each chunk file, taken on its own. */
  function ChunkMains(files: seq<string>, saveFolder: string, scansOf: string -> seq<ValidScan>,
                      inv: map<int, int>): seq<RunResult>
  {
    seq(|files|, j requires 0 <= j < |files| => MainRun(Chunked, saveFolder, files[j], scansOf(files[j]), inv))
  }

  /** `main` on each chunk file in turn. */
  function ChunkRuns(files: seq<string>, saveFolder: string, scansOf: string -> seq<ValidScan>, inv: map<int, int>): RunResult
  {
    Chain(ChunkMains(files, saveFolder, scansOf, inv))
  }

  /** What the script writes, given the mode, its arguments and the names
      the chunk-file listing matched. */
  function DemoRun(mode: Mode, demoFolder: string, saveFolder: string, matched: seq<string>,
                   scansOf: string -> seq<ValidScan>, inv: map<int, int>): RunResult
  {
    match mode
    case Folder => MainRun(Folder, saveFolder, demoFolder, scansOf(demoFolder), inv)
    case Chunked =>
      match LatestDataNames(matched, ChunkPrefix)
      case Err(e) => RunResult([], Some(e))
      case Ok(files) => ChunkRuns(files, saveFolder, scansOf, inv)
  }

  lemma AfterAfter(a: seq<Output>, b: seq<Output>, rest: RunResult)
    ensures After(a, After(b, rest)) == After(a + b, rest)
  {
    assert a + (b + rest.outputs) == (a + b) + rest.outputs;
  }

  lemma ChainStep(runs: seq<RunResult>, j: nat)
    requires j < |runs|
    ensures Chain(runs[j..]) ==
      if runs[j].failure.Some? then runs[j] else After(runs[j].outputs, Chain(runs[j + 1..]))
  {
    assert runs[j..][0] == runs[j] && runs[j..][1..] == runs[j + 1..];
  }

  /** The loop over the selected chunk files (lines 154-158). */
  method RunChunks(files: seq<string>, saveFolder: string, scansOf: string -> seq<ValidScan>, inv: map<int, int>)
    returns (res: RunResult)
    ensures res == ChunkRuns(files, saveFolder, scansOf, inv)
  {
    ghost var runs := ChunkMains(files, saveFolder, scansOf, inv);
    var outputs: seq<Output> := [];
    var j := 0;
    while j < |files|
      invariant 0 <= j <= |files|
      invariant Chain(runs) == After(outputs, Chain(runs[j..]))
    {
      ChainStep(runs, j);
      var r := RunMain(Chunked, saveFolder, files[j], scansOf(files[j]), inv);
      assert r == runs[j];
      AfterAfter(outputs, r.outputs, Chain(runs[j + 1..]));
      outputs := outputs + r.outputs;
      if r.failure.Some? {
        return RunResult(outputs, r.failure);
      }
      j := j + 1;
    }
    res := RunResult(outputs, None);
  }

  /** The `__main__` block after argument parsing. */
  method RunDemo(mode: Mode, demoFolder: string, saveFolder: string, matched: seq<string>,
                 scansOf: string -> seq<ValidScan>, inv: map<int, int>) returns (res: RunResult)
    ensures res == DemoRun(mode, demoFolder, saveFolder, matched, scansOf, inv)
  {
    if mode == Folder {
      res := RunMain(Folder, saveFolder, demoFolder, scansOf(demoFolder), inv);
    } else {
      var selected := LatestDataNames(matched, ChunkPrefix);
      if selected.Err? {
        res := RunResult([], Some(selected.error));
      } else {
        res := RunChunks(selected.value, saveFolder, scansOf, inv);
      }
    }
  }

  /** A chain of runs that each write one file when they succeed ends
      without failure only when every run succeeded, and then it wrote
      those files in run order. */
  lemma {:induction false} ChainOnePerRun(runs: seq<RunResult>)
    requires forall k :: 0 <= k < |runs| && runs[k].failure.None? ==> |runs[k].outputs| == 1
    ensures var res := Chain(runs);
      res.failure.None? ==>
        && |res.outputs| == |runs|
        && forall k :: 0 <= k < |runs| ==> runs[k].failure.None? && res.outputs[k] == runs[k].outputs[0]
  {
    if runs != [] && runs[0].failure.None? {
      var rest := Chain(runs[1..]);
      ChainOnePerRun(runs[1..]);
      var res := Chain(runs);
      if res.failure.None? {
        forall k | 0 <= k < |runs|
          ensures runs[k].failure.None? && res.outputs[k] == runs[k].outputs[0]
        {
          if k > 0 {
            assert runs[1..][k - 1] == runs[k];
            assert res.outputs[k] == rest.outputs[k - 1];
          }
        }
      }
    }
  }

  /** The files the runs wrote, one run after another. */
  function AllOutputs(runs: seq<RunResult>): seq<Output>
  {
    if runs == [] then [] else runs[0].outputs + AllOutputs(runs[1..])
  }

  /** A chain fails exactly when one of its runs fails. */
  lemma {:induction false} ChainFails(runs: seq<RunResult>)
    ensures Chain(runs).failure.None? <==> forall i :: 0 <= i < |runs| ==> runs[i].failure.None?
  {
    if runs != [] && runs[0].failure.None? {
      ChainFails(runs[1..]);
      assert forall i :: 0 < i < |runs| ==> runs[i] == runs[1..][i - 1];
    }
  }

  /** When run j is the first to fail, the chain keeps what every run before
      it wrote, then what run j wrote before failing, and ends with run j's
      failure: no later run takes place. */
  lemma {:induction false} ChainStopsAt(runs: seq<RunResult>, j: nat)
    requires j < |runs| && runs[j].failure.Some?
    requires forall i :: 0 <= i < j ==> runs[i].failure.None?
    ensures Chain(runs) == RunResult(AllOutputs(runs[..j]) + runs[j].outputs, runs[j].failure)
  {
    if j == 0 {
      assert runs[..0] == [];
      assert [] + runs[0].outputs == runs[0].outputs;
    } else {
      var tail := runs[1..];
      assert tail[j - 1] == runs[j];
      assert forall i :: 0 <= i < j - 1 ==> tail[i] == runs[i + 1];
      ChainStopsAt(tail, j - 1);
      assert runs[..j][0] == runs[0] && runs[..j][1..] == tail[..j - 1];
      AfterAfter(runs[0].outputs, AllOutputs(tail[..j - 1]), RunResult(runs[j].outputs, runs[j].failure));
    }
  }

  /** Runs that wrote one file each wrote, together, those files in order. */
  lemma {:induction false} AllOutputsSingles(runs: seq<RunResult>)
    requires forall i :: 0 <= i < |runs| ==> |runs[i].outputs| == 1
    ensures |AllOutputs(runs)| == |runs|
    ensures forall i :: 0 <= i < |runs| ==> AllOutputs(runs)[i] == runs[i].outputs[0]
  {
    if runs != [] {
      var tail := runs[1..];
      assert forall i :: 0 <= i < |tail| ==> tail[i] == runs[i + 1];
      AllOutputsSingles(tail);
    }
  }

  /** In chunk mode, when chunk j is the first whose scans fail, the run
      ends with that chunk's error, after one file for each earlier chunk
      (at its path with "raw" replaced by "labels", holding its arrays);
      chunk j's list is not written and no later chunk is processed. */
  lemma ChunkRunsStopAtFailure(files: seq<string>, saveFolder: string,
                               scansOf: string -> seq<ValidScan>, inv: map<int, int>, j: nat)
    requires j < |files| && ProjectScans(scansOf(files[j]), inv).failure.Some?
    requires forall i :: 0 <= i < j ==> ProjectScans(scansOf(files[i]), inv).failure.None?
    ensures var res := ChunkRuns(files, saveFolder, scansOf, inv);
      && res.failure == ProjectScans(scansOf(files[j]), inv).failure
      && |res.outputs| == j
      && forall i :: 0 <= i < j ==>
           res.outputs[i] == Output(AggregatePath(files[i]), LabelList(ProjectScans(scansOf(files[i]), inv).labels))
  {
    var runs := ChunkMains(files, saveFolder, scansOf, inv);
    ChainStopsAt(runs, j);
    var before := runs[..j];
    forall i | 0 <= i < j
      ensures |before[i].outputs| == 1
      ensures before[i].outputs[0] ==
                Output(AggregatePath(files[i]), LabelList(ProjectScans(scansOf(files[i]), inv).labels))
    {
      AggregateWrittenOnce(saveFolder, files[i], scansOf(files[i]), inv);
    }
    AllOutputsSingles(before);
    assert runs[j].outputs == [];
  }

  /** In chunk mode, a run that ends without failure writes exactly one
      file per selected chunk file, in selection order, each at the chunk's
      path with "raw" replaced by "labels" and holding that chunk's arrays. */
  lemma ChunkRunsOnePerFile(files: seq<string>, saveFolder: string,
                            scansOf: string -> seq<ValidScan>, inv: map<int, int>)
    ensures var res := ChunkRuns(files, saveFolder, scansOf, inv);
      res.failure.None? ==>
        && |res.outputs| == |files|
        && forall j :: 0 <= j < |files| ==>
             res.outputs[j] == Output(AggregatePath(files[j]), LabelList(ProjectScans(scansOf(files[j]), inv).labels))
  {
    var runs := ChunkMains(files, saveFolder, scansOf, inv);
    forall k | 0 <= k < |files| {
      AggregateWrittenOnce(saveFolder, files[k], scansOf(files[k]), inv);
    }
    ChainOnePerRun(runs);
  }

  /** Chunk mode without a single matching chunk file writes nothing and
      fails with NoDataFound; a chunk mode run that succeeds writes one file
      per chunk of the latest timestamp. */
  lemma ChunkModeOutputs(demoFolder: string, saveFolder: string, matched: seq<string>,
                         scansOf: string -> seq<ValidScan>, inv: map<int, int>)
    ensures matched == [] ==>
              DemoRun(Chunked, demoFolder, saveFolder, matched, scansOf, inv) == RunResult([], Some(NoDataFound))
    ensures var res := DemoRun(Chunked, demoFolder, saveFolder, matched, scansOf, inv);
      res.failure.None? ==>
        && LatestDataNames(matched, ChunkPrefix).Ok?
        && |res.outputs| == |LatestDataNames(matched, ChunkPrefix).value| > 0
  {
    LatestDataNamesFails(matched, ChunkPrefix);
    var selected := LatestDataNames(matched, ChunkPrefix);
    if selected.Ok? {
      LatestDataNamesSelects(matched, ChunkPrefix);
      ChunkRunsOnePerFile(selected.value, saveFolder, scansOf, inv);
    }
  }
}
