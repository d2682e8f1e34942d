# Cylinder3D demo inference: chunk selection, label back-projection, result sink

This project models the orchestration core of `demo_folder.py`, the script that
runs a trained Cylinder3D segmentation model over a folder of LiDAR scans. It
proves properties of that model in Dafny. Three pieces are modelled:

- **Chunk selection** (`get_latest_data_names`). From the names the directory
  listing matched, the script keeps those carrying the most recent timestamp.
  The timestamp is the second `_`-separated field of the text between the
  first and the second occurrence of the prefix (or the end of the name). The names are sorted with Python's `sorted`, the timestamps are
  de-duplicated with `set`, and the last one in string order is selected. A
  name is kept when the timestamp occurs in it as a substring.
  - Module `ChunkSelection`.
  - It builds on `StringOrder` (Python `str` ordering, `sorted`, `set`) and on
    `StrSplit` (`in`, `split`, `replace`).
- **Label back-projection** (lines 126-128).
  - Each point gets the class predicted for its voxel.
  - `learning_map_inv` remaps that class; a class without an entry is a
    `KeyError`.
  - The result is cast to `uint32` and masked with `0xFFFF`.
  - Module `LabelProjection`.
- **Result sink** (lines 81, 109, 131-138) and the driver (lines 149-158).
  - With `INFER_KITTI` set, the script saves each scan's labels under a
    sequential zero-padded name.
  - Otherwise it collects the arrays and pickles the list once. The target is
    the input path with every `raw` replaced by `labels`.
  - The driver runs `main` on the demo folder, or on every selected chunk file
    in turn.
  - Modules `ResultSink` (the class `Sink` holds `label_list`, the loop counter
    and the files written) and `Demo`, with `DecimalFormat` for `06d`.

Things that are inputs to the model rather than part of it:

- `INFER_KITTI` is a `Mode` value.
- The file system listing is the list of names it returned.
- The data loader plus the forward pass and `argmax` are a function from an
  input unit (folder or chunk file) to its scans. Each scan is a voxel
  prediction volume plus each point's voxel coordinates.
- `learning_map_inv` is a `map<int, int>`.

Every exception the modelled lines can raise is an `Error` value. Exceptions
raised outside them (listed under "## Left out") are not modelled:

| Error | Python exception | Raised when |
|---|---|---|
| `NoDataFound` | `IndexError` | `[-1]` is taken on an empty list |
| `MalformedName` | `IndexError` | `[1]` is taken on a split that has too few parts |
| `EmptySeparator` | `ValueError` | `split("")` is called |
| `EmptyScan` | `ValueError` | `np.vectorize` is called on a size-0 input |
| `UnknownLabel` | `KeyError` | a class has no entry in `learning_map_inv` |

A failure ends the whole run. Files already saved stay written, and a
`label_list` that was not yet pickled is lost.

Two behaviours of the code differ from what it appears to intend:

- **Saved file names.** The f-string at line 132 builds a name ending in
  `.label`. The code passes that name to `np.save`, which appends `.npy` to a
  name that does not already end in it, so the files written are
  `<index>.label.npy` (`SavePath`, `LabelSavePath`).
- **Scans without points.** Lines 126-128 produce one label per point. For a
  scan with no points, `np.vectorize` without `otypes` raises `ValueError`
  instead of giving an empty array (`ProjectSpec`: `Err(EmptyScan)` exactly
  for an empty scan).

## Model

| member | source | states |
|---|---|---|
| StringOrder.LessEqTotal | demo_folder.py:31-32 | Any two strings are comparable in Python's string order |
| StringOrder.LessEqAntisymmetric | demo_folder.py:31-32 | Two strings each `<=` the other are equal |
| StringOrder.LessEqTransitive | demo_folder.py:31-32 | Python's string order is transitive |
| StringOrder.InsertSorted | demo_folder.py:31 | Inserting into an ascending list keeps it ascending and adds exactly that element |
| StringOrder.SortStringsSorted | demo_folder.py:31 | `sorted` returns an ascending list |
| StringOrder.SortStringsPermutes | demo_folder.py:31 | `sorted` returns a permutation of its input (same multiset) |
| StringOrder.SortStringsSameNames | demo_folder.py:31 | `sorted` keeps the length and exactly the input's names |
| StringOrder.SortedUnique | demo_folder.py:31-32 | Two ascending orderings of the same multiset are equal, so the sorted order does not depend on the listing order |
| StringOrder.Distinct | demo_folder.py:32 | `list(set(...))` holds exactly the input's names, each once |
| StrSplit.Find | demo_folder.py:32 | The result is the leftmost occurrence of the separator at or after the start, or none when there is none |
| StrSplit.SplitCount | demo_folder.py:32 | `split` yields at least one piece, and exactly one iff the separator does not occur |
| StrSplit.SplitJoin | demo_folder.py:32 | Joining the pieces of `split` with the separator gives back the string |
| StrSplit.SplitPiecesAvoidSep | demo_folder.py:32 | No piece of a split contains the separator |
| StrSplit.SplitPieceInString | demo_folder.py:32 | Every piece of a split is a substring of the string split |
| StrSplit.ContainsTransitive | demo_folder.py:33 | A substring of a substring is a substring |
| StrSplit.ReplaceAllAbsent | demo_folder.py:137 | `replace` leaves a string without the pattern unchanged |
| StrSplit.ReplaceAllGrows | demo_folder.py:137 | Replacing an occurring pattern by a longer string gives a longer string |
| StrSplit.ReplaceAllRemoves | demo_folder.py:137 | After `replace`, the pattern no longer occurs when the replacement cannot recreate it (as with "raw" to "labels") |
| DecimalFormat.DecimalSpec | demo_folder.py:132 | The decimal spelling is all digits, non-empty, reads back as the number, has one digit iff n < 10, and has no leading zero for n > 0 |
| DecimalFormat.ZeroPad6Shape | demo_folder.py:132 | `06d` gives at least six digits, all digits, and exactly six below 10^6. From 10^6 on it is the plain decimal spelling, with no leading zero |
| DecimalFormat.ZeroPad6RoundTrip | demo_folder.py:132 | Reading a `06d` spelling back gives the number |
| DecimalFormat.ZeroPad6Injective | demo_folder.py:132 | Different counters give different `06d` spellings |
| ChunkSelection.Timestamps | demo_folder.py:32 | The comprehension succeeds iff every name yields a timestamp. Then it gives each name's timestamp in order; otherwise it gives the error of the first name that does not |
| ChunkSelection.TimestampInName | demo_folder.py:32-33 | An extracted timestamp is a substring of its name, so the name carrying it is selected |
| ChunkSelection.TimestampFails | demo_folder.py:32 | Extraction fails with `EmptySeparator` iff the prefix is empty, and otherwise fails iff the prefix is absent or is not followed by a second `_` field |
| ChunkSelection.LatestIsGreatest | demo_folder.py:32 | `sorted(set(ts))[-1]` fails iff there is no timestamp. Otherwise it is one of the timestamps and `>=` all of them |
| ChunkSelection.SelectSpec | demo_folder.py:33 | The filter keeps exactly the names containing the timestamp, in order (a subsequence), with every copy of each, and keeps an ascending list ascending |
| ChunkSelection.SelectCounts | demo_folder.py:33 | Each name containing the timestamp keeps its number of copies, and every other name has none |
| ChunkSelection.LatestDataNamesFails | demo_folder.py:30-33 | The result is `NoDataFound` iff nothing matched. It succeeds iff something matched and every name yields a timestamp. Any other failure is the error of a matched name |
| ChunkSelection.SelectedTimestampIsGreatest | demo_folder.py:30-33 | The selected timestamp is `>=` every matched name's timestamp and is carried by some matched name |
| ChunkSelection.LatestDataNamesSelects | demo_folder.py:30-33 | The result holds a name iff it matched and contains the selected timestamp. It is ascending, a subsequence of the sorted names, and non-empty |
| LabelProjection.Remap | demo_folder.py:127 | Remapping succeeds iff every class has an entry, giving one mapped value per class in order. Otherwise it fails with the first class that has no entry |
| LabelProjection.MaskKeepsLow16 | demo_folder.py:128 | `astype('uint32') & 0xFFFF` equals the value modulo 2^16, is below 2^16, and leaves a value in [0, 65535] unchanged |
| LabelProjection.EncodeSpec | demo_folder.py:128 | Encoding keeps the length and maps each label to itself modulo 2^16 |
| LabelProjection.ProjectSpec | demo_folder.py:126-128 | An empty scan fails with `EmptyScan`. Otherwise the scan succeeds iff every point's voxel class has an entry, giving one label per point in point order, equal to the remapped class modulo 2^16; else it fails with the first unmapped class in point order |
| LabelProjection.ProjectedLabelsFit | demo_folder.py:127-128 | Every written label is in [0, 2^16), and equals the remapped class when that is already in range |
| LabelProjection.SharedVoxelSameLabel | demo_folder.py:127 | Points in the same voxel get the same label |
| LabelProjection.SingleVoxelScan | demo_folder.py:126-128 | A 4x4x2 grid whose voxel (0,0,0) predicts 1, the map {0:0, 1:10, 2:20}, and three points in that voxel give [10, 10, 10] |
| ResultSink.ProjectScansSpec | demo_folder.py:113-128 | The scan loop produces, in order, the projection of each scan up to the first failing one. It stops at that failure or covers every scan |
| ResultSink.ProjectScansDetermined | demo_folder.py:113-128 | That prefix characterisation has exactly one solution: the loop's outcome |
| ResultSink.Sink.constructor | demo_folder.py:109 | A new sink has an empty `label_list`, no files written, counter 0, and `save_dir` equal to the save folder plus "/" (line 81) |
| ResultSink.Sink.Store | demo_folder.py:131-134 | In per-scan mode, one file is added at the counter's sequential name and `label_list` is unchanged. In aggregate mode, the array is appended to `label_list` and no file is written. The counter advances in both |
| ResultSink.Sink.Flush | demo_folder.py:136-138 | In aggregate mode, exactly one file is added: the whole `label_list` at the input path with `raw` replaced by `labels`. In per-scan mode nothing is written |
| ResultSink.RunMain | demo_folder.py:109-138 | `main`'s scan loop writes exactly what `MainRun` prescribes: per-scan files for every scan before a failure, or the pickled list only when no scan failed |
| ResultSink.LabelFileNamesDistinct | demo_folder.py:132 | Different counters give different file names |
| ResultSink.LabelSavePath | demo_folder.py:132 | `np.save` writes a per-scan name with ".npy" appended |
| ResultSink.PerScanFilesSequential | demo_folder.py:131-132 | In per-scan mode, file k is `save_dir + 06d(k) + ".label.npy"` with scan k's projection. Files are numbered without gaps and pairwise distinct, and all scans are written when none fails |
| ResultSink.AggregateWrittenOnce | demo_folder.py:136-138 | In aggregate mode, at most one file is written, and one iff no scan failed. It holds one array per scan in order at `data_dir.replace("raw", "labels")`. That path has no "raw", and it differs from the input path when the input path has one |
| Demo.RunChunks | demo_folder.py:154-158 | The loop over chunk files writes exactly what `ChunkRuns` prescribes: each file's run in order, stopping at the first failure |
| Demo.RunDemo | demo_folder.py:149-158 | The driver writes what `DemoRun` prescribes. In folder mode that is one `main` on the demo folder. In chunk mode it is the selection, then `main` per selected file |
| Demo.ChainFails | demo_folder.py:154-158 | A chain of `main` runs fails iff one of its runs fails |
| Demo.ChainStopsAt | demo_folder.py:154-158 | When run j fails first, the chain keeps every file the earlier runs wrote, then run j's files, and ends with run j's error. No later run takes place |
| Demo.AllOutputsSingles | demo_folder.py:154-158 | Runs that each wrote one file wrote, together, exactly those files in run order |
| Demo.ChunkRunsStopAtFailure | demo_folder.py:136-158 | When chunk j is the first whose scans fail, the run ends with that error after exactly one file per earlier chunk, each at its replaced path holding its arrays. Chunk j's list is not written |
| Demo.ChainOnePerRun | demo_folder.py:154-158 | A chain of runs that each write one file on success ends without failure only if every run succeeded, and then it wrote their files in order |
| Demo.ChunkRunsOnePerFile | demo_folder.py:152-158 | A chunk-mode run without failure writes exactly one file per selected chunk, in order. Each is at the chunk's path with "raw" replaced by "labels" and holds that chunk's arrays |
| Demo.ChunkModeOutputs | demo_folder.py:151-158 | Chunk mode with no matching file writes nothing and fails with `NoDataFound`. A successful chunk-mode run writes one file per selected chunk, and at least one |

## Left out

- File system and serialization:
  - The `glob` call is not modelled (line 31). The names it matched are an input, and the model does not check them against the pattern.
  - The byte formats written by `np.save` and `pickle.dump` are not modelled, and neither is opening files.
  - A write that fails (an `IOError`) is not modelled.
  - `print` calls are not modelled.
- Model and data pipeline:
  - The device, checkpoint loading and model construction are not modelled (lines 77, 84-100).
  - The dataset and voxelization (`build_dataset`, lines 37-74, and line 102) are a parameter: the loader function from an input unit to its scans.
  - The forward pass and `argmax` (lines 117-125) are part of that parameter. Each scan arrives with its per-voxel class volume already computed.
  - Floating-point scores are not modelled.
- Configuration:
  - YAML loading (lines 79-80, 103-105) is an input; `learning_map_inv` arrives as a map. Errors from reading or parsing the configuration are not modelled.
  - Label names and `unique_label` (lines 92-94) are not used by the core.
  - Argument parsing is not modelled (lines 141-147).
- The loader's batch size is fixed at 1 (line 69), so the inner `enumerate(demo_grid)` visits one scan per loader step. The model has one scan per loop iteration.
- Voxel indices are assumed inside the grid (the subset type `ValidScan`), as the data loader guarantees. numpy's wrap-around of negative indices and its `IndexError` for out-of-range ones are not modelled.
- Remapped values are unbounded integers. The model ignores numpy overflow of the intermediate integer array before the `uint32` cast, and assumes a map value outside the `int64` range (an `OverflowError` in numpy) never occurs.
- The driver always passes "raw_chunk", so `EmptySeparator` cannot arise from the script itself. It is modelled for completeness of `split`.
