# NOvA vertexer I/O manager, modelled in Dafny

This project models the two pieces of logic in the vertexer's I/O manager
(`utils/iomanager.py`) and proves properties about them.

- **Metadata resolver** (`IOManager.get_det_horn_and_flux_from_string`). It reads three things out of
  an identifying string such as a directory or file name:
  - the detector: `FD` or `ND`;
  - the horn polarity: `FHC` or `RHC`;
  - the flux configuration: `Fluxswap`, `Nonswap` or `Combined`.

  Each attribute comes from an ordered, first-match-wins, case-sensitive substring test. Where the
  original calls `exit()` because an attribute matched nothing, the model returns
  `Err(Unclassified(attribute, input))`, naming the attribute that failed. The resolver is a pure
  function (`MetadataResolver.Resolve`).
- **Dataset loader** (`load_data`). A directory is given as its listing: a sequence of entries, each
  a name plus a map from dataset name to that dataset's per-event values, standing for the HDF5
  file. The loader works in these steps:
  - It starts a field dictionary with seven core keys, plus three elastic-arms keys (`vtxEA.x`,
    `vtxEA.y`, `vtxEA.z`) when those are requested.
  - It skips every entry whose name does not end in `.h5`.
  - For each data file, it appends that file's chunk to every dictionary key the file holds.
  - It adds the length of the file's `cvnmap` to the event total and counts the file.

  The loader is imperative: `DatasetLoader.LoadData` and its loops are methods. They are proved
  against the specification function `DatasetLoader.Expected`, and the lemmas state what the source
  promises about that function.

Modules:
- `Outcomes` (outcomes.dfy) holds the `Option` and `Result` types.
- `Text` (text.dfy) holds Python's substring test `pat in s` as `Contains`, and `str.endswith` as
  `EndsWith`. Each one is related to an independent positional definition.
- `MetadataResolver` (resolver.dfy).
- `DatasetLoader` (loader.dfy).

## Model

| member | source | states |
|---|---|---|
| Text.Contains | utils/iomanager.py:86-112 | Python's `pat in s`, a left-to-right scan for a start position; the empty keyword is always found, and a found keyword is no longer than the string |
| Text.OccurrenceIsFound | utils/iomanager.py:86 | an occurrence of the keyword at any position makes the substring test true |
| Text.FoundIsOccurrence | utils/iomanager.py:86 | a true substring test has a position where the keyword occurs |
| Text.ContainsIff | utils/iomanager.py:86-89 | the substring test holds exactly when the keyword occurs at some position |
| Text.ContainsInConcat | utils/iomanager.py:86 | a keyword found in a part of a string is found in the whole string |
| Text.AbsentCharNotContained | utils/iomanager.py:86 | a keyword with a character the string lacks is not found in it |
| Text.EndsWith | utils/iomanager.py:43 | `str.endswith`: the last characters equal the suffix; every name ends with the empty suffix, and a matched suffix is no longer than the name |
| Text.EndsWithIff | utils/iomanager.py:43 | a name ends with a suffix exactly when it is some stem followed by that suffix |
| MetadataResolver.Names | utils/iomanager.py:119 | the returned strings lie in the fixed vocabularies {FD, ND}, {FHC, RHC} and {Fluxswap, Nonswap, Combined} |
| MetadataResolver.ResolveDetector | utils/iomanager.py:86-92 | a detector is reported only when its keyword occurs in the input |
| MetadataResolver.ResolveHorn | utils/iomanager.py:97-103 | a horn is reported only when its keyword occurs in the input |
| MetadataResolver.ResolveFlux | utils/iomanager.py:108-116 | a flux is reported only when its keyword occurs in the input |
| MetadataResolver.Resolve | utils/iomanager.py:77-119 | on success every returned component's keyword occurs in the input (no silent misclassification); a failure carries the input |
| MetadataResolver.ResolveSucceedsIff | utils/iomanager.py:84-119 | resolution succeeds exactly when each attribute has at least one of its keywords in the input |
| MetadataResolver.DetectorPrecedence | utils/iomanager.py:86-89 | FD exactly when "FD" occurs, even beside "ND"; ND exactly when "ND" occurs and "FD" does not |
| MetadataResolver.HornPrecedence | utils/iomanager.py:97-100 | FHC exactly when "FHC" occurs; RHC exactly when "RHC" occurs and "FHC" does not |
| MetadataResolver.FluxPrecedence | utils/iomanager.py:108-113 | Fluxswap over Nonswap over Combined: the first keyword present decides |
| MetadataResolver.FailureOrder | utils/iomanager.py:86-116 | the failure names the first unclassifiable attribute, in the order detector, horn, flux, and only then |
| MetadataResolver.ComponentsAreLocal | utils/iomanager.py:84-119 | each component depends only on which of its own keywords occur |
| MetadataResolver.ExtendingKeepsSuccess | utils/iomanager.py:84-119 | adding text around a resolvable string keeps it resolvable, keeps FD, FHC and Fluxswap, and never moves Nonswap to Combined |
| MetadataResolver.ExampleFarFluxswap | utils/iomanager.py:77-119 | "FD-FHC-Fluxswap-something" resolves to (FD, FHC, Fluxswap) |
| MetadataResolver.ExampleNearNonswap | utils/iomanager.py:77-119 | "ND_RHC_Nonswap_run2" resolves to (ND, RHC, Nonswap) |
| MetadataResolver.ExampleFarAndForwardWin | utils/iomanager.py:86-110 | with both keywords present, FD beats ND, FHC beats RHC |
| MetadataResolver.ExampleNonswapBeforeCombined | utils/iomanager.py:108-113 | with both present, Nonswap beats Combined |
| MetadataResolver.ExampleNoDetector | utils/iomanager.py:86-92 | "XX-FHC-Fluxswap" fails on the detector |
| MetadataResolver.ExampleNoFlux | utils/iomanager.py:108-116 | "FD-FHC-Unknown" fails on the flux |
| MetadataResolver.ExampleLowerCaseFails | utils/iomanager.py:84-116 | matching is case-sensitive: "fd-fhc-fluxswap" matches none of the seven keywords and fails on the detector |
| DatasetLoader.FirstUnreadable | utils/iomanager.py:54 | the position where the load stops lies within the listing |
| DatasetLoader.IsDataFile | utils/iomanager.py:43 | an entry is a data file exactly when its name is some stem followed by `.h5` |
| DatasetLoader.FirstUnreadableIsFirst | utils/iomanager.py:42-54 | every data file before the stopping point has `cvnmap`, and the data file at it does not |
| DatasetLoader.ReadableIff | utils/iomanager.py:54 | the load runs to the end exactly when no data file lacks `cvnmap` |
| DatasetLoader.ReadablePast | utils/iomanager.py:43-54 | an entry that is skipped or readable does not stop the load |
| DatasetLoader.StopsAt | utils/iomanager.py:54 | a data file without `cvnmap` that the load reaches is where it stops |
| DatasetLoader.Processed | utils/iomanager.py:42-45 | the first n entries contribute at most n files |
| DatasetLoader.Chunks | utils/iomanager.py:57-59 | a field gets at most one chunk per file |
| DatasetLoader.TotalLength | utils/iomanager.py:54-61 | the `total_events` accumulation: the summed lengths of the chunks, at least the length of each one, and zero exactly when every chunk is empty |
| DatasetLoader.AppendChunks | utils/iomanager.py:57-59 | the closed form of the inner loop: the same keys, each key's chunks extended at the end by the file's chunk when the file holds the key; every old list is a prefix of the new one and grows by at most one chunk |
| DatasetLoader.AppendChunksGrows | utils/iomanager.py:57-59 | one file removes no key and no chunk: a field the file holds gains exactly the file's chunk at the end, and other fields are unchanged |
| DatasetLoader.NewFieldSet | utils/iomanager.py:24-37 | the initial dictionary has the seven core keys plus the three `vtxEA.*` keys when requested, all empty |
| DatasetLoader.AppendFile | utils/iomanager.py:57-59 | the inner loop leaves the dictionary as one file's append step |
| DatasetLoader.FieldNamesDistinct | utils/iomanager.py:24-37 | no dictionary key is repeated |
| DatasetLoader.FileStep | utils/iomanager.py:54-63 | one more data file appends its chunks and adds its `cvnmap` length to the event total |
| DatasetLoader.LoadData | utils/iomanager.py:18-69 | success exactly when no data file lacks `cvnmap`, and then the result is the specification `Expected`; otherwise the error names the first such file |
| DatasetLoader.Expected | utils/iomanager.py:18-69 | the specification of a complete load: the requested fields, each with one chunk per `.h5` file holding it, in listing order; the summed `cvnmap` lengths; the number of `.h5` files. Its keys are exactly the requested fields, there are no more files than entries, and no field has more chunks than there are files |
| DatasetLoader.ReadListing | utils/iomanager.py:39-69 | the directory loop, from an empty dictionary, yields `Expected`'s chunks and totals or stops at the first unreadable data file |
| DatasetLoader.ProcessedMembership | utils/iomanager.py:42-45 | among the first n entries, exactly the `.h5` ones are processed |
| DatasetLoader.DataFilesMembership | utils/iomanager.py:42-45 | an entry is processed exactly when it is listed and its name ends in `.h5` |
| DatasetLoader.ProcessedCount | utils/iomanager.py:42-63 | the number of processed files is the number of `.h5` positions |
| DatasetLoader.FilesAreDataEntries | utils/iomanager.py:42-63 | `total_files` is the number of entries whose name ends in `.h5` |
| DatasetLoader.ProcessedPrefix | utils/iomanager.py:42-45 | what has been processed depends only on the entries seen so far |
| DatasetLoader.ProcessedConcat | utils/iomanager.py:42-45 | processing a listing that is followed by more entries first yields all the data files of the listing |
| DatasetLoader.DataFilesConcat | utils/iomanager.py:42-45 | the data files of two listings in sequence are those of the first, then those of the second |
| DatasetLoader.ChunksConcat | utils/iomanager.py:57-59 | chunks are collected in file order: two runs of files give the chunks of the first, then those of the second |
| DatasetLoader.TotalLengthConcat | utils/iomanager.py:61 | event counts add up over consecutive chunks |
| DatasetLoader.ChunksOfCompleteFiles | utils/iomanager.py:57-59 | a field that every file holds gets exactly one chunk per file |
| DatasetLoader.AppendOnly | utils/iomanager.py:42-63 | loading one listing after another extends each field's chunks and adds the totals; nothing is removed |
| DatasetLoader.NonDataEntryIgnored | utils/iomanager.py:43-45 | an entry not ending in `.h5` changes neither the dictionary, the counters nor whether the load succeeds |
| DatasetLoader.NoDataFilesLoadsNothing | utils/iomanager.py:24-45 | a listing without `.h5` entries yields the requested keys with no chunk, zero events and zero files |
| DatasetLoader.KeysExact | utils/iomanager.py:24-37 | the result's keys are exactly the seven core keys, plus the `vtxEA.*` keys if and only if they were requested |
| DatasetLoader.OneEventChunkPerFile | utils/iomanager.py:54-61 | `cvnmap` holds one chunk per data file, and `total_events` is the sum of those chunks' lengths |

## Left out

- Reading HDF5 files (`h5py.File`, line 50) is not modelled. Each file is an in-memory map from dataset
  name to its sequence of per-event values. All datasets share one abstract element type. The shape
  of each event's value is not modelled.
- A `.h5` entry that cannot be opened as HDF5 is not modelled. For example, a directory named `x.h5`,
  or a corrupt file: the original raises in `h5py`.
- A data file without `cvnmap` makes the original raise `KeyError` at line 54, which ends the load.
  The model returns `Err(MissingPrimaryField(name))` for the first such file instead.
- `os.listdir` is not modelled. The listing, in whatever order the file system yields it, is an
  input to `LoadData`.
- All `print` output is not modelled. This includes progress, the keys of the first file and the
  resolver's diagnostics.
- `print_memory_usage` (`psutil`, clock) and the `USER` environment lookup (lines 11-16) are not
  modelled: they are foreign calls and environment access.
- The `IOManager.__init__` stub (lines 73-74) is not modelled. It only stores its argument.
- `exit()` is not modelled. It ends the process, and the model returns an error value naming the
  unclassified attribute instead.
- The docstring speaks of `upper()` and `capitalize()`. The code applies neither: it returns the
  literal keywords, and the model follows the code.
- The plotting script (`Far-Detector/analysis/plot_1d_vertex_resolutions.py`) is not part of this
  model: it is floating-point statistics and presentation.
- The model-conversion script (`Far-Detector/analysis/converting_h5_model_to_pb_model.py`) is not
  part of this model: it wraps TensorFlow and file-system path handling.
