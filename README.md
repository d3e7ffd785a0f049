# CortadorSHP_GDB in Dafny

A model of the two tools in the CortadorSHP_GDB repository, with proofs about them.

- **The clipping script** (`CortadorOptimizadoV5Final.py`) clips every feature class of a
  file geodatabase to a boundary shapefile. It writes the results into a new geodatabase
  named `CartoBase_N.gdb`:
  - it creates a feature dataset in the output only once one of its layers intersects the
    boundary;
  - it deletes clipped layers that come out empty;
  - it removes the two editing-template tables the engine creates.
- **The "Leame" report scripts** write a project-folder report, in five copies:
  - `LeameAnlaV1Carpetas.py`, `LeameAnlaFeatures.py`, `LeameAnlaV3Campos.py`;
  - the refactors `explorador.py` and `ojos.py` + `manos.py`.

  The report is a box-drawing tree of each top-level folder (`listar_contenido`), under a
  numbered, described header (`generar_arbol_principal`). Two scripts also inspect the
  project's geodatabases:
  - `LeameAnlaFeatures.py` groups the feature classes that have no rows;
  - `LeameAnlaV3Campos.py` lists the fields that hold no value, with a justification text
    per item.

The ArcGIS engine (arcpy) and the filesystem are values here:

- a directory is an `Entry` tree whose nodes carry how listing them ends (readable, denied,
  another OS error);
- the input geodatabase carries, for every engine call the script inspects, its result or
  its failure;
- the output geodatabase is an object (`Cortador.OutputGdb`) whose datasets, items and log of
  write calls change call by call.

Exceptions are a `Result` (`Ok`/`Err`) or an `Option`, and a `try`/`except` becomes a
branch on it.

Modules:

- **Common**: `Option`, `Result`, and `Then`, which sequences line-producing steps.
- **Text**: the Python string operations used:
  - `lower`/`upper`, `os.path.splitext`, `endswith`;
  - the `in` substring test, `split('_')[0]`;
  - `str(int)`, and string order.
- **DirTree**: `listar_contenido`, written once over a `Style` record. The record holds the
  four points where the copies differ: the sort key, the filter, link following, and the
  OSError line.
- **FolderReport**: `generar_arbol_principal`, over a `ReportStyle`, which holds the
  description lookup and the failure handling at the project folder.
- **Per-script modules**: `LeameV1Carpetas`, `LeameAnlaFeatures`, `LeameV3Campos`,
  `Explorador`, `Ojos`, `Manos`. Each fixes the style of its script and proves how it
  differs from the others.
- **GdbClip**: the clipping script as functions of the engine state, with the lemmas about
  them.
- **Cortador**: the script's loops as methods, with `OutputGdb` as a class. Each method is
  proved to leave the state the GdbClip functions give.
- **FieldAudit**: `analizar_campos`, `listar_aclaraciones` and the justification choice from
  `LeameAnlaV3Campos.py`.
- The empty-feature-class grouping from `LeameAnlaFeatures.py` main is in
  `LeameAnlaFeatures`.

## Model

| member | source | states |
|---|---|---|
| DirTree.ListContents | Leame/LeameAnlaV1Carpetas.py:17-54 | the recursive listing method returns exactly the lines (or the exception) of the `Listing` specification |
| DirTree.RenderEntries | Leame/LeameAnlaV1Carpetas.py:35-53 | the rendering loop over the kept entries produces the specified lines, descending where the rules allow |
| DirTree.FilterEntries | Leame/LeameAnlaV1Carpetas.py:25-33 | the filtering loop keeps exactly the entries the style's filter keeps, in order |
| DirTree.UnreadableOneLine | Leame/LeameAnlaV1Carpetas.py:19-22 | an unreadable directory gives the single line `prefix + "└── [Sin permisos]"`; any other listing error gives an `[Error: …]` line or propagates, depending on the copy |
| DirTree.ShownSpec | Leame/LeameAnlaV1Carpetas.py:24-33 | the shown entries are sorted by the copy's key and are, with multiplicity, exactly the children the filter keeps |
| DirTree.SortSorted | Leame/LeameAnlaV1Carpetas.py:24 | the sort yields an ordered sequence (and, by its contract, a permutation of the input) |
| DirTree.FilterCount | Leame/LeameAnlaV1Carpetas.py:26-33 | an entry survives the filter as often as it occurs if kept, and not at all otherwise |
| DirTree.ListingPrefixed | Leame/LeameAnlaV1Carpetas.py:39-53 | every line a listing returns starts with the prefix it was given, at every depth |
| DirTree.ListingBranchLines | Leame/LeameAnlaV1Carpetas.py:35-53 | the lines with a branch right after the prefix are exactly one per shown entry, in order, with `└── ` on the last only and `├── ` on all others; the listing is each entry's line followed by that entry's whole listing when it is descended (which then raises nothing) and by nothing otherwise, and those lines all start with the prefix plus `│   `, or `    ` under the last entry |
| DirTree.ListingFlat | Leame/LeameAnlaV1Carpetas.py:42-51 | when no shown entry is descended, the listing is exactly one line per shown entry |
| DirTree.NoRecursionOneLevel | Leame/LeameAnlaV1Carpetas.py:50-53 | `no_recursion` lists one level only (recursive calls reset the flag, so it affects that level alone) |
| FolderReport.FindDescription | Leame/LeameAnlaV1Carpetas.py:68-73 | the description loop with `break` returns the first key's text (dictionary order) contained in the upper-cased name |
| FolderReport.SubstringDescriptionSpec | Leame/LeameAnlaV1Carpetas.py:69-73 | a description is found iff some key occurs in the upper-cased name, and it is the first such key's text |
| FolderReport.HeadDescriptionSpec | Leame/LeameAnlaV3Campos.py:50 | the exact lookup finds a description iff the text before the first `_` of the upper-cased name is a key, and then it is that key's text |
| FolderReport.GenerateMainTree | Leame/LeameAnlaV1Carpetas.py:56-85 | the report method returns exactly the `Report` specification: the root failure handling of the copy, or one block per top-level folder |
| FolderReport.FolderHead | Leame/LeameAnlaV1Carpetas.py:63-77 | a folder's block starts with `""`, `├── *i. name*`, then the three description lines only when a description exists |
| FolderReport.RenderFolders | Leame/LeameAnlaV1Carpetas.py:62-84 | the per-folder loop concatenates the blocks of all folders in order, the first exception winning |
| FolderReport.ReportHeaders | Leame/LeameAnlaV1Carpetas.py:62-66 | the top-level lines of a report are exactly `├── *1. a*`, `├── *2. b*`, … over the sorted folders, numbered consecutively from 1 |
| FolderReport.FoldersSpec | Leame/LeameAnlaV1Carpetas.py:59-60 | the report's folders are sorted and are exactly the directories among the project folder's entries |
| FolderReport.AprxOneLevel | Leame/LeameAnlaV1Carpetas.py:81-84 | a folder named APRX (any case) is listed one level deep under the prefix `"    "` |
| LeameV1Carpetas.FilterOnlyFiles | Leame/LeameAnlaV1Carpetas.py:26-33 | only regular files with an excluded extension are dropped; directories such as `x.gdb` are always kept |
| LeameV1Carpetas.DescentRule | Leame/LeameAnlaV1Carpetas.py:42-51 | a directory is descended iff recursion is on and its name neither ends in `.gdb` nor equals `shp` (case-insensitive); links are followed |
| LeameV3Campos.FilterDiffersOnOtherKinds | Leame/LeameAnlaV3Campos.py:26 | an entry that is neither file nor directory with an excluded extension is dropped here but kept by the first script |
| LeameV3Campos.FilterAgreesOnFilesAndDirs | Leame/LeameAnlaV3Campos.py:26 | on files and directories the two filters agree |
| LeameV3Campos.HeadLookupImpliesSubstring | Leame/LeameAnlaV3Campos.py:50 | whenever the exact-key lookup finds a description, the substring lookup finds one too |
| LeameV3Campos.LookupsDisagreeOnAprx | Leame/LeameAnlaV3Campos.py:50 | for `APRX_GDB` the exact lookup gives the APRX text and the substring lookup the GDB text |
| LeameV3Campos.LookupsDisagreeOnUnknownHead | Leame/LeameAnlaV3Campos.py:50 | for `MIS_GDB` only the substring lookup finds a description |
| Explorador.LinksNotFollowed | Leame/Refactor/ChatGPTo3Mini/explorador.py:43-50 | a symbolic link to a directory is never descended here, where the first script follows it |
| Explorador.LinkedDirsListedFlat | Leame/Refactor/ChatGPTo3Mini/explorador.py:43-50 | a directory whose shown subdirectories are all links is listed one line per entry |
| Explorador.CaseFoldOrder | Leame/Refactor/ChatGPTo3Mini/explorador.py:24 | entries are ordered by lower-cased name: `a` before `B` here, after it in code-point order |
| Explorador.RootFailure | Leame/Refactor/ChatGPTo3Mini/explorador.py:64-68 | a permission error on the project folder gives exactly `["[Sin permisos en la carpeta madre]"]`; another error propagates |
| Ojos.OsErrorBecomesLine | Leame/Refactor/Grok/ojos.py:18-23 | an OSError other than a denied permission yields the single line `prefix + "└── [Error: msg]"`, where the first script raises |
| Ojos.ListingNeverRaises | Leame/Refactor/Grok/ojos.py:5-43 | this listing never raises, at any depth |
| Manos.RootErrorLine | Leame/Refactor/Grok/manos.py:17-23 | any OSError on the project folder, a denied permission included, gives exactly one `Error al acceder a <path>: <msg>` line |
| Manos.ReportNeverRaises | Leame/Refactor/Grok/manos.py:6-41 | the whole report never raises |
| LeameAnlaFeatures.CollectEmpty | Leame/LeameAnlaFeatures.py:104-107 | the feature-class loop records the classes specified by `EmptyClasses`, or fails like the calls do |
| LeameAnlaFeatures.ScanOne | Leame/LeameAnlaFeatures.py:100-120 | one geodatabase's scan (root classes, then each dataset) gives the specified grouping or the failure |
| LeameAnlaFeatures.FindEmptyFeatureClasses | Leame/LeameAnlaFeatures.py:96-126 | the loop over the GDB folder builds exactly the specified map |
| LeameAnlaFeatures.EmptyClassesSpec | Leame/LeameAnlaFeatures.py:104-107 | the scan succeeds iff every count works and every empty class can be described; it records exactly the classes whose count printed `'0'`, each with its alias or else its name |
| LeameAnlaFeatures.DatasetGroupsSpec | Leame/LeameAnlaFeatures.py:112-120 | when the scan succeeds, every recorded dataset has a non-empty group, equal to the empty feature classes of a listed dataset of that name, and every dataset with an empty feature class is recorded |
| LeameAnlaFeatures.EmptyReportSpec | Leame/LeameAnlaFeatures.py:96-126 | a geodatabase is recorded iff it is a `.gdb` directory whose scan raises nothing and finds an empty class at its root or in a dataset; a failing one is skipped without affecting the others |
| LeameAnlaFeatures.RecordedDatasetsHaveEmpty | Leame/LeameAnlaFeatures.py:119-123 | every dataset of a recorded geodatabase lists at least one empty feature class |
| FieldAudit.AnalyzeFields | Leame/LeameAnlaV3Campos.py:60-75 | `analizar_campos` returns the two lists of the `Analysis` specification |
| FieldAudit.ScanFields | Leame/LeameAnlaV3Campos.py:66-74 | the field loop returns the lists of the `Scan` specification: each readable field goes to the list its values call for, and a raising cursor ends the loop |
| FieldAudit.Analyzable | Leame/LeameAnlaV3Campos.py:65 | the fields looked at are exactly the fields that are neither Geometry nor OID |
| FieldAudit.ScanFilters | Leame/LeameAnlaV3Campos.py:66-71 | when every column reads, the lists are the fields with some value and the fields with none, each in field order |
| FieldAudit.KeepPartition | Leame/LeameAnlaV3Campos.py:66-71 | then every field lands in exactly one list, according to whether all its values (possibly none) are None |
| FieldAudit.ScanStopsAtFailure | Leame/LeameAnlaV3Campos.py:64-74 | a failing read keeps the lists built from the fields before it |
| FieldAudit.AnalysisSound | Leame/LeameAnlaV3Campos.py:65-71 | a reported field is never Geometry or OID, and it is in the "no data" list only when all its values are None |
| FieldAudit.ListClarifications | Leame/LeameAnlaV3Campos.py:77-111 | `listar_aclaraciones` returns the specified entries |
| FieldAudit.ScanGdb | Leame/LeameAnlaV3Campos.py:82-108 | one geodatabase adds its dataset entries and then its "Tablas" entry, and reports whether an exception ended the scan |
| FieldAudit.ScanDatasets | Leame/LeameAnlaV3Campos.py:86-96 | the feature-dataset loop appends, per dataset in order, one "FeatureClass" entry when some class has an empty field, and stops at the first dataset whose listing raises |
| FieldAudit.EmptyItemsOf | Leame/LeameAnlaV3Campos.py:91-95 | the item loop keeps exactly the items with an empty field, with those fields |
| FieldAudit.FolderEntriesStop | Leame/LeameAnlaV3Campos.py:108-110 | once an exception ends the scan, later geodatabases contribute nothing |
| FieldAudit.GdbEntriesShape | Leame/LeameAnlaV3Campos.py:96-107 | a geodatabase contributes its dataset entries first and at most one "Tablas" entry, last |
| FieldAudit.ClarificationsShape | Leame/LeameAnlaV3Campos.py:80-107 | every entry comes from a `.gdb` entry and has items, each with at least one empty field, and is a dataset's feature classes or a geodatabase's "Tablas" |
| FieldAudit.JustificationSpec | Leame/LeameAnlaV3Campos.py:143-146 | the "no aplican" text iff the item name contains `UsosyUsuariosRecursoHidrico`, `Vertimiento` or `Captacion`, the default text otherwise |
| GdbClip.ChecksComplementary | CortadorOptimizadoV5Final.py:43-60 | `has_intersection` is true iff the count is positive, `is_empty` iff it is zero, and a failure makes the first false and the second true |
| GdbClip.AllDatasetsOrder | CortadorOptimizadoV5Final.py:32-41 | every listed dataset appears at its place, immediately followed by its sub-datasets, so a non-empty listing yields at least one name |
| GdbClip.FoldItems | CortadorOptimizadoV5Final.py:91-108 | on an output that does not hold these layers yet, a layer's output exists afterwards iff the output may be written (root, or a dataset that exists or can be created) and the layer passed the test, was clipped, and was counted non-empty or its delete raised; nothing else is added or removed |
| GdbClip.FoldCreateBeforeClip | CortadorOptimizadoV5Final.py:128-146 | in a dataset's layer loop, every clip call comes after a creation call of that dataset made by the same loop, and `dataset_has_data` ends set only after such a call |
| GdbClip.FoldLog | CortadorOptimizadoV5Final.py:129-151 | the loop only appends write calls: a clip only for a layer that passed the test, a delete only for a clipped layer counted empty, a creation only in a dataset with a passing layer |
| GdbClip.FoldClipCount | CortadorOptimizadoV5Final.py:94-99 | each layer that passes the test (and whose dataset can be created) is clipped exactly once, every other layer never |
| GdbClip.FoldCreateCount | CortadorOptimizadoV5Final.py:136-139 | the number of creation calls for a dataset: none without a passing layer; with one, exactly one when creation works and one per passing layer when it fails |
| GdbClip.FoldCreated | CortadorOptimizadoV5Final.py:128-139 | the `dataset_has_data` flag ends set iff a passing layer created the dataset |
| GdbClip.FoldDatasets | CortadorOptimizadoV5Final.py:136-139 | a layer loop adds its dataset to the output exactly when it creates it |
| GdbClip.FoldFrame | CortadorOptimizadoV5Final.py:129-151 | a layer loop leaves every item other than its own layers' outputs untouched |
| GdbClip.DatasetFoldEffect | CortadorOptimizadoV5Final.py:118-157 | the dataset loop adds exactly the datasets that exist, are describable, can be created and have a passing layer, and never touches root items |
| GdbClip.ClipAllEffect | CortadorOptimizadoV5Final.py:84-162 | after `clip_layers`, the created datasets are exactly those above (kept even if all their clipped layers are pruned), and a root layer's output exists iff it survives its clip |
| GdbClip.ClipAllNested | CortadorOptimizadoV5Final.py:113-157 | after `clip_layers`, for a dataset listed at most once, with distinctly named layers and no output of its own yet, the output of its layer `n` exists iff the dataset is listed, exists, is describable and can be created, and a layer `n` passed the test, was clipped and was counted non-empty or its delete raised |
| GdbClip.DeleteTemplatesEffect | CortadorOptimizadoV5Final.py:72-82 | only the two template tables are deleted, each only if present and only by delete calls; with none raising, neither remains; nothing else changes |
| GdbClip.DeleteTemplatesStops | CortadorOptimizadoV5Final.py:74-82 | when a present template's delete raises, the templates before it that were present are gone, it and every later one remain, and its delete is the last call made |
| GdbClip.CandidateInjective | CortadorOptimizadoV5Final.py:65-67 | different counters give different `CartoBase_N.gdb` paths |
| GdbClip.TriedGrows | CortadorOptimizadoV5Final.py:64-70 | every new counter tries a path not tried before, so the naming loop ends once the existing paths run out |
| Cortador.GetAllDatasets | CortadorOptimizadoV5Final.py:32-41 | the loop returns the two-level dataset order of `AllDatasets` |
| Cortador.GetUniqueGdbName | CortadorOptimizadoV5Final.py:62-70 | returns `folder\CartoBase_N.gdb` for the smallest N ≥ 1 whose path does not exist, so the result never names an existing entry |
| Cortador.OutputGdb.constructor | CortadorOptimizadoV5Final.py:184 | a new output geodatabase has no datasets, the given items (the template tables the engine adds) and an empty call log |
| Cortador.OutputGdb.ClipTo | CortadorOptimizadoV5Final.py:98-105 | clip, count, and delete an empty or uncountable result, stopping at a raising call |
| Cortador.OutputGdb.ProcessLayers | CortadorOptimizadoV5Final.py:129-151 | a layer loop leaves the output and the `dataset_has_data` flag as `LayerFold` specifies |
| Cortador.OutputGdb.ClipLayers | CortadorOptimizadoV5Final.py:84-162 | `clip_layers` leaves the output as `ClipAll` specifies, returning right after the root stage when there are no datasets |
| Cortador.OutputGdb.DeleteUnwantedFiles | CortadorOptimizadoV5Final.py:72-82 | `delete_unwanted_files` leaves the output as `DeleteTemplates` specifies |

## Left out

- arcpy itself:
  - selection, clip, count, describe, field listing, cursors and dataset creation are
    oracles carried by the input values;
  - geometry, spatial references and the contents of clipped layers are not modelled.
- Listing failures of arcpy at the level of the whole input in the clipping script are not
  modelled: the root `ListFeatureClasses()` and the `ListDatasets` calls of
  `get_all_datasets`. There they end `clip_layers` in its outer `except`. A failing
  `ListFeatureClasses("", "", fds)` of one dataset is inside the per-dataset `try` and skips
  that dataset only, which the model expresses as `describable` being false.
- GdbClip.ClipAllNested: stated for a dataset that `get_all_datasets` lists at most once. A
  name listed twice (as a dataset and as a sub-dataset) is processed twice, and the fate of
  its layers' outputs across both passes is not stated.
- GdbClip.FoldCreateCount: whether `CreateFeatureDataset_management` succeeds is one flag
  per dataset (`creatable`). A creation that fails at one layer and succeeds at a later
  passing layer cannot be expressed, so the count of retries holds only for a creation that
  always fails or always works.
- Overwrite semantics: the script sets `overwriteOutput`. Re-creating an existing output
  dataset is modelled as adding it to the set, not as wiping its contents.
- `arcpy.env.workspace` switching: it is an engine-context detail.
- `main()` of every script is not modelled:
  - the prompts, the report-file writing and the `print` texts;
  - the check that the inputs exist;
  - the timer and the "time saved" percentage, which is floating point.
- `CreateFileGDB_management` is modelled only as the constructor of the output object.
- GetUniqueGdbName: `os.path.join` is modelled for Windows paths only: a backslash is added
  unless the folder is empty, ends in `/` or `\`, or is a bare drive such as `C:`.
- GetUniqueGdbName: `arcpy.Exists` is a finite set of existing paths, compared as text.
  Windows matches paths case-insensitively.
- Text: `str.lower`/`str.upper` change ASCII letters only. Python also maps other Unicode
  letters.
- The filesystem is a finite tree:
  - symbolic-link cycles cannot be represented;
  - an entry's kind is that of its link target;
  - failures of `isdir`/`isfile` themselves are not modelled.
- `explorador.py` takes its constants from `configuracion.py`, which is not part of this
  model. The model uses the extensions and descriptions that every other copy defines.
- Python's sort is stable, and so is the model's `Sort`: `Insert` places an entry after every
  entry with an equal key. Stability matters where two names share a lower-cased key (`A`
  and `a` in `explorador.py`), but no lemma states it.
- LeameAnlaFeatures:
  - results are keyed by the entry name rather than the joined path (the folder prefix is
    the same for all);
  - the GDB folder is given as its entry list, so its absence or an unreadable folder is not
    modelled;
  - dictionary insertion order is not kept (the model uses a `map`).
- FieldAudit.ListClarifications: the GDB folder listing raising is modelled as `None`.
  `listar_aclaraciones` then returns the empty list.
- The other context files are not modelled: `cerebro.py`, `voz.py`, `registro.py` (input
  loops, logging and report writing) and the tests. The tests in `pruebas.py` are reflected
  in `FolderReport.ReportHeaders` and `DirTree.NoRecursionOneLevel`.
