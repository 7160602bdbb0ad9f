# Gaussian splat hot-reload pipeline, modelled in Dafny

The repository turns a VR screenshot into a Gaussian-splat model that shows up
live in Unity. It has three parts:

- a Python driver (`pipeline.py`). It waits for the screenshot, runs a
  generator under WSL, picks the produced `.ply`/`.obj` file and runs the PLY
  converter on it;
- the converter (`ply_converter.py`). It inserts 45 zero-filled `f_rest_i`
  spherical-harmonics fields after `f_dc_2`, so that a vertex takes 248 bytes;
- a Unity component (`GaussianAutoPlyRuntime`). It watches a folder for the
  tracked file name, queues every matching path, and waits for each file to
  stop growing. It then asks the runtime asset creator for an asset and writes
  it into the splat renderer.

The model is split by module:

| file | module | what it models |
|---|---|---|
| `wrappers.dfy` | `Wrappers` | `Option` and `Result` |
| `text.dfy` | `Text` | Python `str.replace`, `strip`, `split('\n')`, `endswith`, `' '.join` |
| `ntpath.dfy` | `NtPath` | Windows `os.path.basename`, `dirname` and `join` |
| `stability.dfy` | `StabilityDetector` | the `(stable, last)` size-stability loop of `ImportWhenReady`, over a sequence of length readings (-1 is a failed open) |
| `autoloader.dfy` | `AutoLoader` | the class `GaussianAutoPlyRuntime` with its queue, the imports it started, the `CreateAsset` calls it made and the renderer's asset slot |
| `pipeline.dfy` | `Pipeline` | `convert_to_wsl_path`, the two filter-and-take-first selections, the configuration block and `run_ply_converter` |
| `ply_converter.dfy` | `PlyConverter` | the dtype splice, the 248-byte check and the column copy loop |

File-system observations, the asset creator, `os.path.abspath`,
`os.path.exists` and the exit status of the converter process are parameters.

The code has none of the following, and neither has the model:

- Every accepted event queues its path again. There is no coalescing of
  duplicate paths, and each queued path starts its own import.
- The stability wait has no timeout. Readings that never settle leave the
  import waiting (`AwaitingStableSize`).
- The renderer slot has no generation counter.
- The renderer is written through whichever member reflection finds, a
  property or a field. Without either, the import ends with a warning
  (`MemberMissing`) and the slot is unchanged.

## Model

| member | source | states |
|---|---|---|
| Text.ReplaceAll | pipeline.py:130 | Definition of `str.replace`: every occurrence of the pattern, scanned left to right without overlap, is replaced |
| Text.EndsWith | pipeline.py:44 | Definition of `str.endswith` for one suffix, case-sensitive |
| Text.EndsWithAny | pipeline.py:96 | Definition of `str.endswith` for a tuple of suffixes: one of them ends the string |
| Text.IsSpace | pipeline.py:95 | Definition of the characters `str.isspace` holds for |
| Text.JoinWith | pipeline.py:160 | Definition of `sep.join(parts)`: the pieces with one separator between neighbours |
| Text.ReplaceCharPointwise | pipeline.py:130 | Replacing one character by another keeps the length and changes exactly the positions that held it |
| Text.ReplaceKeepsOtherChar | pipeline.py:130-131 | A character in neither the pattern nor the replacement is in the result iff it was in the input |
| Text.ReplaceIntroducesNoChar | pipeline.py:130 | Replacing never introduces a character absent from both the input and the replacement |
| Text.ReplaceHead | pipeline.py:130 | The first character of a replacement result is the replacement's first character when the input starts with the pattern, else the input's first character |
| Text.ReplaceLeavesNoPair | pipeline.py:130 | After replacing every `ab` by a text free of `a` and `b`, no `a` is directly followed by `b` |
| Text.ReplacePairAbsent | pipeline.py:130 | Replacing a two-character pattern that does not occur leaves the string unchanged |
| Text.ReplaceCharKeepsNoPair | pipeline.py:130 | Replacing one character by a character other than `a` and `b` cannot create an `ab` pair |
| Text.SkipSpaces | pipeline.py:95 | The leading run of whitespace from an index: everything skipped is whitespace and the first character after it is not |
| Text.SkipSpacesBack | pipeline.py:95 | The trailing run of whitespace before an index: everything skipped is whitespace and the character before it is not |
| Text.Strip | pipeline.py:95 | `str.strip()`: a slice of the input with only whitespace cut off at either end, and it neither starts nor ends with whitespace |
| Text.StripIdempotent | pipeline.py:95 | Stripping twice is stripping once |
| Text.StripTrailingNewline | pipeline.py:95 | Stripping a trimmed listing plus its trailing newline gives the listing back |
| Text.Split | pipeline.py:95 | `str.split('\n')` gives at least one piece, and no piece holds the separator |
| Text.JoinCons | pipeline.py:160 | Joining a first piece in front of other pieces puts exactly one separator between them |
| Text.JoinPiece | pipeline.py:151-160 | A piece that holds one separator joins like the two pieces around that separator |
| Text.JoinSplit | pipeline.py:95 | Joining the pieces of a split with the same separator gives the string back |
| Text.SplitJoin | pipeline.py:95 | Splitting a join of separator-free pieces gives the pieces back |
| NtPath.DriveLength | pipeline.py:143 | The drive prefix is empty or two characters long and lies within the path |
| NtPath.AnchorLength | pipeline.py:143 | The root (drive plus one separator) lies within the path and contains the drive |
| NtPath.LastSepEnd | pipeline.py:153 | The point after the last separator: the character before it is a separator and none follows |
| NtPath.TailStart | pipeline.py:143 | The start of the last component lies after the root, no separator follows it, and when it lies past the root the character before it is a separator |
| NtPath.RStripSeps | pipeline.py:143 | The result is a prefix that does not end with a separator, and only separators were cut off |
| NtPath.BaseName | pipeline.py:153 | `os.path.basename`: the longest separator-free suffix of the path that does not reach into the drive and root (a shorter one would leave a non-separator before it) |
| NtPath.DirName | pipeline.py:143 | `os.path.dirname`: a prefix of the path, at least the root and at most the start of the last component, with only separators between it and that component; past the root it does not end with a separator |
| NtPath.Join | pipeline.py:149 | `os.path.join` of a folder and a plain name starts with the folder; `basename` gives the name back, and `dirname` gives the folder back whenever a separator had to be added |
| NtPath.LastSepEndOfSepFree | pipeline.py:153 | Appending separator-free text leaves the position of the last separator unchanged |
| NtPath.JoinedTailStart | pipeline.py:149 | The last component of a joined path starts right after the folder and the separator `join` adds |
| StabilityDetector.NextStreak | GaussianExample/Assets/GaussianAutoLoader.cs:96 | Definition of one poll: the counter grows when the length is positive and equals the previous one, and is reset otherwise |
| StabilityDetector.Streak | GaussianExample/Assets/GaussianAutoLoader.cs:96-97 | Definition of the counter after a sequence of readings, starting from `stable = 0, last = -1` |
| StabilityDetector.StreakMeansSteadyTail | GaussianExample/Assets/GaussianAutoLoader.cs:84-97 | Starting from `stable = 0, last = -1`, the counter is at least n iff the last n+1 readings are one and the same positive length (both directions) |
| StabilityDetector.StreakBelowReadings | GaussianExample/Assets/GaussianAutoLoader.cs:84-97 | The counter is always less than the number of readings taken |
| StabilityDetector.NonPositiveReadingResets | GaussianExample/Assets/GaussianAutoLoader.cs:92-96 | A failed open (-1) or an empty file resets the counter to 0, whatever came before |
| StabilityDetector.StableFourPollsAfterChange | GaussianExample/Assets/GaussianAutoLoader.cs:82-99 | After a change to a new positive length, the counter is k-c-1 at each of the next five polls, so the loop ends four poll intervals after the change and not earlier |
| StabilityDetector.WaitForFile | GaussianExample/Assets/GaussianAutoLoader.cs:87-88 | The `File.Exists` wait stops at the first check that finds the file; every earlier check failed; it is still waiting iff no check succeeded |
| StabilityDetector.PollUntilStable | GaussianExample/Assets/GaussianAutoLoader.cs:82-99 | The loop keeps `stable == Streak(readings so far) <= 4` and leaves exactly at the first poll where the counter reaches 4. On exit at least five polls were taken and the last five readings are equal and positive. Otherwise all readings were consumed |
| AutoLoader.ComponentStart | GaussianExample/Assets/GaussianAutoLoader.cs:68 | The component ending at an index holds no `\`, `/` or `:`, and is preceded by one unless it starts the path |
| AutoLoader.FileName | GaussianExample/Assets/GaussianAutoLoader.cs:68 | `Path.GetFileName` is a suffix of the path |
| AutoLoader.FileNameIsLastComponent | GaussianExample/Assets/GaussianAutoLoader.cs:68 | The file name holds no `\`, `/` or `:`, and whatever precedes it ends with one |
| AutoLoader.LastDotBefore | GaussianExample/Assets/GaussianAutoLoader.cs:105 | Finds the last `.` before a position, or reports that there is none |
| AutoLoader.StripExtension | GaussianExample/Assets/GaussianAutoLoader.cs:105 | The name cut just before its last `.`, or the whole name when it has no dot |
| AutoLoader.FileNameWithoutExtension | GaussianExample/Assets/GaussianAutoLoader.cs:105 | `Path.GetFileNameWithoutExtension` is a prefix of the file name, and the whole file name when it has no dot |
| AutoLoader.ComponentStartAfterSeparator | GaussianExample/Assets/GaussianAutoLoader.cs:68 | A run of non-separators right after a separator is the last component |
| AutoLoader.FileNameAfterSeparator | GaussianExample/Assets/GaussianAutoLoader.cs:68 | The file name of `dir\name` is `name` for a separator-free name |
| AutoLoader.FoldCase | GaussianExample/Assets/GaussianAutoLoader.cs:68 | Definition of the case folding used by the comparison: ASCII lower-case letters to upper case |
| AutoLoader.EqualsIgnoreCase | GaussianExample/Assets/GaussianAutoLoader.cs:68 | Definition of `OrdinalIgnoreCase` equality, one folded character at a time |
| AutoLoader.IsWanted | GaussianExample/Assets/GaussianAutoLoader.cs:68 | Definition of the filter: the path's file name equals the tracked name ignoring case |
| AutoLoader.EqualsIgnoreCaseAt | GaussianExample/Assets/GaussianAutoLoader.cs:68 | The ignore-case comparison holds iff the lengths are equal and the case-folded characters are equal at every index (both directions) |
| AutoLoader.WantedPaths | GaussianExample/Assets/GaussianAutoLoader.cs:46-48 | Definition of the existing files that pass the filter, in listing order (never more than were listed); its members are characterised by `WantedPathsMembers` |
| AutoLoader.WantedPathsMembers | GaussianExample/Assets/GaussianAutoLoader.cs:46-48 | A path is among the filtered ones iff it is listed and its file name is the tracked one |
| AutoLoader.WantedUnderDirectory | GaussianExample/Assets/GaussianAutoLoader.cs:66-69 | Under any directory, a file is accepted iff its name matches the tracked name letter by letter up to case (both directions) |
| AutoLoader.WantedPathsSnoc | GaussianExample/Assets/GaussianAutoLoader.cs:47-48 | One more listed path extends the filtered paths by that path exactly when it is accepted |
| AutoLoader.OtherNamesIgnored | GaussianExample/Assets/GaussianAutoLoader.cs:66-69 | `sample.ply` and `output.ply.tmp` in the same folder are rejected when the tracked name is `output.ply` |
| AutoLoader.GaussianAutoPlyRuntime.constructor | GaussianExample/Assets/GaussianAutoLoader.cs:10-26 | The inspector settings are stored, there is no watcher and nothing is queued or started, and the renderer slot holds what the renderer had |
| AutoLoader.GaussianAutoPlyRuntime.EnqueueIfWanted | GaussianExample/Assets/GaussianAutoLoader.cs:66-71 | The path goes to the back of the queue iff its file name equals the tracked name ignoring case; otherwise the queue is unchanged. Only accepted paths are ever queued |
| AutoLoader.GaussianAutoPlyRuntime.OnFsEvent | GaussianExample/Assets/GaussianAutoLoader.cs:63-64 | Created, Changed and Renamed events pass the full path through the same filter |
| AutoLoader.GaussianAutoPlyRuntime.OnEnable | GaussianExample/Assets/GaussianAutoLoader.cs:28-51 | With the folder missing, it returns before creating a watcher and queues nothing. Otherwise the watcher runs, and when configured the accepted existing files are queued in listing order |
| AutoLoader.GaussianAutoPlyRuntime.EnqueueAll | GaussianExample/Assets/GaussianAutoLoader.cs:46-48 | Running every existing `*.ply` path through the filter appends exactly the accepted ones, in order |
| AutoLoader.GaussianAutoPlyRuntime.OnDisable | GaussianExample/Assets/GaussianAutoLoader.cs:53-61 | The watcher is gone |
| AutoLoader.GaussianAutoPlyRuntime.Update | GaussianExample/Assets/GaussianAutoLoader.cs:73-77 | The queue ends empty and one import is started per dequeued path, in FIFO order, with duplicates kept |
| AutoLoader.GaussianAutoPlyRuntime.ImportWhenReady | GaussianExample/Assets/GaussianAutoLoader.cs:79-132 | It waits iff the file never appeared or its size never settled, and then `CreateAsset` is not called. Otherwise it is called exactly once, with the file name without extension, the path and the camera flag. A throw or null leaves the slot unchanged. An asset is written iff the renderer has a property or field for it |
| Pipeline.Quote | pipeline.py:132 | Definition of wrapping a text in double quotes |
| Pipeline.Translate | pipeline.py:130 | After the two replacements no backslash and no `C:` remain, and a space is present iff the input had one |
| Pipeline.QuoteKeepsNoPair | pipeline.py:131-132 | Wrapping in double quotes cannot create a `C:` |
| Pipeline.ConvertToWslPath | pipeline.py:128-133 | The result has no backslash and no `C:`. It is quoted iff the input holds a space, and otherwise it is the replaced path unquoted |
| Pipeline.ReplaceAbsentChar | pipeline.py:130 | Replacing a character that does not occur changes nothing |
| Pipeline.WslPathUnchanged | pipeline.py:128-133 | A path without spaces, backslashes or `C:` is returned as it is |
| Pipeline.ConvertIdempotentWithoutSpaces | pipeline.py:128-133 | For a path without spaces, converting twice is converting once |
| Pipeline.LowerCaseDriveKept | pipeline.py:130 | The drive match is case-sensitive: `c:\x` becomes `c:/x` |
| Pipeline.KeepEndingWith | pipeline.py:96 | The comprehension keeps exactly the listed names with one of the suffixes (both directions) |
| Pipeline.KeptHeadIsFirstMatch | pipeline.py:96-98 | The first kept name is the first listed name with one of the suffixes |
| Pipeline.ListedFiles | pipeline.py:95 | Definition of `stdout.strip().split('\n')` |
| Pipeline.OutputFileIn | pipeline.py:95-98 | A selected name is a listed line ending in `.ply` or `.obj`. Nothing is selected iff no listed line has such an ending |
| Pipeline.OutputFileOfListing | pipeline.py:95-98 | For `ls` output of newline-free names with a trailing newline, whose joined listing neither starts nor ends with white space, the selection is the first `.ply`/`.obj` name in listing order |
| Pipeline.BlankListingSelectsNothing | pipeline.py:95-98 | An empty or blank listing selects nothing |
| Pipeline.ScreenshotIn | pipeline.py:44-46 | Nothing is found iff no listed name ends in `.png` or `.jpg`. A found path's base name is such a listed name |
| Pipeline.ScreenshotIsFirstListed | pipeline.py:44-46 | The result is the folder joined with the first listed `.png`/`.jpg` name |
| Pipeline.UpperCaseExtensionIgnored | pipeline.py:44 | The suffix test is case-sensitive: `SHOT.PNG` is not a screenshot |
| Pipeline.Env | pipeline.py:18-20 | Definition of `os.getenv(name, default)` over the environment map |
| Pipeline.ModuleScope | pipeline.py:1-31 | Definition of the module-level names bound before line 34 runs: the imports, `load_dotenv`, `ENV` and the eight base settings with their environment values |
| Pipeline.LookupPath | pipeline.py:34 | Evaluating a name as a path argument succeeds iff it is bound to a string, and gives that string. An unbound name is `NameError`, a module or function is `TypeError` |
| Pipeline.EvalConfig | pipeline.py:30-35 | Evaluating the derived settings with the converter joined from a given name fails iff that name is not bound to a string, with `NameError` when it is unbound. On success the assets folder and output name (default `output.ply`) come from the environment, and the converter is `ply_converter.py` directly under the folder the name holds |
| Pipeline.LoadConfigAsWritten | pipeline.py:34 | The block as written, joining the name `PIPE_UNITY_ASSETS_FOLDER`, fails with `NameError` on that name for every environment, because no line binds it |
| Pipeline.LoadConfig | pipeline.py:30-35 | Joining `unity_assets_folder` instead always succeeds. The assets folder comes from the environment (default empty) and the output name too (default `output.ply`). The converter path lies under the assets folder and its base name is `ply_converter.py` |
| Pipeline.RunPlyConverter | pipeline.py:136-169 | A missing script is an error, `FileNotFoundError`. Otherwise the command is the four parts joined by spaces and is run in the script's directory. The output file is named by the configured output name. A failing command is reported in the result, not raised |
| Pipeline.ConverterArgs | pipeline.py:151-156 | Definition of the four entries of `cmd` |
| Pipeline.ArgsJoinAsWords | pipeline.py:151-160 | Joining the four entries with spaces gives the same line as joining the six words they hold |
| Pipeline.ConverterCommandWords | pipeline.py:151-160 | Without spaces in the paths, the shell sees exactly `python`, the quoted script name, `--input`, the quoted input, `--output`, the quoted output |
| PlyConverter.Decimal | ply_converter.py:22 | Decimal digits of a number: at least one, and more than one iff the number is at least 10 |
| PlyConverter.DecimalInjective | ply_converter.py:22 | Different numbers have different decimal spellings |
| PlyConverter.RestName | ply_converter.py:22 | `f'f_rest_{i}'` is at least eight characters long |
| PlyConverter.RestNameInjective | ply_converter.py:22 | Different indices give different `f_rest_` names |
| PlyConverter.RestFields | ply_converter.py:22 | 45 fields, the i-th being `f_rest_i` of 4 bytes |
| PlyConverter.FindFrom | ply_converter.py:19 | The first position from an index on that holds the name, with no earlier match from that index; `None` when there is none |
| PlyConverter.FieldIndex | ply_converter.py:19 | `list.index`: the first position holding the name, or `None` (the `ValueError`) when no field has it |
| PlyConverter.FieldIndexOfDistinct | ply_converter.py:19 | In a list of distinct names, the index of the p-th field's name is p |
| PlyConverter.RecordSize | ply_converter.py:33 | Definition of `itemsize` for an unpadded dtype: the sum of the field sizes |
| PlyConverter.RecordSizeConcat | ply_converter.py:25-30 | The packed size of a concatenation is the sum of the packed sizes |
| PlyConverter.Splice | ply_converter.py:25-28 | The new layout is 45 fields longer. Every original field keeps its relative order, shifted past the insertion point when it came after it. Position k+i holds `f_rest_i` as a 4-byte float |
| PlyConverter.FloatRecordSize | ply_converter.py:22 | A list of 4-byte fields packs into four bytes per field |
| PlyConverter.RestFieldsSize | ply_converter.py:22 | The 45 new fields take 180 bytes |
| PlyConverter.RecordSizeSplit | ply_converter.py:26-28 | The two slices of the original layout together have the original size |
| PlyConverter.SpliceSize | ply_converter.py:25-30 | Without padding the new record is 180 bytes larger than the original |
| PlyConverter.SpliceAt | ply_converter.py:25-28 | Each position of the new layout holds either a new `f_rest_` field or the original field it came from |
| PlyConverter.SpliceNamesDistinct | ply_converter.py:25-30 | With no original field named `f_rest_i`, the new layout's names are distinct |
| PlyConverter.ClashDuplicates | ply_converter.py:25-30 | An original field named `f_rest_i` makes the new layout repeat a name |
| PlyConverter.SpliceDistinct | ply_converter.py:25-30 | The new layout has distinct names iff no original field is named `f_rest_i` (both directions) |
| PlyConverter.NewLayout | ply_converter.py:18-33 | Fails with a missing `f_dc_2` iff it is missing. Fails on a duplicate name iff an original field clashes with a new one. Fails the size check iff the packed size, original plus 180, is not 248. Otherwise it is the splice after `f_dc_2`, with distinct names and 248 bytes |
| PlyConverter.StandardNamesDistinct | ply_converter.py:18 | The 17 fields of a 3DGS vertex have distinct names |
| PlyConverter.StandardNoClash | ply_converter.py:22-28 | None of them is named `f_rest_i` |
| PlyConverter.StandardSplitPoint | ply_converter.py:19 | `f_dc_2` sits at index 8 of the 3DGS vertex |
| PlyConverter.StandardSize | ply_converter.py:33 | The 3DGS vertex without SH coefficients packs into 68 bytes |
| PlyConverter.StandardLayoutConverts | ply_converter.py:18-33 | A 3DGS vertex converts, and the new layout is the splice at index 9 |
| PlyConverter.StandardSplicePositions | ply_converter.py:22-28 | In the converted 3DGS layout `f_rest_0` is at index 9 and `opacity` at index 54 |
| PlyConverter.Zeros | ply_converter.py:36 | A column of the given length holding only zeros |
| PlyConverter.LookupInSplice | ply_converter.py:37-38 | Looking up an original field's name in the new layout finds its shifted position |
| PlyConverter.ColumnByName | ply_converter.py:38 | `new_vertices[field]` addresses the original field's shifted position |
| PlyConverter.PopulateVertices | ply_converter.py:36-38 | After the copy loop, each original column is at its field's new position, unchanged, and every `f_rest_i` column is all zeros |

## Left out

- Pipeline.LoadConfig: models the evident intent of pipeline.py:34, joining
  `unity_assets_folder`. The line as written raises `NameError` (see Findings
  and `Pipeline.LoadConfigAsWritten`).
- Pipeline.ModuleScope: holds the names bound when line 34 runs. The
  `except ... as e` name is left out: it is bound only on the path that exits.
  Names bound after line 34 (the functions, `poll_interval`) are not yet bound there.
- Pipeline.RunPlyConverter: requires the configured output name to be a plain
  file name. `os.path.join` is modelled only for a second component without
  separators or a drive.
- Pipeline.ScreenshotIn: requires the listed names to be plain file names.
  `os.listdir` only returns such names.
- `os.path.abspath`, `os.path.exists` and the converter's exit status are
  parameters of `Pipeline.RunPlyConverter`. The messages it prints are not
  modelled.
- NtPath: only drive-letter paths are handled. UNC paths (`\\server\share`)
  are not modelled.
- The `while True` polling loops of `wait_for_screenshot` and
  `wait_for_output_file`, with their `time.sleep`, are not modelled. Only the
  selection made on one listing is. These loops are time-based I/O.
- The WSL and `subprocess` calls, the file moves (`rename_file`,
  `prepare_screenshot`, `transfer_file_from_wsl`), `run_wsl_process`, `main`
  and `.env` loading are not modelled. They are all process or file-system
  I/O.
- `ply_converter.py` reads its input from `PIPE_UNITY_ASSETS_FOLDER\sample.ply`
  and writes `output.ply` there (lines 5-9). It ignores the `--input` and
  `--output` arguments that `run_ply_converter` passes. The PLY reading and
  writing (lines 12-15, 41-42) is not modelled. The model does not connect
  the command line to the converter.
- PlyConverter: numpy dtypes are modelled as (name, byte size) pairs, and
  element types other than their size are not tracked. `dtype.names` and
  `dtype.descr` are taken to list the same fields in the same order, which
  holds for the unpadded dtypes `plyfile` produces. The input names are
  required to be distinct, as numpy guarantees for any dtype.
- PlyConverter.PopulateVertices: the structured array is modelled
  column-major, one sequence per field. The byte-level record layout of
  `new_vertices` is not modelled.
- The `assert` on line 33 of `ply_converter.py` is modelled as always active.
  Python's `-O` flag would remove it.
- AutoLoader.EqualsIgnoreCase: folds only ASCII letters.
  `StringComparison.OrdinalIgnoreCase` also folds non-ASCII letters.
- AutoLoader: `Path.GetFileName` splits on `\`, `/` and `:`. Rooted-path rules
  beyond that are not modelled.
- The `FileSystemWatcher` setup and its events, `ConcurrentQueue` thread
  safety, coroutine scheduling and `WaitForSeconds` timing are not modelled.
  Events are method calls, and the queue is a sequential FIFO. Time is one
  poll per step. Each import is one call of `ImportWhenReady` over the
  observations it gets to see; how imports interleave is not modelled.
- `Awake`'s `GetComponent`/`AddComponent` is not modelled, nor are the
  creator's quality setting or the `Debug` logging. The renderer's initial
  slot is a constructor argument.
- `CreateAsset` is a function parameter returning an asset, null or a throw.
  The reflection probe for a property, then a field, is a constant of the
  component (`assetMember`).
- `GaussianCreator.cs` and `VRScreenCapture.cs`, and their copies under
  `GaussianExample/Assets/`, are not part of this model. They are Unity
  editor, asset-database and input code.

## Findings

| source | as written | input that shows it | evidently intended | confidence | as-written member | corrected member |
|---|---|---|---|---|---|---|
| pipeline.py:34 | `ply_converter_script = os.path.join(PIPE_UNITY_ASSETS_FOLDER, "ply_converter.py")` uses a Python name that is never bound. `PIPE_UNITY_ASSETS_FOLDER` is only the environment variable's name, so importing the script raises `NameError` | any environment, for example one with `PIPE_UNITY_ASSETS_FOLDER=C:\Unity\Assets` | join the variable `unity_assets_folder` read on line 30, so the converter is `ply_converter.py` inside the Unity assets folder | high, not executed | Pipeline.LoadConfigAsWritten | Pipeline.LoadConfig |
