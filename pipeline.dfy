/**
 * The decision logic of the Windows pipeline script (`pipeline.py`): turning a
 * Windows path into one a WSL shell accepts, choosing the reconstruction output
 * from an `ls` listing and the screenshot from a directory listing, building the
 * converter's command line, and loading the configuration.
 *
 * The file system and the shell are parameters: a listing is a sequence of names,
 * `ls` output is a string, `os.path.abspath` is a function, and the outcome of
 * `subprocess.run` is a predicate on the command and its working directory.
 */
module Pipeline {
  import opened Wrappers
  import opened Text
  import NtPath

  // ---------------------------------------------------------------------------
  // convert_to_wsl_path
  // ---------------------------------------------------------------------------

  /**
   * `windows_path.replace("C:", "/mnt/c").replace("\\", "/")`: the result holds no
   * backslash and no `C:`, and has a space exactly when the Windows path has one.
   */
  function Translate(windowsPath: string): (r: string)
    ensures '\\' !in r
    ensures !ContainsPair(r, 'C', ':')
    ensures ' ' in r <==> ' ' in windowsPath
  {
    var noDrive := ReplaceAll(windowsPath, "C:", "/mnt/c");
    ReplaceLeavesNoPair(windowsPath, 'C', ':', "/mnt/c");
    ReplaceKeepsOtherChar(windowsPath, "C:", "/mnt/c", ' ');
    ReplaceCharPointwise(noDrive, '\\', '/');
    ReplaceCharKeepsNoPair(noDrive, '\\', '/', 'C', ':');
    ReplaceKeepsOtherChar(noDrive, "\\", "/", ' ');
    ReplaceAll(noDrive, "\\", "/")
  }

  /** Surround with double quotes, as the f-string `f'"{path}"'` does. */
  function Quote(s: string): string {
    "\"" + s + "\""
  }

  /** Quoting adds only `"` characters, so it cannot create a `C:`. */
  lemma QuoteKeepsNoPair(s: string)
    requires !ContainsPair(s, 'C', ':')
    ensures !ContainsPair(Quote(s), 'C', ':')
  {
    var q := Quote(s);
    forall i | 0 <= i < |q| - 1
      ensures !(q[i] == 'C' && q[i + 1] == ':')
    {
      if 1 <= i < |s| {
        assert q[i] == s[i - 1] && q[i + 1] == s[i];
      }
    }
  }

  /**
   * `convert_to_wsl_path`: the drive `C:` becomes `/mnt/c`, backslashes become
   * slashes, and the result is quoted exactly when the Windows path has a space.
   */
  function ConvertToWslPath(windowsPath: string): (r: string)
    ensures '\\' !in r
    ensures !ContainsPair(r, 'C', ':')
    ensures ' ' in windowsPath ==> r == Quote(Translate(windowsPath))
    ensures ' ' !in windowsPath ==> r == Translate(windowsPath)
  {
    var path := Translate(windowsPath);
    if ' ' in path then
      QuoteKeepsNoPair(path);
      Quote(path)
    else path
  }

  /** A single-character replacement whose character does not occur changes nothing. */
  lemma ReplaceAbsentChar(s: string, c: char, d: char)
    requires c !in s
    ensures ReplaceAll(s, [c], [d]) == s
  {
    ReplaceCharPointwise(s, c, d);
    var r := ReplaceAll(s, [c], [d]);
    forall i | 0 <= i < |s|
      ensures r[i] == s[i]
    {
      assert s[i] != c;
    }
  }

  /** A path that is already a WSL path (no space, no backslash, no `C:`) is left alone. */
  lemma WslPathUnchanged(path: string)
    requires ' ' !in path && '\\' !in path && !ContainsPair(path, 'C', ':')
    ensures ConvertToWslPath(path) == path
  {
    ReplacePairAbsent(path, 'C', ':', "/mnt/c");
    ReplaceAbsentChar(path, '\\', '/');
  }

  /** Without spaces the conversion is idempotent; with them the quotes would be added again. */
  lemma ConvertIdempotentWithoutSpaces(windowsPath: string)
    requires ' ' !in windowsPath
    ensures ConvertToWslPath(ConvertToWslPath(windowsPath)) == ConvertToWslPath(windowsPath)
  {
    WslPathUnchanged(ConvertToWslPath(windowsPath));
  }

  /** The drive letter is matched case-sensitively: `c:` is not rewritten. */
  lemma LowerCaseDriveKept()
    ensures ConvertToWslPath("c:\\x") == "c:/x"
  {
    assert ReplaceAll("c:\\x", "C:", "/mnt/c") == "c:\\x";
  }

  // ---------------------------------------------------------------------------
  // The selections in wait_for_output_file and wait_for_screenshot
  // ---------------------------------------------------------------------------

  /** `(".ply", ".obj")`: what `wait_for_output_file` accepts. */
  const OutputSuffixes: seq<string> := [".ply", ".obj"]

  /** `.png` or `.jpg`: what `wait_for_screenshot` accepts. */
  const ScreenshotSuffixes: seq<string> := [".png", ".jpg"]

  /** `[f for f in names if f.endswith(suffixes)]`. */
  function KeepEndingWith(names: seq<string>, suffixes: seq<string>): (r: seq<string>)
    ensures |r| <= |names|
    ensures forall f :: f in r ==> f in names && EndsWithAny(f, suffixes)
    ensures forall f :: f in names && EndsWithAny(f, suffixes) ==> f in r
    decreases |names|
  {
    if |names| == 0 then []
    else if EndsWithAny(names[0], suffixes) then [names[0]] + KeepEndingWith(names[1..], suffixes)
    else KeepEndingWith(names[1..], suffixes)
  }

  /** The comprehension keeps the listing's order: its head is the first matching name. */
  lemma {:induction false} KeptHeadIsFirstMatch(names: seq<string>, suffixes: seq<string>, i: nat)
    requires i < |names| && EndsWithAny(names[i], suffixes)
    requires forall j :: 0 <= j < i ==> !EndsWithAny(names[j], suffixes)
    ensures |KeepEndingWith(names, suffixes)| > 0
    ensures KeepEndingWith(names, suffixes)[0] == names[i]
    decreases i
  {
    if i > 0 {
      KeptHeadIsFirstMatch(names[1..], suffixes, i - 1);
    }
  }

  /** The lines of `ls` output, as `result.stdout.strip().split('\n')`. */
  function ListedFiles(stdout: string): seq<string> {
    Split(Strip(stdout), '\n')
  }

  /**
   * One round of `wait_for_output_file`: the first listed `.ply` or `.obj` name,
   * or `None` when there is none and the script sleeps and polls again.
   */
  function OutputFileIn(stdout: string): (r: Option<string>)
    ensures r.Some? ==> r.value in ListedFiles(stdout) && EndsWithAny(r.value, OutputSuffixes)
    ensures r.None? <==> forall f :: f in ListedFiles(stdout) ==> !EndsWithAny(f, OutputSuffixes)
  {
    var validFiles := KeepEndingWith(ListedFiles(stdout), OutputSuffixes);
    if |validFiles| > 0 then Some(validFiles[0]) else None
  }

  /**
   * For `ls` output of the names `names`, one per line with a final newline, the
   * first listed `.ply` or `.obj` name is chosen.
   */
  lemma OutputFileOfListing(names: seq<string>, i: nat)
    requires |names| >= 1 && forall k :: 0 <= k < |names| ==> '\n' !in names[k]
    requires var s := JoinWith(names, '\n'); s == [] || (!IsSpace(s[0]) && !IsSpace(s[|s| - 1]))
    requires i < |names| && EndsWithAny(names[i], OutputSuffixes)
    requires forall j :: 0 <= j < i ==> !EndsWithAny(names[j], OutputSuffixes)
    ensures OutputFileIn(JoinWith(names, '\n') + "\n") == Some(names[i])
  {
    var s := JoinWith(names, '\n');
    StripTrailingNewline(s);
    SplitJoin(names, '\n');
    assert ListedFiles(s + "\n") == names;
    KeptHeadIsFirstMatch(names, OutputSuffixes, i);
  }

  /** Empty or blank `ls` output splits into `[""]`, which matches nothing: keep polling. */
  lemma BlankListingSelectsNothing(stdout: string)
    requires forall i :: 0 <= i < |stdout| ==> IsSpace(stdout[i])
    ensures OutputFileIn(stdout) == None
  {
    assert Strip(stdout) == [];
    assert ListedFiles(stdout) == [""];
  }

  /**
   * One round of `wait_for_screenshot` over the names `os.listdir(folder)`
   * returned: the path of the first `.png` or `.jpg`, or `None` to poll again.
   * Listed names hold no separator and no drive.
   */
  function ScreenshotIn(folder: string, listing: seq<string>): (r: Option<string>)
    requires forall k :: 0 <= k < |listing| ==> NtPath.IsPlainName(listing[k])
    ensures r.None? <==> forall f :: f in listing ==> !EndsWithAny(f, ScreenshotSuffixes)
    ensures r.Some? ==> NtPath.BaseName(r.value) in listing
    ensures r.Some? ==> EndsWithAny(NtPath.BaseName(r.value), ScreenshotSuffixes)
  {
    var files := KeepEndingWith(listing, ScreenshotSuffixes);
    if |files| > 0 then
      assert files[0] in files && files[0] in listing;
      Some(NtPath.Join(folder, files[0]))
    else None
  }

  /** The screenshot chosen is the first matching name of the listing, joined to the folder. */
  lemma ScreenshotIsFirstListed(folder: string, listing: seq<string>, i: nat)
    requires forall k :: 0 <= k < |listing| ==> NtPath.IsPlainName(listing[k])
    requires i < |listing| && EndsWithAny(listing[i], ScreenshotSuffixes)
    requires forall j :: 0 <= j < i ==> !EndsWithAny(listing[j], ScreenshotSuffixes)
    ensures ScreenshotIn(folder, listing) == Some(NtPath.Join(folder, listing[i]))
  {
    KeptHeadIsFirstMatch(listing, ScreenshotSuffixes, i);
  }

  /** `str.endswith` is case-sensitive: an upper-case extension is not a screenshot. */
  lemma UpperCaseExtensionIgnored(folder: string)
    ensures ScreenshotIn(folder, ["SHOT.PNG"]) == None
  {
    assert !EndsWith("SHOT.PNG", ".png") && !EndsWith("SHOT.PNG", ".jpg");
    assert !EndsWithAny("SHOT.PNG", ScreenshotSuffixes);
  }

  // ---------------------------------------------------------------------------
  // Configuration (module level of pipeline.py)
  // ---------------------------------------------------------------------------

  /** `os.getenv(name, default)` over an environment given as a map. */
  function Env(env: map<string, string>, name: string, default: string): string {
    if name in env then env[name] else default
  }

  /** The converter script's own file name. */
  const ConverterFileName: string := "ply_converter.py"

  datatype Config = Config(
    unityAssetsFolder: string,
    plyConverterScript: string,
    converterOutputName: string)

  /**
   * Why evaluating the configuration block fails: `NameError` for a name the
   * module never bound, `TypeError` when `os.path.join` is handed something
   * that is not a string (a module or a function).
   */
  datatype ConfigError = UndefinedName(name: string) | NotAPath(name: string)

  /** What a module-level name is bound to: a string, or a module or function. */
  datatype Binding = Str(value: string) | NotStr

  /**
   * The module-level names of the script bound when the derived configuration
   * is evaluated: the four imports, `load_dotenv`, the helper `ENV` and the
   * eight base configuration variables read from the environment.
   */
  function ModuleScope(env: map<string, string>): map<string, Binding> {
    map[
      "os" := NotStr, "time" := NotStr, "subprocess" := NotStr, "shutil" := NotStr,
      "load_dotenv" := NotStr, "ENV" := NotStr,
      "input_folder" := Str(Env(env, "PIPE_INPUT_FOLDER", "")),
      "new_input_name" := Str(Env(env, "PIPE_NEW_INPUT_NAME", "")),
      "wsl_env" := Str(Env(env, "PIPE_WSL_ENV", "")),
      "wsl_script" := Str(Env(env, "PIPE_WSL_SCRIPT", "")),
      "output_folder_wsl" := Str(Env(env, "PIPE_OUTPUT_FOLDER_WSL", "")),
      "trellis_assets_folder" := Str(Env(env, "PIPE_TRELLIS_ASSETS_FOLDER", "")),
      "unity_assets_folder" := Str(Env(env, "PIPE_UNITY_ASSETS_FOLDER", "")),
      "conda_profile" := Str(Env(env, "PIPE_CONDA_PROFILE", ""))
    ]
  }

  /** Evaluating an identifier as a path argument: its string, or the error Python raises. */
  function LookupPath(scope: map<string, Binding>, ident: string): (r: Result<string, ConfigError>)
    ensures r.Success? <==> ident in scope && scope[ident].Str?
    ensures r.Success? ==> r.value == scope[ident].value
    ensures ident !in scope ==> r == Failure(UndefinedName(ident))
    ensures ident in scope && scope[ident].NotStr? ==> r == Failure(NotAPath(ident))
  {
    if ident !in scope then Failure(UndefinedName(ident))
    else match scope[ident]
      case Str(v) => Success(v)
      case NotStr => Failure(NotAPath(ident))
  }

  /**
   * The derived configuration, with the converter script joined from the
   * module-level name `folderIdent`: it fails exactly when that name is not
   * bound to a string, and otherwise the script is `ply_converter.py` directly
   * inside the folder that name holds.
   */
  function EvalConfig(env: map<string, string>, folderIdent: string): (r: Result<Config, ConfigError>)
    ensures var scope := ModuleScope(env);
      r.Failure? <==> !(folderIdent in scope && scope[folderIdent].Str?)
    ensures folderIdent !in ModuleScope(env) ==> r == Failure(UndefinedName(folderIdent))
    ensures r.Success? ==>
      var folder := ModuleScope(env)[folderIdent].value;
      && r.value.unityAssetsFolder == Env(env, "PIPE_UNITY_ASSETS_FOLDER", "")
      && r.value.converterOutputName == Env(env, "PIPE_CONVERTER_OUTPUT_NAME", "output.ply")
      && |folder| <= |r.value.plyConverterScript|
      && r.value.plyConverterScript[..|folder|] == folder
      && NtPath.BaseName(r.value.plyConverterScript) == ConverterFileName
  {
    var scope := ModuleScope(env);
    match LookupPath(scope, folderIdent)
    case Failure(e) => Failure(e)
    case Success(folder) =>
      assert NtPath.IsPlainName(ConverterFileName);
      Success(Config(
        scope["unity_assets_folder"].value,
        NtPath.Join(folder, ConverterFileName),
        Env(env, "PIPE_CONVERTER_OUTPUT_NAME", "output.ply")))
  }

  /**
   * The configuration block as written: the converter path is joined from the
   * Python name `PIPE_UNITY_ASSETS_FOLDER`, which the script never binds (it is
   * only an environment variable name), so importing the script raises NameError.
   */
  function LoadConfigAsWritten(env: map<string, string>): (r: Result<Config, ConfigError>)
    ensures r == Failure(UndefinedName("PIPE_UNITY_ASSETS_FOLDER"))
  {
    var scope := ModuleScope(env);
    assert "PIPE_UNITY_ASSETS_FOLDER" !in scope by {
      assert forall k :: k in scope ==> |k| <= 21;
    }
    EvalConfig(env, "PIPE_UNITY_ASSETS_FOLDER")
  }

  /**
   * The configuration block with the converter path joined from the variable
   * `unity_assets_folder`: it always succeeds, and the script is
   * `ply_converter.py` inside the Unity assets folder.
   */
  function LoadConfig(env: map<string, string>): (r: Result<Config, ConfigError>)
    ensures r.Success?
    ensures r.value.unityAssetsFolder == Env(env, "PIPE_UNITY_ASSETS_FOLDER", "")
    ensures r.value.converterOutputName == Env(env, "PIPE_CONVERTER_OUTPUT_NAME", "output.ply")
    ensures |r.value.unityAssetsFolder| <= |r.value.plyConverterScript|
    ensures r.value.plyConverterScript[..|r.value.unityAssetsFolder|] == r.value.unityAssetsFolder
    ensures NtPath.BaseName(r.value.plyConverterScript) == ConverterFileName
  {
    EvalConfig(env, "unity_assets_folder")
  }

  // ---------------------------------------------------------------------------
  // run_ply_converter
  // ---------------------------------------------------------------------------

  /** What `run_ply_converter` ran, and whether the shell reported success. */
  datatype ConverterRun = ConverterRun(command: string, workingDir: string, succeeded: bool)

  /** `FileNotFoundError` for a missing converter script. */
  datatype ConverterError = ScriptNotFound(script: string)

  /** The four entries of `cmd`. */
  function ConverterArgs(script: string, inputAbs: string, outputAbs: string): seq<string> {
    ["python", Quote(NtPath.BaseName(script)), "--input " + Quote(inputAbs), "--output " + Quote(outputAbs)]
  }

  /**
   * `run_ply_converter(input_ply_path, output_folder)` with the configuration `c`.
   * A missing script is an error; otherwise the command is run in the script's
   * directory on the absolute input path and on `output_folder` joined with the
   * configured output name. A failing command (`CalledProcessError`) is reported and
   * swallowed, so it is not an error.
   */
  function RunPlyConverter(
    c: Config, scriptExists: bool, inputPlyPath: string, outputFolder: string,
    absPath: string -> string, exitsZero: (string, string) -> bool): (r: Result<ConverterRun, ConverterError>)
    requires NtPath.IsPlainName(c.converterOutputName)
    ensures r.Failure? <==> !scriptExists
    ensures r.Failure? ==> r.error == ScriptNotFound(c.plyConverterScript)
    ensures r.Success? ==> r.value.workingDir == NtPath.DirName(c.plyConverterScript)
    ensures r.Success? ==> r.value.succeeded == exitsZero(r.value.command, r.value.workingDir)
    ensures r.Success? ==>
      var out := NtPath.Join(outputFolder, c.converterOutputName);
      && NtPath.BaseName(out) == c.converterOutputName
      && r.value.command == JoinWith(ConverterArgs(c.plyConverterScript, absPath(inputPlyPath), absPath(out)), ' ')
  {
    var converterDir := NtPath.DirName(c.plyConverterScript);
    if !scriptExists then Failure(ScriptNotFound(c.plyConverterScript))
    else
      var out := NtPath.Join(outputFolder, c.converterOutputName);
      var command := JoinWith(ConverterArgs(c.plyConverterScript, absPath(inputPlyPath), absPath(out)), ' ');
      Success(ConverterRun(command, converterDir, exitsZero(command, converterDir)))
  }

  /** Joining the four entries with spaces gives the same line as joining the six words. */
  lemma ArgsJoinAsWords(b: string, i: string, o: string)
    ensures JoinWith(["python", b, "--input " + i, "--output " + o], ' ')
         == JoinWith(["python", b, "--input", i, "--output", o], ' ')
  {
    assert "--output " + o == "--output" + [' '] + o;
    assert "--input " + i == "--input" + [' '] + i;
    JoinPiece("--output", o, [], ' ');
    assert ["--output", o] + [] == ["--output", o];
    JoinPiece("--input", i, ["--output " + o], ' ');
    JoinCons("--input", [i, "--output " + o], ' ');
    JoinCons("--input", [i, "--output", o], ' ');
    JoinCons(i, ["--output " + o], ' ');
    JoinCons(i, ["--output", o], ' ');
    JoinCons(b, ["--input " + i, "--output " + o], ' ');
    JoinCons(b, ["--input", i, "--output", o], ' ');
    JoinCons("python", [b, "--input " + i, "--output " + o], ' ');
    JoinCons("python", [b, "--input", i, "--output", o], ' ');
  }

  /**
   * When the script name and the two absolute paths hold no space, the shell
   * splits the command into exactly six words: `python`, the quoted script name,
   * `--input`, the quoted input path, `--output` and the quoted output path.
   */
  lemma ConverterCommandWords(script: string, inputAbs: string, outputAbs: string)
    requires ' ' !in NtPath.BaseName(script) && ' ' !in inputAbs && ' ' !in outputAbs
    ensures Split(JoinWith(ConverterArgs(script, inputAbs, outputAbs), ' '), ' ')
         == ["python", Quote(NtPath.BaseName(script)), "--input", Quote(inputAbs), "--output", Quote(outputAbs)]
  {
    var b, i, o := Quote(NtPath.BaseName(script)), Quote(inputAbs), Quote(outputAbs);
    var words := ["python", b, "--input", i, "--output", o];
    ArgsJoinAsWords(b, i, o);
    assert forall k :: 0 <= k < |words| ==> ' ' !in words[k] by {
      assert ' ' !in b && ' ' !in i && ' ' !in o;
    }
    SplitJoin(words, ' ');
  }
}
