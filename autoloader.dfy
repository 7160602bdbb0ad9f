/**
 * The hot-reload component `GaussianAutoPlyRuntime`: a file-system watcher feeds
 * a FIFO of paths whose file name is the tracked one, the per-frame `Update`
 * drains that queue and starts one import coroutine per path, and each import
 * waits for the file to exist and to keep the same size, asks the converter for
 * a runtime asset and, only when one came back, writes it into the renderer.
 *
 * File-system observations are parameters: the results of `Directory.Exists`,
 * the `*.ply` files already in the folder, the successive `File.Exists` checks
 * and file-length readings of one import. The converter is a function
 * parameter; the renderer is one slot, `runtimeAsset`.
 */
module AutoLoader {
  import opened Wrappers
  import opened StabilityDetector

  // ---------------------------------------------------------------------------
  // System.IO.Path and ordinal ignore-case comparison
  // ---------------------------------------------------------------------------

  /** Directory, alternate directory and volume separators of .NET on Windows. */
  predicate IsPathSeparator(c: char) {
    c == '\\' || c == '/' || c == ':'
  }

  /** Where the component that ends at index `k` of `path` begins: just after the last separator before `k`. */
  function ComponentStart(path: string, k: nat): (start: nat)
    requires k <= |path|
    ensures start <= k
    ensures forall i :: start <= i < k ==> !IsPathSeparator(path[i])
    ensures start > 0 ==> IsPathSeparator(path[start - 1])
    decreases k
  {
    if k == 0 || IsPathSeparator(path[k - 1]) then k else ComponentStart(path, k - 1)
  }

  /** `Path.GetFileName`: everything after the last separator. */
  function FileName(path: string): (r: string)
    ensures |r| <= |path| && r == path[|path| - |r|..]
  {
    path[ComponentStart(path, |path|)..]
  }

  /** The file name holds no separator, and whatever precedes it ends with one. */
  lemma FileNameIsLastComponent(path: string)
    ensures forall i :: 0 <= i < |FileName(path)| ==> !IsPathSeparator(FileName(path)[i])
    ensures |FileName(path)| < |path| ==> IsPathSeparator(path[|path| - |FileName(path)| - 1])
  {
    var start := ComponentStart(path, |path|);
    assert forall i :: 0 <= i < |path| - start ==> FileName(path)[i] == path[start + i];
  }

  /** The index of the last '.' of `name` before index `k`, as `name.LastIndexOf('.')` gives it for `k = |name|`. */
  function LastDotBefore(name: string, k: nat): (r: Option<nat>)
    requires k <= |name|
    ensures r.None? ==> forall i :: 0 <= i < k ==> name[i] != '.'
    ensures r.Some? ==> r.value < k && name[r.value] == '.'
    ensures r.Some? ==> forall i :: r.value < i < k ==> name[i] != '.'
    decreases k
  {
    if k == 0 then None
    else if name[k - 1] == '.' then Some(k - 1)
    else LastDotBefore(name, k - 1)
  }

  /** A file name cut before its last dot; without a dot it stays whole. */
  function StripExtension(name: string): (r: string)
    ensures |r| <= |name| && r == name[..|r|]
    ensures '.' !in name ==> r == name
    ensures '.' in name ==>
              && |r| < |name|
              && name[|r|] == '.'
              && forall i :: |r| < i < |name| ==> name[i] != '.'
  {
    var dot := LastDotBefore(name, |name|);
    if dot.None? then name else name[..dot.value]
  }

  /** `Path.GetFileNameWithoutExtension`: the file name with its extension stripped. */
  function FileNameWithoutExtension(path: string): (r: string)
    ensures |r| <= |FileName(path)| && r == FileName(path)[..|r|]
    ensures '.' !in FileName(path) ==> r == FileName(path)
  {
    StripExtension(FileName(path))
  }

  /** A run of non-separators right after a separator is the component that ends the run. */
  lemma {:induction false} ComponentStartAfterSeparator(path: string, start: nat, k: nat)
    requires 0 < start <= k <= |path|
    requires IsPathSeparator(path[start - 1])
    requires forall i :: start <= i < k ==> !IsPathSeparator(path[i])
    ensures ComponentStart(path, k) == start
    decreases k
  {
    if k > start {
      ComponentStartAfterSeparator(path, start, k - 1);
    }
  }

  /** The file name of a directory joined with a separator-free name is that name. */
  lemma FileNameAfterSeparator(dir: string, name: string)
    requires forall i :: 0 <= i < |name| ==> !IsPathSeparator(name[i])
    ensures FileName(dir + "\\" + name) == name
  {
    var p := dir + "\\" + name;
    forall i | |dir| + 1 <= i < |p|
      ensures !IsPathSeparator(p[i])
    {
      assert p[i] == name[i - |dir| - 1];
    }
    ComponentStartAfterSeparator(p, |dir| + 1, |p|);
  }

  /** Ordinal ignore-case folding, for ASCII letters. */
  function FoldCase(c: char): char {
    if 'a' <= c <= 'z' then (c as int - 32) as char else c
  }

  /** `string.Equals(a, b, StringComparison.OrdinalIgnoreCase)`, character by character. */
  predicate EqualsIgnoreCase(a: string, b: string)
    decreases |a|
  {
    |a| == |b| && (|a| == 0 || (FoldCase(a[0]) == FoldCase(b[0]) && EqualsIgnoreCase(a[1..], b[1..])))
  }

  /** Ignore-case equality is equal length and equal folded characters at every index. */
  lemma {:induction false} EqualsIgnoreCaseAt(a: string, b: string)
    ensures EqualsIgnoreCase(a, b) <==> |a| == |b| && forall i :: 0 <= i < |a| ==> FoldCase(a[i]) == FoldCase(b[i])
    decreases |a|
  {
    if |a| > 0 && |b| > 0 {
      EqualsIgnoreCaseAt(a[1..], b[1..]);
      if |a| == |b| {
        assert forall i :: 1 <= i < |a| ==> a[1..][i - 1] == a[i] && b[1..][i - 1] == b[i];
      }
    }
  }

  /** The path filter: the file-name component is the tracked name, ignoring case. */
  predicate IsWanted(path: string, fileNameToWatch: string) {
    EqualsIgnoreCase(FileName(path), fileNameToWatch)
  }

  /** The paths of `paths` that pass the filter, in their order. */
  function WantedPaths(paths: seq<string>, fileNameToWatch: string): (r: seq<string>)
    ensures |r| <= |paths|
    decreases |paths|
  {
    if |paths| == 0 then []
    else
      var last := paths[|paths| - 1];
      WantedPaths(paths[..|paths| - 1], fileNameToWatch) + (if IsWanted(last, fileNameToWatch) then [last] else [])
  }

  /** The filter keeps exactly the wanted paths. */
  lemma {:induction false} WantedPathsMembers(paths: seq<string>, fileNameToWatch: string)
    ensures forall p :: p in WantedPaths(paths, fileNameToWatch) <==> p in paths && IsWanted(p, fileNameToWatch)
    decreases |paths|
  {
    if |paths| > 0 {
      var front := paths[..|paths| - 1];
      WantedPathsMembers(front, fileNameToWatch);
      assert paths == front + [paths[|paths| - 1]];
    }
  }

  /**
   * Under any directory, a file is accepted exactly when its name matches the
   * tracked name letter by letter up to case.
   */
  lemma WantedUnderDirectory(dir: string, name: string, fileNameToWatch: string)
    requires forall i :: 0 <= i < |name| ==> !IsPathSeparator(name[i])
    ensures IsWanted(dir + "\\" + name, fileNameToWatch)
        <==> |name| == |fileNameToWatch| && forall i :: 0 <= i < |name| ==> FoldCase(name[i]) == FoldCase(fileNameToWatch[i])
  {
    FileNameAfterSeparator(dir, name);
    EqualsIgnoreCaseAt(name, fileNameToWatch);
  }

  /** Appending one path extends the filtered paths by that path exactly when it passes. */
  lemma WantedPathsSnoc(paths: seq<string>, i: nat, fileNameToWatch: string)
    requires i < |paths|
    ensures WantedPaths(paths[..i + 1], fileNameToWatch)
         == WantedPaths(paths[..i], fileNameToWatch) + (if IsWanted(paths[i], fileNameToWatch) then [paths[i]] else [])
  {
    assert paths[..i + 1][..i] == paths[..i];
  }

  /** Other names in the same folder, such as the sample input, are ignored. */
  lemma OtherNamesIgnored(dir: string)
    ensures !IsWanted(dir + "\\sample.ply", "output.ply")
    ensures !IsWanted(dir + "\\output.ply.tmp", "output.ply")
  {
    var sample, temp := "sample.ply", "output.ply.tmp";
    assert "\\sample.ply" == "\\" + sample;
    assert "\\output.ply.tmp" == "\\" + temp;
    FileNameAfterSeparator(dir, sample);
    FileNameAfterSeparator(dir, temp);
    assert FoldCase(sample[0]) == 'S' && FoldCase("output.ply"[0]) == 'O';
    assert |temp| != |"output.ply"|;
  }

  // ---------------------------------------------------------------------------
  // The component
  // ---------------------------------------------------------------------------

  /** What the runtime asset creator hands back; `splatCount` is only logged. */
  datatype RuntimeAsset = RuntimeAsset(name: string, splatCount: int)

  /** A call of `CreateAsset`: it returns an asset, returns null, or throws. */
  datatype Creation = Created(asset: RuntimeAsset) | ReturnedNull | Threw(message: string)

  /** The member the renderer type exposes for its runtime asset, found by reflection. */
  datatype AssetMember = RuntimeAssetProperty | RuntimeAssetField | NoAssetMember

  /** The arguments of one `CreateAsset` call. */
  datatype CreateRequest = CreateRequest(name: string, path: string, importCameras: bool)

  /** How one run of the import coroutine ends, up to the observations it was given. */
  datatype ImportOutcome =
    | AwaitingFile                          // the file has not appeared yet
    | AwaitingStableSize                    // the size has not been steady long enough yet
    | CreationFailed                        // CreateAsset threw or returned null
    | Assigned(asset: RuntimeAsset)         // written to the renderer's member
    | MemberMissing(asset: RuntimeAsset)    // warning logged, renderer untouched

  /** The readings stabilise at some point. */
  predicate Stabilizes(lengths: seq<int>) {
    exists k :: 0 <= k <= |lengths| && Streak(lengths[..k]) == StableChecks
  }

  class GaussianAutoPlyRuntime {
    // inspector configuration
    const watchFolder: string
    const fileNameToWatch: string
    const processExistingOnStart: bool
    const importCamerasJson: bool
    /** The shape of the renderer type, as reflection sees it. */
    const assetMember: AssetMember

    /** `_watcher != null`. */
    var watching: bool
    /** `_queue`, oldest first. */
    var queue: seq<string>
    /** The paths of the import coroutines started so far, in order. */
    var started: seq<string>
    /** The `CreateAsset` calls made so far, in order. */
    var createCalls: seq<CreateRequest>
    /** The renderer's runtime asset slot. */
    var runtimeAsset: Option<RuntimeAsset>

    /** Nothing but the tracked file name is ever queued, imported or converted. */
    ghost predicate Valid()
      reads this
    {
      && (forall p :: p in queue ==> IsWanted(p, fileNameToWatch))
      && (forall p :: p in started ==> IsWanted(p, fileNameToWatch))
      && (forall c :: c in createCalls ==> c.path in started)
    }

    /** The serialized fields, then `Awake`: the renderer found or added with `rendererAsset` in its slot. */
    constructor (watchFolder: string, fileNameToWatch: string, processExistingOnStart: bool,
                 importCamerasJson: bool, assetMember: AssetMember, rendererAsset: Option<RuntimeAsset>)
      ensures Valid()
      ensures this.watchFolder == watchFolder && this.fileNameToWatch == fileNameToWatch
      ensures this.processExistingOnStart == processExistingOnStart
      ensures this.importCamerasJson == importCamerasJson && this.assetMember == assetMember
      ensures !watching && queue == [] && started == [] && createCalls == []
      ensures runtimeAsset == rendererAsset
    {
      this.watchFolder := watchFolder;
      this.fileNameToWatch := fileNameToWatch;
      this.processExistingOnStart := processExistingOnStart;
      this.importCamerasJson := importCamerasJson;
      this.assetMember := assetMember;
      watching := false;
      queue := [];
      started := [];
      createCalls := [];
      runtimeAsset := rendererAsset;
    }

    /** Queue `path` at the back exactly when its file name is the tracked one. */
    method EnqueueIfWanted(path: string)
      requires Valid()
      modifies this`queue
      ensures Valid()
      ensures queue == if IsWanted(path, fileNameToWatch) then old(queue) + [path] else old(queue)
    {
      if !EqualsIgnoreCase(FileName(path), fileNameToWatch) {
        return;
      }
      queue := queue + [path];
    }

    /** The watcher's Created, Changed and Renamed handlers: all three forward the full path. */
    method OnFsEvent(fullPath: string)
      requires Valid() && watching
      modifies this`queue
      ensures Valid()
      ensures queue == if IsWanted(fullPath, fileNameToWatch) then old(queue) + [fullPath] else old(queue)
    {
      EnqueueIfWanted(fullPath);
    }

    /**
     * Without the watch folder nothing happens. Otherwise the watcher starts and,
     * if configured, the `*.ply` files already present go through the filter.
     */
    method OnEnable(folderExists: bool, existingPly: seq<string>)
      requires Valid()
      modifies this`watching, this`queue
      ensures Valid()
      ensures !folderExists ==> watching == old(watching) && queue == old(queue)
      ensures folderExists ==> watching
      ensures folderExists ==>
                queue == old(queue) + (if processExistingOnStart then WantedPaths(existingPly, fileNameToWatch) else [])
    {
      if !folderExists {
        return;
      }
      watching := true;
      if processExistingOnStart {
        EnqueueAll(existingPly);
      }
    }

    /** The `processExistingOnStart` loop: every existing path goes through the filter, in order. */
    method EnqueueAll(paths: seq<string>)
      requires Valid()
      modifies this`queue
      ensures Valid()
      ensures queue == old(queue) + WantedPaths(paths, fileNameToWatch)
    {
      for i := 0 to |paths|
        invariant Valid()
        invariant queue == old(queue) + WantedPaths(paths[..i], fileNameToWatch)
      {
        WantedPathsSnoc(paths, i, fileNameToWatch);
        EnqueueIfWanted(paths[i]);
      }
      assert paths[..|paths|] == paths;
    }

    /** The watcher is released; no more events arrive. */
    method OnDisable()
      modifies this`watching
      ensures !watching
    {
      watching := false;
    }

    /** Drain the queue, oldest first, starting one import per path, duplicates included. */
    method Update()
      requires Valid()
      modifies this`queue, this`started
      ensures Valid()
      ensures queue == []
      ensures started == old(started) + old(queue)
    {
      while queue != []
        invariant Valid()
        invariant started + queue == old(started) + old(queue)
        decreases |queue|
      {
        var plyPath := queue[0];
        queue := queue[1..];
        started := started + [plyPath];
      }
    }

    /**
     * One import coroutine, run over the `File.Exists` checks `present` and the
     * length readings `lengths` it gets to see. `CreateAsset` is called once,
     * and only after the size was steady; the renderer is written only when an
     * asset came back and the renderer has a member to hold it.
     */
    method ImportWhenReady(plyPath: string, present: seq<bool>, lengths: seq<int>,
                           create: (string, string, bool) -> Creation) returns (outcome: ImportOutcome)
      requires Valid() && plyPath in started
      modifies this`createCalls, this`runtimeAsset
      ensures Valid()
      ensures outcome == AwaitingFile <==> true !in present
      ensures outcome == AwaitingStableSize <==> true in present && !Stabilizes(lengths)
      ensures var request := CreateRequest(FileNameWithoutExtension(plyPath), plyPath, importCamerasJson);
        && (outcome.AwaitingFile? || outcome.AwaitingStableSize? ==> createCalls == old(createCalls))
        && (!outcome.AwaitingFile? && !outcome.AwaitingStableSize? ==>
              createCalls == old(createCalls) + [request]
              && (outcome == CreationFailed <==> !create(request.name, request.path, request.importCameras).Created?)
              && (outcome.Assigned? || outcome.MemberMissing? ==>
                    outcome.asset == create(request.name, request.path, request.importCameras).asset))
      ensures outcome.Assigned? <==> (outcome.Assigned? || outcome.MemberMissing?) && assetMember != NoAssetMember
      ensures runtimeAsset == if outcome.Assigned? then Some(outcome.asset) else old(runtimeAsset)
    {
      var waits, found := WaitForFile(present);
      if !found {
        return AwaitingFile;
      }
      var polls, stable := PollUntilStable(lengths);
      if !stable {
        return AwaitingStableSize;
      }
      assert Stabilizes(lengths);
      var name := FileNameWithoutExtension(plyPath);
      createCalls := createCalls + [CreateRequest(name, plyPath, importCamerasJson)];
      var created := create(name, plyPath, importCamerasJson);
      if !created.Created? {
        return CreationFailed;
      }
      var asset := created.asset;
      match assetMember
      case RuntimeAssetProperty =>
        runtimeAsset := Some(asset);
        outcome := Assigned(asset);
      case RuntimeAssetField =>
        runtimeAsset := Some(asset);
        outcome := Assigned(asset);
      case NoAssetMember =>
        outcome := MemberMissing(asset);
    }
  }
}
