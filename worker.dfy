/** The worker-side wrapper around the OpenSCAD engine
    (src/worker/openSCAD.ts): the workspace files it keeps between runs, the
    static assets it fetches once, the preparation of a fresh engine
    instance, and one compile run with its logs and its outcome. */
module Worker {
  import opened Base
  import opened Strings
  import opened Protocol
  import opened EngineFs

  // ---------------------------------------------------------------------------
  // The stored workspace files

  /** `files.filter((file) => file.name !== name)`. */
  function RemoveNamed(files: seq<WorkspaceFile>, name: string): seq<WorkspaceFile> {
    if |files| == 0 then []
    else (if files[0].name == name then [] else [files[0]]) + RemoveNamed(files[1..], name)
  }

  /** `files.find((file) => file.name === name)`: the first file with that name. */
  function FindNamed(files: seq<WorkspaceFile>, name: string): (r: Option<WorkspaceFile>)
    ensures r.Some? ==> r.value in files && r.value.name == name
    ensures r.None? <==> forall i :: 0 <= i < |files| ==> files[i].name != name
  {
    if |files| == 0 then None
    else if files[0].name == name then Some(files[0])
    else FindNamed(files[1..], name)
  }

  /** The stored file: its path is set to the written path when it had none. */
  function Stored(content: WorkspaceFile, path: string): (r: WorkspaceFile)
    ensures r.name == content.name && r.content == content.content
    ensures r.path == if content.path == "" then path else content.path
  {
    if content.path == "" then content.(path := path) else content
  }

  /** Removal keeps exactly the files with another name, in their order. */
  lemma {:induction false} RemoveNamedAppend(a: seq<WorkspaceFile>, b: seq<WorkspaceFile>, name: string)
    ensures RemoveNamed(a + b, name) == RemoveNamed(a, name) + RemoveNamed(b, name)
  {
    if |a| > 0 {
      assert (a + b)[1..] == a[1..] + b;
      RemoveNamedAppend(a[1..], b, name);
    } else {
      assert a + b == b;
    }
  }

  lemma {:induction false} RemoveNamedMembers(files: seq<WorkspaceFile>, name: string)
    ensures forall f :: f in RemoveNamed(files, name) <==> f in files && f.name != name
  {
    if |files| > 0 {
      RemoveNamedMembers(files[1..], name);
      assert files == [files[0]] + files[1..];
    }
  }

  /** Removing a name no file has changes nothing. */
  lemma {:induction false} RemoveNamedAbsent(files: seq<WorkspaceFile>, name: string)
    requires forall i :: 0 <= i < |files| ==> files[i].name != name
    ensures RemoveNamed(files, name) == files
  {
    if |files| > 0 {
      RemoveNamedAbsent(files[1..], name);
      assert files == [files[0]] + files[1..];
    }
  }

  lemma {:induction false} FindRemoved(files: seq<WorkspaceFile>, name: string, other: string)
    ensures FindNamed(RemoveNamed(files, name), other) == if other == name then None else FindNamed(files, other)
  {
    if |files| > 0 {
      FindRemoved(files[1..], name, other);
      var r := RemoveNamed(files, name);
      if files[0].name == name {
        assert r == RemoveNamed(files[1..], name);
      } else {
        assert r == [files[0]] + RemoveNamed(files[1..], name);
        assert r[1..] == RemoveNamed(files[1..], name);
      }
    }
  }

  lemma {:induction false} FindAppend(a: seq<WorkspaceFile>, f: WorkspaceFile, name: string)
    ensures FindNamed(a + [f], name) == if FindNamed(a, name).Some? then FindNamed(a, name)
      else if f.name == name then Some(f) else None
  {
    if |a| > 0 {
      assert (a + [f])[1..] == a[1..] + [f];
      FindAppend(a[1..], f, name);
    }
  }

  /** What a read returns after a write: the written file under its own name
      when that name is the written path (last write wins), nothing under the
      written path otherwise, and reads of other names are unaffected unless
      the written file carries that name and none was stored before. */
  lemma ReadAfterWrite(files: seq<WorkspaceFile>, path: string, content: WorkspaceFile, other: string)
    ensures var after := RemoveNamed(files, path) + [Stored(content, path)];
      && FindNamed(after, path) == (if content.name == path then Some(Stored(content, path)) else None)
      && (other != path && (content.name != other || FindNamed(files, other).Some?) ==>
          FindNamed(after, other) == FindNamed(files, other))
  {
    FindRemoved(files, path, path);
    FindRemoved(files, path, other);
    FindAppend(RemoveNamed(files, path), Stored(content, path), path);
    FindAppend(RemoveNamed(files, path), Stored(content, path), other);
  }

  // ---------------------------------------------------------------------------
  // Static assets, fetched once per worker

  /** The font and the three base shapes. */
  datatype Assets = Assets(font: seq<byte>, capU: seq<byte>, capO: seq<byte>, capFlat: seq<byte>)

  /** The module-level `loadedAssets` flag and buffers. */
  class AssetCache {
    var loaded: bool
    var assets: Assets
    /** How many times the assets were fetched. */
    ghost var fetches: nat

    ghost predicate Valid()
      reads this
    {
      fetches == if loaded then 1 else 0
    }

    constructor()
      ensures !loaded && fetches == 0 && Valid()
    {
      loaded := false;
      assets := Assets([], [], [], []);
      fetches := 0;
    }

    /** The `if (!loadedAssets)` block: the buffers are written once, and
        the flag stays set. */
    method EnsureLoaded(fetched: Assets)
      requires Valid()
      modifies this
      ensures Valid() && loaded && fetches <= 1
      ensures assets == if old(loaded) then old(assets) else fetched
      ensures fetches == if old(loaded) then old(fetches) else old(fetches) + 1
    {
      if !loaded {
        assets := fetched;
        fetches := fetches + 1;
        loaded := true;
      }
    }
  }

  const FontsConf: string := "<?xml version=\"1.0\"?>\n<!DOCTYPE fontconfig SYSTEM \"fonts.dtd\">\n<fontconfig>\n</fontconfig>\n"
  const InputFile: string := "/input.scad"
  const OutputFile: string := "/out.stl"
  /** The message of the error `FS.readFile` throws on a missing file. */
  const FsErrorMessage: string := "FS error"

  /** The files every fresh instance starts with, in writing order. */
  function BaseFiles(a: Assets): map<string, seq<byte>> {
    map[]["/fonts/fonts.conf" := Utf8(FontsConf)]
      [Rooted("fonts/Inter-Noto-Regular.ttf") := a.font]
      [Rooted("Cap_U.stl") := a.capU]
      [Rooted("Cap_O.stl") := a.capO]
      [Rooted("Cap_Flat.stl") := a.capFlat]
  }

  /** A name relative to the root directory, which is the working directory
      of the engine. */
  function Rooted(name: string): string {
    "/" + name
  }

  /** The engine's files after the stored files are written over `m`, one
      after the other. */
  function Written(m: map<string, seq<byte>>, files: seq<WorkspaceFile>): map<string, seq<byte>> {
    if |files| == 0 then m
    else Written(m, files[..|files| - 1])[Canon(files[|files| - 1].path) := files[|files| - 1].content]
  }

  lemma WrittenStep(m: map<string, seq<byte>>, files: seq<WorkspaceFile>, i: nat)
    requires i < |files|
    ensures Written(m, files[..i + 1]) == Written(m, files[..i])[Canon(files[i].path) := files[i].content]
  {
    assert files[..i + 1][..i] == files[..i];
  }

  /** The names of the stored files' parent directories, in order. */
  function ParentNames(files: seq<WorkspaceFile>): (r: seq<string>)
    ensures |r| == |files|
  {
    if |files| == 0 then []
    else ParentNames(files[..|files| - 1]) + [Canon(ParentDir(files[|files| - 1].path))]
  }

  lemma ParentNamesStep(files: seq<WorkspaceFile>, i: nat)
    requires i < |files|
    ensures ParentNames(files[..i + 1]) == ParentNames(files[..i]) + [Canon(ParentDir(files[i].path))]
  {
    assert files[..i + 1][..i] == files[..i];
  }

  /** Entry `i` names the directory of file `i`: so `ParentNames(files)[i]`
      in the engine's names is `stat(dir)` succeeding for that file. */
  lemma {:induction false} ParentNamesAt(files: seq<WorkspaceFile>, i: nat)
    requires i < |files|
    ensures ParentNames(files)[i] == Canon(ParentDir(files[i].path))
  {
    if i < |files| - 1 {
      ParentNamesAt(files[..|files| - 1], i);
    }
  }

  /** A stored file written later overrides every earlier file and asset
      resolving to the same name; a name no stored file resolves to keeps
      the content it had. */
  lemma {:induction false} WrittenLookup(m: map<string, seq<byte>>, files: seq<WorkspaceFile>, name: string)
    ensures (forall i :: 0 <= i < |files| ==> Canon(files[i].path) != name) ==>
      (name in Written(m, files) <==> name in m) && (name in m ==> Written(m, files)[name] == m[name])
    ensures |files| > 0 && Canon(files[|files| - 1].path) == name ==>
      name in Written(m, files) && Written(m, files)[name] == files[|files| - 1].content
  {
    if |files| > 0 {
      WrittenLookup(m, files[..|files| - 1], name);
    }
  }

  // ---------------------------------------------------------------------------
  // One engine run

  datatype Stream = StdErr | StdOut

  /** How `callMain` ends: with an exit code, having written the output file
      (or not), or by throwing. A thrown value has a `message`, or prints as
      `text`. */
  datatype Outcome = Exit(code: int, written: Option<seq<byte>>) | Fault(message: string, text: string)

  /** What the engine does in one run: the lines it prints, in order, and
      how it ends. The engine is not part of this model; its run is an input. */
  datatype EngineRun = EngineRun(printed: seq<(Stream, string)>, outcome: Outcome)

  /** The printed lines of one stream, in order. */
  function Lines(printed: seq<(Stream, string)>, s: Stream): seq<string> {
    if |printed| == 0 then []
    else Lines(printed[..|printed| - 1], s) + (if printed[|printed| - 1].0 == s then [printed[|printed| - 1].1] else [])
  }

  /** A name the starting files lack is found after the stored files are
      written exactly when it is found among the stored files alone, with
      the same content. */
  lemma {:induction false} WrittenKeyIndependent(m: map<string, seq<byte>>, files: seq<WorkspaceFile>, k: string)
    requires k !in m
    ensures (k in Written(m, files)) == (k in Written(map[], files))
    ensures k in Written(m, files) ==> Written(m, files)[k] == Written(map[], files)[k]
  {
    if |files| > 0 {
      WrittenKeyIndependent(m, files[..|files| - 1], k);
    }
  }

  lemma InputName()
    ensures Canon(InputFile) == InputFile
  {
    assert InputFile == "/" + "input.scad";
    CanonOne("input.scad");
  }

  lemma OutputName()
    ensures Canon(OutputFile) == OutputFile
  {
    assert OutputFile == "/" + "out.stl";
    CanonOne("out.stl");
  }

  /** The names the engine keeps the starting files under. */
  lemma FontsConfName()
    ensures Canon("/fonts/fonts.conf") == "/fonts/fonts.conf"
  {
    assert "/fonts/fonts.conf" == "/" + "fonts" + "/" + "fonts.conf";
    CanonTwo("fonts", "fonts.conf");
  }

  lemma FontName()
    ensures Canon("fonts/Inter-Noto-Regular.ttf") == Rooted("fonts/Inter-Noto-Regular.ttf")
  {
    assert "fonts/Inter-Noto-Regular.ttf" == "fonts" + "/" + "Inter-Noto-Regular.ttf";
    CanonTwo("fonts", "Inter-Noto-Regular.ttf");
  }

  lemma CapNames()
    ensures Canon("Cap_U.stl") == Rooted("Cap_U.stl") && Canon("Cap_O.stl") == Rooted("Cap_O.stl")
    ensures Canon("Cap_Flat.stl") == Rooted("Cap_Flat.stl")
  {
    CanonOne("Cap_U.stl");
    CanonOne("Cap_O.stl");
    CanonOne("Cap_Flat.stl");
  }

  /** Neither the starting files nor the script are named `/out.stl`. */
  lemma OutputNotFixed(a: Assets)
    ensures OutputFile !in BaseFiles(a) && InputFile != OutputFile
  {
  }

  /** The content of `/out.stl` among the files `m`. */
  function OutputIn(m: map<string, seq<byte>>): Option<seq<byte>> {
    if OutputFile in m then Some(m[OutputFile]) else None
  }

  /** The result of `executeOpenscad` once the engine has ended, given the
      log at that point and the content `/out.stl` had before the run. */
  function OutcomeResult(outcome: Outcome, log: Log, before: Option<seq<byte>>, duration: int)
    : Result<OpenSCADResponseData>
  {
    match outcome
    case Fault(message, text) =>
      Failure("OpenSCAD exited with an error: " + (if message != "" then message else text))
    case Exit(code, written) =>
      var out := if written.Some? then written else before;
      if code == 0 && out.None? then Failure("OpenSCAD cannot read created file: " + FsErrorMessage)
      else Success(OpenSCADResponseData(log, if code == 0 then out else None, code, duration))
  }

  /** The result of `executeOpenscad` for a run of the engine. */
  function RunResult(run: EngineRun, before: Option<seq<byte>>, duration: int): Result<OpenSCADResponseData> {
    OutcomeResult(run.outcome, Log(Lines(run.printed, StdErr), Lines(run.printed, StdOut)), before, duration)
  }

  /** The three ways a run ends: a thrown fault is an error; exit code 0
      yields the output file, or an error when it cannot be read; any other
      code returns normally without output. The log holds each stream's
      printed lines in order. */
  lemma RunResultCases(run: EngineRun, before: Option<seq<byte>>, duration: int)
    ensures var r := RunResult(run, before, duration);
      && (run.outcome.Fault? ==> r.Failure? && StartsWith(r.error, "OpenSCAD exited with an error: "))
      && (run.outcome.Exit? && run.outcome.code == 0 ==>
           (r.Success? <==> (run.outcome.written.Some? || before.Some?))
           && (r.Success? ==> r.value.output.Some? && r.value.exitCode == 0)
           && (r.Failure? ==> r.error == "OpenSCAD cannot read created file: FS error"))
      && (run.outcome.Exit? && run.outcome.code != 0 ==>
           r.Success? && r.value.output.None? && r.value.exitCode == run.outcome.code)
      && (r.Success? ==>
           r.value.duration == duration && r.value.log == Log(Lines(run.printed, StdErr), Lines(run.printed, StdOut)))
  {
  }

  /** Every printed line lands in exactly one stream's log. */
  lemma {:induction false} LinesPartition(printed: seq<(Stream, string)>)
    ensures |Lines(printed, StdErr)| + |Lines(printed, StdOut)| == |printed|
  {
    if |printed| > 0 {
      LinesPartition(printed[..|printed| - 1]);
    }
  }

  /** `exportFile`'s flags. */
  const ExportParams: seq<string> :=
    ["--export-format=binstl", "--enable=manifold", "--enable=fast-csg", "--enable=lazy-union"]

  /** `preview`'s flags. */
  const PreviewParams: seq<string> :=
    ["--export-format=binstl", "--enable=manifold", "--enable=fast-csg", "--enable=lazy-union", "--enable=roof"]

  function Argv(params: seq<string>): (argv: seq<string>)
    ensures |argv| == 3 + |params| && argv[3..] == params
    ensures argv[..3] == [InputFile, "-o", OutputFile]
  {
    [InputFile, "-o", OutputFile] + params
  }

  /** Both profiles export binary STL; the preview profile is the export
      profile with the roof feature enabled. */
  lemma ParamProfiles()
    ensures PreviewParams == ExportParams + ["--enable=roof"]
    ensures ExportParams[0] == "--export-format=binstl" && "--enable=roof" !in ExportParams
  {
  }

  // ---------------------------------------------------------------------------
  // The wrapper

  class OpenSCADWrapper {
    var stdErr: seq<string>
    var stdOut: seq<string>
    var files: seq<WorkspaceFile>

    constructor()
      ensures stdErr == [] && stdOut == [] && files == []
    {
      stdErr := [];
      stdOut := [];
      files := [];
    }

    /** `logger(type)(text)`: the line goes to that stream only. */
    method Logger(s: Stream, text: string)
      modifies this
      ensures s == StdErr ==> stdErr == old(stdErr) + [text] && stdOut == old(stdOut)
      ensures s == StdOut ==> stdOut == old(stdOut) + [text] && stdErr == old(stdErr)
      ensures files == old(files)
    {
      if s == StdErr {
        stdErr := stdErr + [text];
      } else {
        stdOut := stdOut + [text];
      }
    }

    /** `writeFile`: the files named like the path are dropped and the
        content is appended, its path set to the written path when empty. */
    method WriteFile(data: FileSystemMessageData) returns (ok: bool)
      requires data.content.Some?
      modifies this
      ensures files == RemoveNamed(old(files), data.path) + [Stored(data.content.value, data.path)]
      ensures stdErr == old(stdErr) && stdOut == old(stdOut)
      ensures ok
    {
      files := RemoveNamed(files, data.path);
      files := files + [Stored(data.content.value, data.path)];
      ok := true;
    }

    /** `readFile`: the first stored file with that name, if any. */
    method ReadFile(data: FileSystemMessageData) returns (r: FileSystemMessageData)
      ensures r == FileSystemMessageData(data.path, FindNamed(files, data.path))
    {
      r := FileSystemMessageData(data.path, FindNamed(files, data.path));
    }

    /** `unlinkFile`: every file with that name is dropped. */
    method UnlinkFile(data: FileSystemMessageData) returns (ok: bool)
      modifies this
      ensures files == RemoveNamed(old(files), data.path)
      ensures stdErr == old(stdErr) && stdOut == old(stdOut)
      ensures ok
    {
      files := RemoveNamed(files, data.path);
      ok := true;
    }

    /** `fileExists`: `stat` succeeds. */
    method FileExists(engine: Engine, path: string) returns (b: bool)
      ensures b == engine.Stat(path)
    {
      b := Canon(path) in engine.dirs || Canon(path) in engine.files;
    }

    /** `createDirectoryRecusive`: every accumulated prefix exists afterwards,
        and `mkdir` is called exactly on the prefixes that did not exist. */
    method CreateDirectoryRecursive(engine: Engine, path: string)
      modifies engine
      ensures engine.files == old(engine.files) && old(engine.dirs) <= engine.dirs
      ensures engine.Names() == old(engine.Names()) + CanonSet(DirPrefixes(path))
      ensures engine.mkdirs == old(engine.mkdirs) + MkdirCalls(DirPrefixes(path), old(engine.Names()))
    {
      var parts := Split(path, '/');
      ghost var ps := DirPrefixes(path);
      ghost var existing := engine.Names();
      var currentPath := "";
      for i := 0 to |parts|
        invariant currentPath == PathPrefix(parts, i)
        invariant engine.files == old(engine.files) && old(engine.dirs) <= engine.dirs
        invariant engine.Names() == existing + CanonSet(ps[..i])
        invariant engine.mkdirs == old(engine.mkdirs) + MkdirCalls(ps[..i], existing)
      {
        currentPath := currentPath + "/" + parts[i];
        DirPrefixAt(path, i);
        MkdirPrefix(engine, ps, i, currentPath, existing, old(engine.mkdirs));
      }
      assert ps[..|parts|] == ps;
    }

    /** One step of `createDirectoryRecusive`: the prefix is created unless
        it exists. */
    method MkdirPrefix(engine: Engine, ghost ps: seq<string>, i: nat, current: string,
                       ghost existing: set<string>, ghost before: seq<string>)
      requires i < |ps| && current == ps[i]
      requires engine.Names() == existing + CanonSet(ps[..i])
      requires engine.mkdirs == before + MkdirCalls(ps[..i], existing)
      modifies engine
      ensures engine.files == old(engine.files) && old(engine.dirs) <= engine.dirs
      ensures engine.Names() == existing + CanonSet(ps[..i + 1])
      ensures engine.mkdirs == before + MkdirCalls(ps[..i + 1], existing)
    {
      MkdirCallsStep(ps, i, existing);
      ghost var done := MkdirCalls(ps[..i], existing);
      var found := FileExists(engine, current);
      if !found {
        engine.Mkdir(current);
        assert before + done + [current] == before + (done + [current]);
      } else {
        assert done + [] == done;
      }
    }

    /** The fixed part of `getInstance`: the fonts directory, the font
        configuration, the font and the three base shapes. */
    method WriteBaseFiles(engine: Engine, assets: Assets)
      requires engine.files == map[] && engine.dirs == {"/"}
      modifies engine
      ensures engine.files == BaseFiles(assets)
      ensures "/" in engine.dirs && engine.Stat("fonts")
    {
      CreateDirectoryRecursive(engine, "fonts");
      PrefixesNamed("fonts", engine.Names());
      FontsConfName();
      FontName();
      CapNames();
      engine.WriteFile("/fonts/fonts.conf", Utf8(FontsConf));
      engine.WriteFile("fonts/Inter-Noto-Regular.ttf", assets.font);
      engine.WriteFile("Cap_U.stl", assets.capU);
      engine.WriteFile("Cap_O.stl", assets.capO);
      engine.WriteFile("Cap_Flat.stl", assets.capFlat);
    }

    /** One iteration of the loop of `getInstance` over the stored files:
        the file's parent directory is created when it is named and
        missing, then the file is written. */
    method WriteStoredFile(engine: Engine, file: WorkspaceFile)
      requires "/" in engine.dirs
      modifies engine
      ensures engine.files == old(engine.files)[Canon(file.path) := file.content]
      ensures "/" in engine.dirs && old(engine.Names()) <= engine.Names()
      ensures engine.Stat(ParentDir(file.path))
    {
      var dir := ParentDir(file.path);
      if dir != "" {
        var found := FileExists(engine, dir);
        if !found {
          CreateDirectoryRecursive(engine, dir);
          PrefixesNamed(dir, engine.Names());
        }
      } else {
        CanonEmpty();
      }
      engine.WriteFile(file.path, file.content);
    }

    /** The loop of `getInstance` over the stored files, in their order. */
    method WriteStoredFiles(engine: Engine)
      requires "/" in engine.dirs
      modifies engine
      ensures engine.files == Written(old(engine.files), files)
      ensures old(engine.Names()) <= engine.Names()
      ensures forall i :: 0 <= i < |files| ==> ParentNames(files)[i] in engine.Names()
    {
      ghost var parents: seq<string> := [];
      for i := 0 to |files|
        invariant engine.files == Written(old(engine.files), files[..i])
        invariant "/" in engine.dirs && old(engine.Names()) <= engine.Names()
        invariant parents == ParentNames(files[..i])
        invariant forall j :: 0 <= j < i ==> parents[j] in engine.Names()
      {
        ghost var names := engine.Names();
        WriteStoredFile(engine, files[i]);
        WrittenStep(old(engine.files), files, i);
        ParentNamesStep(files, i);
        parents := parents + [Canon(ParentDir(files[i].path))];
        assert names <= engine.Names();
      }
      assert files[..|files|] == files;
    }

    /** `getInstance`: a fresh engine holding the fonts directory, the font
        configuration, the font, the three base shapes and then every stored
        file, each after its parent directory exists. */
    method GetInstance(cache: AssetCache, fetched: Assets) returns (engine: Engine)
      requires cache.Valid()
      modifies cache
      ensures fresh(engine)
      ensures cache.Valid() && cache.loaded
      ensures cache.assets == if old(cache.loaded) then old(cache.assets) else fetched
      ensures engine.files == Written(BaseFiles(cache.assets), files)
      ensures engine.Stat("fonts")
      ensures forall i :: 0 <= i < |files| ==> ParentNames(files)[i] in engine.Names()
    {
      engine := new Engine();
      cache.EnsureLoaded(fetched);
      WriteBaseFiles(engine, cache.assets);
      WriteStoredFiles(engine);
    }

    /** The `print`/`printErr` callbacks over one run: each printed line is
        logged to its stream. */
    method LogPrinted(printed: seq<(Stream, string)>)
      modifies this
      ensures stdErr == old(stdErr) + Lines(printed, StdErr) && stdOut == old(stdOut) + Lines(printed, StdOut)
      ensures files == old(files)
    {
      for i := 0 to |printed|
        invariant stdErr == old(stdErr) + Lines(printed[..i], StdErr)
        invariant stdOut == old(stdOut) + Lines(printed[..i], StdOut)
        invariant files == old(files)
      {
        assert printed[..i + 1][..i] == printed[..i];
        Logger(printed[i].0, printed[i].1);
      }
      assert printed[..|printed|] == printed;
    }

    /** `executeOpenscad`: the logs are cleared, the script is written to
        `/input.scad`, the engine runs on `["/input.scad", "-o", "/out.stl"]`
        and the flags, its printed lines are logged, and its outcome decides
        the result. */
    method ExecuteOpenscad(cache: AssetCache, fetched: Assets, code: string, params: seq<string>,
                           run: EngineRun, duration: int)
      returns (argv: seq<string>, r: Result<OpenSCADResponseData>)
      requires cache.Valid()
      modifies this, cache
      ensures argv == Argv(params)
      ensures files == old(files)
      ensures stdErr == Lines(run.printed, StdErr) && stdOut == Lines(run.printed, StdOut)
      ensures cache.Valid() && cache.loaded
      ensures cache.assets == if old(cache.loaded) then old(cache.assets) else fetched
      ensures r == RunResult(run, OutputIn(Written(map[], files)), duration)
    {
      stdErr := [];
      stdOut := [];
      var engine := PrepareRun(cache, fetched, code);
      argv := [InputFile, "-o", OutputFile] + params;
      LogPrinted(run.printed);
      assert [] + Lines(run.printed, StdErr) == Lines(run.printed, StdErr);
      assert [] + Lines(run.printed, StdOut) == Lines(run.printed, StdOut);
      r := Finish(engine, run.outcome, duration);
    }

    /** A fresh instance with the script written to `/input.scad`. */
    method PrepareRun(cache: AssetCache, fetched: Assets, code: string) returns (engine: Engine)
      requires cache.Valid()
      modifies cache
      ensures fresh(engine)
      ensures cache.Valid() && cache.loaded
      ensures cache.assets == if old(cache.loaded) then old(cache.assets) else fetched
      ensures OutputIn(engine.files) == OutputIn(Written(map[], files))
    {
      engine := GetInstance(cache, fetched);
      engine.WriteFile(InputFile, Utf8(code));
      InputName();
      OutputNotFixed(cache.assets);
      WrittenKeyIndependent(BaseFiles(cache.assets), files, OutputFile);
    }

    /** What follows `callMain`: a fault becomes an error; after an exit,
        `/out.stl` is read back when the code is 0. */
    method Finish(engine: Engine, outcome: Outcome, duration: int) returns (r: Result<OpenSCADResponseData>)
      modifies engine
      ensures r == OutcomeResult(outcome, Log(stdErr, stdOut), OutputIn(old(engine.files)), duration)
    {
      OutputName();
      match outcome {
        case Fault(message, text) =>
          r := Failure("OpenSCAD exited with an error: " + (if message != "" then message else text));
        case Exit(code, written) =>
          if written.Some? {
            engine.WriteFile(OutputFile, written.value);
          }
          var output: Option<seq<byte>> := None;
          if code == 0 {
            output := engine.ReadFile(OutputFile);
            if output.None? {
              r := Failure("OpenSCAD cannot read created file: " + FsErrorMessage);
              return;
            }
          }
          r := Success(OpenSCADResponseData(Log(stdErr, stdOut), output, code, duration));
      }
    }

    /** `exportFile`: a run with the export flags. */
    method ExportFile(cache: AssetCache, fetched: Assets, data: OpenSCADMessageData, run: EngineRun, duration: int)
      returns (argv: seq<string>, r: Result<OpenSCADResponseData>)
      requires cache.Valid()
      modifies this, cache
      ensures argv == Argv(ExportParams)
      ensures files == old(files) && cache.Valid() && cache.loaded
      ensures cache.assets == if old(cache.loaded) then old(cache.assets) else fetched
      ensures r == RunResult(run, OutputIn(Written(map[], files)), duration)
    {
      argv, r := ExecuteOpenscad(cache, fetched, data.code, ExportParams, run, duration);
    }

    /** `preview`: a run with the preview flags. */
    method Preview(cache: AssetCache, fetched: Assets, data: OpenSCADMessageData, run: EngineRun, duration: int)
      returns (argv: seq<string>, r: Result<OpenSCADResponseData>)
      requires cache.Valid()
      modifies this, cache
      ensures argv == Argv(PreviewParams)
      ensures files == old(files) && cache.Valid() && cache.loaded
      ensures cache.assets == if old(cache.loaded) then old(cache.assets) else fetched
      ensures r == RunResult(run, OutputIn(Written(map[], files)), duration)
    {
      argv, r := ExecuteOpenscad(cache, fetched, data.code, PreviewParams, run, duration);
    }
  }

  // ---------------------------------------------------------------------------
  // Shell quoting

  predicate ShellSpecial(c: char) {
    c == '"' || c == '\'' || c == '$' || c == '`' || c == '\\'
  }

  function ShellEscapeEach(s: string): string {
    if |s| == 0 then ""
    else (if ShellSpecial(s[0]) then ['\\', s[0]] else [s[0]]) + ShellEscapeEach(s[1..])
  }

  /** `escapeShell`: each of `" ' $ `` ` `` \` gets a backslash in front, and
      the whole is wrapped in double quotes. */
  function EscapeShell(cmd: string): string {
    "\"" + ShellEscapeEach(cmd) + "\""
  }

  function ShellUnescapeEach(s: string): Option<string>
    decreases |s|
  {
    if |s| == 0 then Some("")
    else if s[0] == '\\' then
      if |s| >= 2 && ShellSpecial(s[1]) then
        match ShellUnescapeEach(s[2..])
        case Some(rest) => Some([s[1]] + rest)
        case None => None
      else None
    else if ShellSpecial(s[0]) then None
    else
      match ShellUnescapeEach(s[1..])
      case Some(rest) => Some([s[0]] + rest)
      case None => None
  }

  /** Reading a quoted word back: the quotes go and each backslash is
      dropped before the character it protects. */
  function UnescapeShell(s: string): Option<string> {
    if |s| >= 2 && s[0] == '"' && s[|s| - 1] == '"' then ShellUnescapeEach(s[1..|s| - 1]) else None
  }

  lemma {:induction false} ShellEachRoundTrip(s: string)
    ensures ShellUnescapeEach(ShellEscapeEach(s)) == Some(s)
  {
    if |s| > 0 {
      ShellEachRoundTrip(s[1..]);
      var e := ShellEscapeEach(s);
      if ShellSpecial(s[0]) {
        assert e[2..] == ShellEscapeEach(s[1..]);
      } else {
        assert e[1..] == ShellEscapeEach(s[1..]);
      }
      assert s == [s[0]] + s[1..];
    }
  }

  /** The quoting is reversible, so distinct commands quote differently. */
  lemma EscapeShellRoundTrip(cmd: string)
    ensures UnescapeShell(EscapeShell(cmd)) == Some(cmd)
  {
    ShellEachRoundTrip(cmd);
    var e := EscapeShell(cmd);
    assert e[1..|e| - 1] == ShellEscapeEach(cmd);
  }

  /** Inside the quotes, every special character is escaped. */
  lemma {:induction false} ShellEscapeProtects(s: string)
    ensures var e := ShellEscapeEach(s);
      forall i :: 0 <= i < |e| && ShellSpecial(e[i]) && e[i] != '\\' ==> i > 0 && e[i - 1] == '\\'
  {
    if |s| > 0 {
      ShellEscapeProtects(s[1..]);
      var e := ShellEscapeEach(s);
      var k := if ShellSpecial(s[0]) then 2 else 1;
      assert e[k..] == ShellEscapeEach(s[1..]);
      forall i | 0 <= i < |e| && ShellSpecial(e[i]) && e[i] != '\\' ensures i > 0 && e[i - 1] == '\\' {
        if i >= k {
          assert e[i] == ShellEscapeEach(s[1..])[i - k];
        }
      }
    }
  }
}
