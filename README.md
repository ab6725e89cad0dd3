# Keycap Builder Web — a Dafny model of its export core

Keycap Builder Web turns a list of keycap descriptions ("fields") into STL
meshes. For each field it fills the placeholders of an OpenSCAD template with
the field's labels and options, sends the script to an OpenSCAD WebAssembly
engine running in a worker, and gives the user a single mesh or a
`keycaps.zip` archive. This project models that pipeline and proves
properties of the model:

- `Escape` (escape.dfy): the two label transforms of the export button.
  `escapeString` prepares a label for a double-quoted OpenSCAD string
  literal, and `makeFilenameSafe` spells out characters a file name may not
  hold. Each is written as the source's chain of global `replace` calls and
  proved equal to a per-character map. From that follow an escape round
  trip, the absence of raw control characters and unescaped quotes, and
  file-name safety.
- `KeycapScript` (keycap_script.dfy): the placeholder table of one field,
  the global replacement of each placeholder in table order (both literal
  and with JavaScript's `$` expansion of replacement strings), and the file
  name of a field's mesh.
- `Export` (export.dfy): `exportKeycap` as a class over the module-level
  template cache and the loading state. It has one export job per field in
  list order, a progress counter, and single-file versus zip packaging.
- `Workspace` (workspace.dfy): the field list. It covers the default field,
  adding a row, removing a row (the list never becomes empty), loading a
  preset, and the per-row edits, which assign into field objects shared
  between the old and the new array.
- `Provider` (provider.dfy): the page-wide state cells `log`,
  `previewFile`, `isExporting` and `isRendering`, and the transitions
  `execExport`, `preview`, `reset` and `resetLog`.
- `Protocol` (protocol.dfy) and `Execute` (execute.dfy): the message types
  between page and worker, and `executeOpenSCAD`. That function builds an
  id-less request and wraps the mesh as `output.stl` only when there is one.
- `Worker` (worker.dfy) and `EngineFs` (engine_fs.dfy): the worker-side
  `OpenSCADWrapper`. The model covers:
  - the stored workspace files (write, read and unlink by name);
  - the write-once asset cache;
  - the preparation of a fresh engine instance (fonts, base shapes, the
    stored files with their parent directories);
  - `createDirectoryRecusive` over `stat`/`mkdir`;
  - the logger;
  - one `executeOpenscad` run with its three endings;
  - the export and preview flag lists;
  - `escapeShell`.

  The engine's file system is a small class. It keys entries by their
  path resolved against `/`. The engine's run is an input: the lines it
  prints and how it ends.
- `Strings` and `Base`: JavaScript's `split`, `join`, number formatting and
  UTF-8 text encoding, plus `Option`, `Result` and `byte`.

Everything asynchronous is a sequential method. A value a step awaits is
one of its parameters: the fetched template, the assets, each job's answer,
or the engine's run.

## Model

| member | source | states |
|---|---|---|
| Escape.ChainPerChar | src/components/Buttons.tsx:16-37 | A chain of global one-character replacements equals mapping each character through the table, when no replacement word holds a character that a later step looks for. |
| Escape.EscapeTableIndependent | src/components/Buttons.tsx:18-23 | Doubling the backslash first makes the `escapeString` chain independent: no later step rewrites a backslash it introduced. |
| Escape.EscapeStringPerChar | src/components/Buttons.tsx:16-24 | `escapeString` acts on each character separately: `\`, `"`, `'`, newline, return and tab become two-character escapes. |
| Escape.EscapeStringKeeps | src/components/Buttons.tsx:16-24 | A label with no backslash, quote or control character is returned unchanged. |
| Escape.EscapeRoundTrip | src/components/Buttons.tsx:16-24 | Reading the escapes back recovers the original label exactly, so escaping is unambiguous. |
| Escape.EscapeStringNoDollar | src/components/Buttons.tsx:16-24 | Escaping introduces no `$`: a label without one escapes to a text without one. |
| Escape.EscapeStringIsSafe | src/components/Buttons.tsx:16-24 | The escaped text holds no raw newline, return or tab, and every double or single quote in it follows a backslash. |
| Escape.FilenameTableIndependent | src/components/Buttons.tsx:28-36 | The `makeFilenameSafe` words are lower-case letters only, so no later replacement touches an earlier word. |
| Escape.MakeFilenameSafePerChar | src/components/Buttons.tsx:26-37 | `makeFilenameSafe` replaces each unsafe character by its word and keeps every other character. |
| Escape.SafeCharProperties | src/components/Buttons.tsx:28-36 | The word for any character is file-name safe, and a safe character maps to itself. |
| Escape.MakeFilenameSafeIsSafe | src/components/Buttons.tsx:26-37 | The result holds none of the nine characters slash, backslash, colon, asterisk, question mark, double quote, less, greater and the vertical bar. |
| Escape.MakeFilenameSafeProperties | src/components/Buttons.tsx:26-37 | The result is always safe, and it equals its input exactly when the input is already safe. |
| Strings.SplitParts | src/worker/openSCAD.ts:94 | `split("/")` yields one part exactly when the separator is absent, and no part holds the separator. |
| Strings.JoinSplit | src/worker/openSCAD.ts:69-71 | Joining the parts of a split with the same separator gives back the string. |
| Strings.IntToString | src/components/Buttons.tsx:114 | `toString` of an integer yields only digits and a minus sign. |
| KeycapScript.PiecesJoin | src/components/Buttons.tsx:120-121 | A global replacement equals joining, with the value, the text between successive left-to-right occurrences of the placeholder. |
| KeycapScript.ReplaceAllIsGlobal | src/components/Buttons.tsx:120-121 | The text is its token-free pieces joined by the placeholder, and the replacement joins the same pieces with the value: every occurrence is replaced, and nothing else. |
| KeycapScript.ReplaceAllSelf | src/components/Buttons.tsx:120-121 | Replacing a placeholder by itself leaves the text unchanged. |
| KeycapScript.ReplaceAllAsWrittenPlain | src/components/Buttons.tsx:121 | With no `$` in the value, JavaScript's `replace` with its `$` expansion is the literal global replacement. |
| KeycapScript.ReplacementValues | src/components/Buttons.tsx:108-116 | The seven placeholders come in source order. The corner labels carry the escaped main, shift and fn only for type 0 (and read back exactly); the centre carries the escaped center only for type 1. Model index 0, 1 or 2 selects `Cap_U.stl`, `Cap_O.stl` or `Cap_Flat.stl`, and the bump value is `true` or `false`. |
| KeycapScript.ReplacementKeys | src/components/Buttons.tsx:108-116 | The placeholders are the seven fixed names, all non-empty and free of `$`. |
| KeycapScript.SubstituteTemplate | src/components/Buttons.tsx:118-122 | The substitution loop yields the template with each placeholder replaced globally, one placeholder after another in table order. |
| KeycapScript.SubstituteAsWrittenPlain | src/components/Buttons.tsx:118-122 | When no value holds `$`, the source's substitution and the literal one agree. |
| KeycapScript.FieldScriptAsWritten | src/components/Buttons.tsx:108-122 | When no label holds `$`, the script the source builds with its `$`-expanding replacement equals the field's literal script. |
| KeycapScript.SubstituteAbsent | src/components/Buttons.tsx:118-122 | A text that holds none of the placeholders comes out of the substitution unchanged. |
| KeycapScript.SubstituteSplit | src/components/Buttons.tsx:118-122 | Substituting a table is substituting a prefix of it and then the rest, which is the in-order meaning of the loop. |
| KeycapScript.DollarExpands | src/components/Buttons.tsx:121 | As a replacement string, `$$` is written as one `$`, while the literal replacement writes `$$`. |
| KeycapScript.DollarLabelCollapses | src/components/Buttons.tsx:108-122 | A General key labelled `$$` puts a single `$` into the script as written, where the label itself is intended. |
| KeycapScript.PlaceholderFormedAcrossBoundary | src/components/Buttons.tsx:108-122 | The substitution can form a placeholder that an earlier step already passed: for the template `LMODEL_PATH`, the default field's script still contains `LC`. |
| KeycapScript.FilenameIsSafe | src/components/Buttons.tsx:124-133 | Every exported name starts with `Keycap_`, ends with `.stl` and holds no unsafe character, for both label types. |
| KeycapScript.FilenameNotInjective | src/components/Buttons.tsx:124-133 | Different fields can share a name: a General key's main label `/` names like `slash`, and a General key's center and angle never reach its name. |
| KeycapScript.SlashSpelled | src/components/Buttons.tsx:28 | `/` becomes `slash`, which is itself left unchanged. |
| KeycapScript.ExampleGeneralFilename | src/components/Buttons.tsx:130-132 | A General key `Q` with empty shift and fn, no bump and model 0 is named `Keycap_Q____U.stl`. |
| KeycapScript.ExampleCenteredFilename | src/components/Buttons.tsx:130-133 | A Centered key `▲` at angle 30 with a bump and model 2 is named `Keycap_▲_30_Bump_F.stl`. |
| Export.ZipEntries | src/components/Buttons.tsx:144-147 | After one `zip.file` call per result, the archive's names are exactly the results' names. |
| Export.ZipLastWins | src/components/Buttons.tsx:145-147 | The archive entry under a name holds the mesh of the last result with that name. |
| Export.ZipCount | src/components/Buttons.tsx:144-147 | The archive has at most one entry per result, and exactly one per result when the names are distinct. |
| Export.Package | src/components/Buttons.tsx:140-151 | Exactly one result gives a single download under its own name. Any other count gives an archive named `keycaps.zip` whose entries are the results' names. |
| Export.PackageKeepsEveryMesh | src/components/Buttons.tsx:140-151 | With distinct names and a count other than one, the archive holds every result's mesh under its name and has one entry per result. |
| Export.CollidingNamesMerge | src/components/Buttons.tsx:124-147 | Two General keys labelled `/` and `slash` produce an archive with one entry, holding the second mesh. |
| Export.FirstFailure | src/components/Buttons.tsx:135 | The first job that rejects: every earlier job answered, and the one at that index rejected. |
| Export.JobsAt | src/components/Buttons.tsx:118-135 | The i-th submitted request is an export of the i-th field's substituted script. |
| Export.JobAsWritten | src/components/Buttons.tsx:118-135 | For labels without `$`, the request of a field's job carries exactly the script the source submits. |
| Export.ExportsAt | src/components/Buttons.tsx:124-136 | The i-th entry of `exportedFiles` is the i-th job's mesh, wrapped as `output.stl` when present, under the i-th field's file name. |
| Export.ProgressAt | src/components/Buttons.tsx:100-137 | The i-th loading state set during a run is loading with `exportedFile == i`: the counter goes 0, 1, 2, … with no skip. |
| Export.MeshlessSingleRun | src/components/Buttons.tsx:140-142 | One field whose job answers without a mesh (a nonzero exit) is packaged as a single download with no mesh, the case in which `downloadFile` throws. |
| Export.ModelPathProvided | src/components/Buttons.tsx:105-107 | The base shape a field imports (model 0 to 2) is one of the files every worker instance holds. |
| Export.ExportButton.constructor | src/components/Buttons.tsx:39-46 | The template cache starts empty and the loading state at not loading, zero exported. |
| Export.ExportButton.SetLoadingState | src/components/Buttons.tsx:137 | The new state is recorded after all the earlier ones, and the template cache is untouched. |
| Export.ExportButton.ExportKeycap | src/components/Buttons.tsx:84-154 | The template is fetched only while the cache is empty. A failed fetch returns before any state is set or job is sent. Otherwise the run behaves as RunExports states, and the preview cells never change. |
| Export.ExportButton.RunExports | src/components/Buttons.tsx:99-153 | Jobs run one per field in list order up to the first rejected one, and the log grows job by job. Progress goes 0..k. Without a rejection the packaged results are the fields' meshes in order, and the state is reset to not loading, except when the only result has no mesh: its download throws and loading stays set. A rejection stops the run with loading still set and the export flag raised. |
| Workspace.DefaultField | src/components/Workspace.tsx:45-56 | Empty labels, angle 0, type 0, no bump, model 0. |
| Workspace.AddField | src/components/Workspace.tsx:106-108 | Exactly one default field is appended and the earlier rows are kept. |
| Workspace.FilterIndex | src/components/Workspace.tsx:111 | Filtering by index drops exactly that element, or nothing when it is out of range. |
| Workspace.RemoveField | src/components/Workspace.tsx:110-117 | The row at the index is dropped, and the others keep their order. An out-of-range index changes nothing. The list is never empty: removing the only row leaves one default field. |
| Workspace.RemoveAddedField | src/components/Workspace.tsx:106-117 | Removing the row just added gives a non-empty list back unchanged. |
| Workspace.Presets | src/components/Workspace.tsx:58 | Three presets, the last being the Blank layout of one default field. |
| Workspace.LoadPresetGuardMissesUpperBound | src/components/Workspace.tsx:127-129 | The guard as written lets the index one past the table through, and the lookup then throws. |
| Workspace.LoadPreset | src/components/Workspace.tsx:126-133 | An index inside the table loads that preset. Any other index leaves the rows unchanged. |
| Workspace.LoadPresetAgrees | src/components/Workspace.tsx:126-133 | The source's `loadPreset` succeeds exactly for indices below the table's length, and where it succeeds it agrees with the corrected guard. |
| Workspace.ApplyEdit | src/components/Workspace.tsx:285-383 | Each of the eight edits sets its own attribute to the given value and leaves the other seven unchanged; the bump is on exactly when the selected value is 1. |
| Workspace.Key.constructor | src/components/Workspace.tsx:129-131 | `{ ...field }` makes an object describing the same field. |
| Workspace.Key.Apply | src/components/Workspace.tsx:286-288 | Assigning an attribute of the field object updates its value by that one edit. |
| Workspace.FilterValues | src/components/Workspace.tsx:111 | Filtering the row objects filters the field values the same way. |
| Workspace.FilterDistinct | src/components/Workspace.tsx:111 | Filtering keeps the row objects pairwise distinct. |
| Workspace.Workspace.constructor | src/components/Workspace.tsx:104 | The rows start as a single default field, with the preset table in place. |
| Workspace.Workspace.HandleAddField | src/components/Workspace.tsx:106-108 | The earlier row objects are kept, one fresh default row is added, and the values follow AddField. |
| Workspace.Workspace.HandleRemoveField | src/components/Workspace.tsx:110-117 | The row values follow RemoveField, and the distinctness of the row objects is kept. |
| Workspace.Workspace.LoadPresetRows | src/components/Workspace.tsx:126-133 | The rows follow LoadPreset. A loaded preset consists of fresh copies, and an out-of-range index keeps the same array. |
| Workspace.Workspace.EditRow | src/components/Workspace.tsx:285-383 | Only the edited row's value changes, by that one edit, and the array keeps its objects. |
| Protocol.ParseTag | src/worker/types.ts:3-9 | A string parses to a message type only when it is that type's tag. |
| Protocol.TagRoundTrip | src/worker/types.ts:3-9 | Every one of the five message types is recovered from its tag. |
| Protocol.TagInjective | src/worker/types.ts:3-9 | The five tags are pairwise distinct. |
| Protocol.PayloadShapes | src/worker/types.ts:11-17 | Preview and export take the `{code}` payload, and the three file-system types take `{path, content?}`. No type takes both. |
| Execute.CompileRequest | src/lib/openSCAD/execute.ts:15-20 | The request has the given type, the `{code}` payload and no id. |
| Execute.Adapt | src/lib/openSCAD/execute.ts:24-33 | Log, exit code and duration pass through. The output is `output.stl` holding the bytes when the response has output, and absent otherwise. |
| Execute.AdaptLossless | src/lib/openSCAD/execute.ts:30-33 | The response data can be recovered from the adapted result. |
| Execute.ExecuteOpenSCAD | src/lib/openSCAD/execute.ts:11-34 | One request per call. The result fails exactly when the job rejects, with its error, and otherwise is the adapted response. |
| Provider.AppendLog | src/components/providers/OpenscadWorkerProvider.tsx:42-46 | The new log is the old log, then the job's stdErr lines, then its stdOut lines. |
| Provider.AppendLogTwice | src/components/providers/OpenscadWorkerProvider.tsx:42-46 | Over two jobs, all lines of the first job come before all lines of the second. |
| Provider.WorkerProvider.constructor | src/components/providers/OpenscadWorkerProvider.tsx:26-29 | Empty log, no preview file, both busy flags false. |
| Provider.WorkerProvider.ExecExport | src/components/providers/OpenscadWorkerProvider.tsx:37-50 | The export flag is raised during the job. When the job answers, the log is appended, the flag is lowered and the wrapped mesh is returned. A rejection leaves the flag raised and the log unchanged. The preview cells are untouched. |
| Provider.WorkerProvider.Preview | src/components/providers/OpenscadWorkerProvider.tsx:52-67 | The render flag is raised during the job. On an answer the log is appended, the preview file is replaced only when there is a mesh, and the flag is lowered. The export flag is untouched. |
| Provider.WorkerProvider.Reset | src/components/providers/OpenscadWorkerProvider.tsx:69-74 | Every cell is back at its initial value. |
| Provider.WorkerProvider.ResetLog | src/components/providers/OpenscadWorkerProvider.tsx:76-78 | The log is cleared and the other three cells are unchanged. |
| Worker.FindNamed | src/worker/openSCAD.ts:166 | The found file is stored under that name, and nothing is found exactly when no stored file has it. |
| Worker.Stored | src/worker/openSCAD.ts:156-158 | The stored file takes the written path only when its own path is empty. |
| Worker.RemoveNamedMembers | src/worker/openSCAD.ts:153 | Filtering keeps exactly the files with another name. |
| Worker.RemoveNamedAppend | src/worker/openSCAD.ts:153 | Filtering works piecewise, so the other files keep their relative order. |
| Worker.RemoveNamedAbsent | src/worker/openSCAD.ts:175 | Unlinking a name that no file has changes nothing. |
| Worker.ReadAfterWrite | src/worker/openSCAD.ts:147-172 | After a write, a read of the written path finds the written file when it carries that name. Reads of other names are unaffected, apart from the first file with the new file's own name. |
| Worker.AssetCache.constructor | src/worker/openSCAD.ts:15-19 | The asset flag starts unset, and nothing has been fetched. |
| Worker.AssetCache.EnsureLoaded | src/worker/openSCAD.ts:35-48 | The assets are fetched and stored only while the flag is unset, then the flag is set. They are fetched at most once in all. |
| Worker.ParentNamesAt | src/worker/openSCAD.ts:69-71 | The directory of a stored file is its path with the last segment dropped. |
| Worker.WrittenLookup | src/worker/openSCAD.ts:67-79 | A stored file written later overrides earlier files and assets under the same name, and other names keep their contents. |
| Worker.WrittenKeyIndependent | src/worker/openSCAD.ts:67-79 | Whether a stored file lands on a name the starting files lack does not depend on those starting files. |
| Worker.OutputNotFixed | src/worker/openSCAD.ts:195-196 | Neither the starting files nor the script's own name is `/out.stl`. |
| Worker.RunResultCases | src/worker/openSCAD.ts:206-231 | A thrown fault becomes an "exited with an error" failure. Exit code 0 returns the output, or a "cannot read created file" failure when there is none. Any other code returns normally without output. The log holds each stream's lines in order. |
| Worker.LinesPartition | src/worker/openSCAD.ts:106-108 | Every printed line lands in exactly one stream's log. |
| Worker.Argv | src/worker/openSCAD.ts:202 | The arguments are `/input.scad`, `-o`, `/out.stl`, followed by the flags. |
| Worker.ParamProfiles | src/worker/openSCAD.ts:117-140 | The preview flags are the export flags with `--enable=roof` appended, and both export binary STL. |
| Worker.OpenSCADWrapper.constructor | src/worker/openSCAD.ts:22-27 | Both logs and the file list start empty. |
| Worker.OpenSCADWrapper.Logger | src/worker/openSCAD.ts:106-108 | A line goes to the end of its own stream only. |
| Worker.OpenSCADWrapper.WriteFile | src/worker/openSCAD.ts:147-161 | Every file with the path as its name is dropped, the content is appended (with its path set when empty), and the call returns true. |
| Worker.OpenSCADWrapper.ReadFile | src/worker/openSCAD.ts:163-172 | Returns the path and the first file with that name, or none, and changes nothing. |
| Worker.OpenSCADWrapper.UnlinkFile | src/worker/openSCAD.ts:174-178 | Every file with that name is dropped, and the call returns true. |
| Worker.OpenSCADWrapper.FileExists | src/worker/openSCAD.ts:84-91 | True exactly when `stat` would succeed. |
| Worker.OpenSCADWrapper.CreateDirectoryRecursive | src/worker/openSCAD.ts:93-104 | Every accumulated prefix exists afterwards. `mkdir` is called, in order, only on prefixes that did not yet resolve to an existing name, and files are untouched. |
| Worker.OpenSCADWrapper.MkdirPrefix | src/worker/openSCAD.ts:97-103 | One loop step: the prefix is created exactly when neither it nor an earlier prefix already existed. |
| Worker.OpenSCADWrapper.WriteBaseFiles | src/worker/openSCAD.ts:50-65 | A fresh instance gets the fonts directory, the font configuration, the font and the three base shapes. |
| Worker.OpenSCADWrapper.WriteStoredFile | src/worker/openSCAD.ts:67-79 | The file's parent directory exists afterwards, and the file is written under its path. |
| Worker.OpenSCADWrapper.WriteStoredFiles | src/worker/openSCAD.ts:67-79 | The stored files are written in order over the starting files, and each one's directory exists. |
| Worker.OpenSCADWrapper.GetInstance | src/worker/openSCAD.ts:29-82 | A fresh instance holds the fonts directory, the base files from the (once-fetched) assets, and the stored files over them, each in its directory. |
| Worker.OpenSCADWrapper.LogPrinted | src/worker/openSCAD.ts:30-34 | Each printed line is appended to its own stream, in print order. |
| Worker.OpenSCADWrapper.PrepareRun | src/worker/openSCAD.ts:195-200 | After the script is written, `/out.stl` holds whatever a stored file put there. |
| Worker.OpenSCADWrapper.Finish | src/worker/openSCAD.ts:206-231 | The run's outcome decides the result as RunResultCases states. |
| Worker.OpenSCADWrapper.ExecuteOpenscad | src/worker/openSCAD.ts:185-232 | The logs hold exactly this run's lines, the arguments are as Argv states, the stored files are unchanged, and the result is the run's outcome. |
| Worker.OpenSCADWrapper.ExportFile | src/worker/openSCAD.ts:114-125 | A run with the export flags. |
| Worker.OpenSCADWrapper.Preview | src/worker/openSCAD.ts:131-145 | A run with the preview flags. |
| Worker.EscapeShellRoundTrip | src/worker/openSCAD.ts:234-236 | Removing the quotes and the escaping backslashes recovers the command, so distinct commands are quoted differently. |
| Worker.ShellEscapeProtects | src/worker/openSCAD.ts:234-236 | Inside the quotes, every double quote, single quote, dollar and backquote follows a backslash. |
| EngineFs.ParentDirSplits | src/worker/openSCAD.ts:69-71 | A path with a slash is its directory, a slash and its last segment, and a path without one has the empty directory. |
| EngineFs.DirPrefixAt | src/worker/openSCAD.ts:94-98 | The i-th accumulated `currentPath` is the previous one, a slash and the i-th part. |
| EngineFs.LastPrefixIsPath | src/worker/openSCAD.ts:93-104 | The last accumulated prefix names the path itself. |
| EngineFs.PrefixesNamed | src/worker/openSCAD.ts:93-104 | Once the prefixes' names are present, every prefix and the path itself exist. |
| EngineFs.MkdirCallsNone | src/worker/openSCAD.ts:93-104 | When every prefix already exists there is no `mkdir`, so a second call with the same path creates nothing. |
| EngineFs.MkdirCallsFresh | src/worker/openSCAD.ts:97-103 | No `mkdir` targets an existing name, no name is created twice, and every call names a prefix of the path. |
| EngineFs.Engine.Mkdir | src/worker/openSCAD.ts:101 | `mkdir` on a missing name adds that directory, and the call is recorded. |

## Left out

- I/O: `fetch` of the template, the font and the STL assets, `response.ok`
  and the status text. Each is a parameter.
- The WebAssembly engine (`OpenSCAD(...)`, `callMain`, its printer
  callbacks). An engine run is an input: the lines it prints and its exit
  or fault.
- The engine's file system keeps only names. `mkdir` failing on a missing
  parent directory, `.` and `..` are not modelled. A fresh engine starts
  with the root directory only. Emscripten's also holds `/tmp`,
  `/home/web_user`, `/dev` and `/proc`, so for a stored file under one of
  these the source makes no `mkdir` call where the model records one. A failing `readFile`
  carries the fixed message "FS error" in place of Emscripten's text.
- `Date.now()`: the duration is a parameter. The progress percentage shown
  on the button is not modelled; only the integer counter is.
- `Number.parseInt` and its NaN case. An edit carries the parsed integer.
- async/await interleaving and React's batched state updates. Each
  transition is a sequential method, and the button's `disabled` state is
  not modelled.
- JSZip's `generateAsync`, `downloadFile` (object URL, anchor click), and the
  layout download and upload (`JSON.stringify`, `JSON.parse`, `FileReader`).
  The archive is the map of entries it holds before `generateAsync`.
- `executeWorkerJob` and the worker transport, including id correlation.
  WorkspaceFile is not part of this model beyond its name, path and bytes.
- The mount effect that loads preset 0 is a call of
  `Workspace.LoadPresetRows(0)` after the constructor, not a member of its
  own.
- The `log` object that `executeOpenscad` returns is the wrapper's own
  object, aliased until the next run. The model returns a copy.
- A job that rejects leaves `isExporting` or `isRendering` set, as the
  source does (there is no `finally`).
- KeycapScript.SubstituteTemplate: there is no claim that the script holds
  no placeholder when no value does. That claim is false, and
  KeycapScript.PlaceholderFormedAcrossBoundary shows a counter-example.
- Export.ExportButton.ExportKeycap: requires one job answer per field;
  answers after the first rejected one are never used.
- KeycapScript.SubstituteTemplate, Export.JobsAt, Export.ExportButton.RunExports:
  these insert each placeholder value literally, which is the corrected
  replacement of the first Findings row. For a label holding `$`, they differ
  from the source, which expands `$$`, `$&`, `` $` `` and `$'` in the value.
  Export.JobAsWritten and KeycapScript.FieldScriptAsWritten prove that the
  two agree whenever no label holds `$`.
- Strings.IntToString: the decimal form of an unbounded integer. JavaScript
  prints numbers from 10^21 on in exponent form (`1e+21`), and rounds
  integers above 2^53 to doubles. Neither is modelled, so the angle in
  `CENTER_ROTATION` and in a Centered file name is faithful only for angles
  below 2^53 in magnitude.
- Export.ExportButton.RunExports: what JSZip does with an archive entry
  whose mesh is absent (`zip.file(name, undefined)`) is not modelled. A
  meshless single download is modelled as throwing, since
  `URL.createObjectURL(undefined)` throws.
- Export.PackageKeepsEveryMesh: an archive entry may hold an absent mesh,
  as `zip.file(name, undefined)` does in the source. The model does not
  state what JSZip does with it.

## Findings

| source | as written | input that shows it | evidently intended | confidence | as-written member | corrected member |
|---|---|---|---|---|---|---|
| src/components/Buttons.tsx:119-121 | `customKeycap.replace(regex, value)` with a string `value` expands `$$`, `$&` and similar patterns in the label | a General key with main label `$$` and a template `LLB`: the script gets `$` | the label's text is written literally | not executed | KeycapScript.DollarLabelCollapses | KeycapScript.ReplaceAllIsGlobal |
| src/components/Workspace.tsx:127 | the guard `preset < 0 && preset < presets.length` rejects only negative indices | `loadPreset(3)` reads `presets[3]`, which is undefined, and `.map` throws | an index outside the table leaves the fields unchanged | not executed | Workspace.LoadPresetGuardMissesUpperBound | Workspace.LoadPreset |
