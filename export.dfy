/** The export button (`exportKeycap` in src/components/Buttons.tsx): the
    module-level template cache, the loading state with its progress
    counter, one export job per field in list order, and the choice between
    a single download and a `keycaps.zip` archive. The template fetch and
    each job's answer are parameters; the archive is the map of entries
    JSZip holds before `generateAsync`. */
module Export {
  import opened Base
  import opened Strings
  import opened Protocol
  import opened Execute
  import opened Workspace
  import opened KeycapScript
  import opened Worker
  import opened Provider

  // ---------------------------------------------------------------------------
  // Results and packaging

  /** One entry of `exportedFiles`: the job's mesh (absent when the engine
      produced none) and the name derived from the field. */
  datatype Exported = Exported(file: Option<WorkspaceFile>, name: string)

  /** What is handed to `downloadFile`: one mesh under its own name, or an
      archive under its name with its entries by file name. */
  datatype Download =
    | Single(name: string, file: Option<WorkspaceFile>)
    | Zip(name: string, entries: map<string, Option<WorkspaceFile>>)

  const ZipName: string := "keycaps.zip"

  /** The names of the results. */
  function NameSet(xs: seq<Exported>): set<string> {
    set i | 0 <= i < |xs| :: xs[i].name
  }

  /** No two results share a name. */
  predicate DistinctNames(xs: seq<Exported>) {
    forall i, j :: 0 <= i < j < |xs| ==> xs[i].name != xs[j].name
  }

  /** The archive after one `zip.file(name, file)` call per result, in
      order; a later call with a name already present replaces that entry. */
  function ZipEntries(xs: seq<Exported>): (m: map<string, Option<WorkspaceFile>>)
    ensures m.Keys == NameSet(xs)
  {
    if |xs| == 0 then map[]
    else
      var init := xs[..|xs| - 1];
      var m := ZipEntries(init);
      assert NameSet(xs) == NameSet(init) + {xs[|xs| - 1].name} by {
        forall n | n in NameSet(xs) ensures n in NameSet(init) + {xs[|xs| - 1].name} {
          var i :| 0 <= i < |xs| && xs[i].name == n;
          if i < |xs| - 1 {
            assert init[i] == xs[i];
          }
        }
      }
      m[xs[|xs| - 1].name := xs[|xs| - 1].file]
  }

  /** Every name in the archive holds the mesh of the last result with that
      name. */
  lemma {:induction false} ZipLastWins(xs: seq<Exported>, i: nat)
    requires i < |xs|
    requires forall j :: i < j < |xs| ==> xs[j].name != xs[i].name
    ensures ZipEntries(xs)[xs[i].name] == xs[i].file
  {
    if i < |xs| - 1 {
      var init := xs[..|xs| - 1];
      assert init[i] == xs[i];
      ZipLastWins(init, i);
    }
  }

  /** The archive has one entry per result exactly when the names are
      distinct; otherwise it has fewer. */
  lemma {:induction false} ZipCount(xs: seq<Exported>)
    ensures |ZipEntries(xs)| <= |xs|
    ensures |ZipEntries(xs)| == |xs| <==> DistinctNames(xs)
  {
    if |xs| > 0 {
      var init := xs[..|xs| - 1];
      var last := xs[|xs| - 1];
      assert xs == init + [last];
      ZipCount(init);
      if last.name in NameSet(init) {
        RepeatedName(init, last);
      } else {
        FreshName(init, last);
      }
    }
  }

  /** A result whose name is already taken breaks distinctness. */
  lemma RepeatedName(init: seq<Exported>, last: Exported)
    requires last.name in NameSet(init)
    ensures !DistinctNames(init + [last])
  {
    var i :| 0 <= i < |init| && init[i].name == last.name;
    var xs := init + [last];
    assert xs[i].name == xs[|init|].name;
  }

  /** A result with a new name keeps distinctness as it was. */
  lemma FreshName(init: seq<Exported>, last: Exported)
    requires last.name !in NameSet(init)
    ensures DistinctNames(init + [last]) <==> DistinctNames(init)
  {
    var xs := init + [last];
    if DistinctNames(init) {
      forall i, j | 0 <= i < j < |xs| ensures xs[i].name != xs[j].name {
        assert xs[i] == init[i];
        if j == |init| {
          assert init[i].name in NameSet(init);
        } else {
          assert xs[j] == init[j];
        }
      }
    }
    if DistinctNames(xs) {
      forall i, j | 0 <= i < j < |init| ensures init[i].name != init[j].name {
        assert xs[i] == init[i] && xs[j] == init[j];
      }
    }
  }

  /** The `exportedFiles.length === 1` choice. */
  function Package(xs: seq<Exported>): (d: Download)
    ensures d.Single? <==> |xs| == 1
    ensures d.Single? ==> d.name == xs[0].name && d.file == xs[0].file
    ensures d.Zip? ==> d.name == ZipName && d.entries.Keys == NameSet(xs)
  {
    if |xs| == 1 then Single(xs[0].name, xs[0].file) else Zip(ZipName, ZipEntries(xs))
  }

  /** With distinct names, the archive holds every result's mesh under its
      own name and nothing else. */
  lemma PackageKeepsEveryMesh(xs: seq<Exported>)
    requires |xs| != 1 && DistinctNames(xs)
    ensures Package(xs).Zip? && |Package(xs).entries| == |xs|
    ensures forall i :: 0 <= i < |xs| ==> Package(xs).entries[xs[i].name] == xs[i].file
  {
    ZipCount(xs);
    forall i | 0 <= i < |xs| ensures ZipEntries(xs)[xs[i].name] == xs[i].file {
      ZipLastWins(xs, i);
    }
  }

  /** Two General keys whose main labels are `/` and `slash` are exported
      under one name, so the archive keeps only the second mesh. */
  lemma CollidingNamesMerge(f: Field, a: Option<WorkspaceFile>, b: Option<WorkspaceFile>)
    requires f.labelType == 0
    ensures var xs := [Exported(a, Filename(f.(main := "/"))), Exported(b, Filename(f.(main := "slash")))];
      && Package(xs).Zip? && |Package(xs).entries| == 1
      && Package(xs).entries[Filename(f.(main := "slash"))] == b
  {
    FilenameNotInjective(f, f.center, f.angle);
    SameNameZip(Filename(f.(main := "/")), Filename(f.(main := "slash")), a, b);
  }

  /** Two results under one name leave one archive entry, the second. */
  lemma SameNameZip(n0: string, n1: string, a: Option<WorkspaceFile>, b: Option<WorkspaceFile>)
    requires n0 == n1
    ensures var xs := [Exported(a, n0), Exported(b, n1)];
      Package(xs).Zip? && |Package(xs).entries| == 1 && Package(xs).entries[n1] == b
  {
    var xs := [Exported(a, n0), Exported(b, n1)];
    assert xs[..1] == [Exported(a, n0)];
    assert [Exported(a, n0)][..0] == [];
    assert ZipEntries(xs) == map[n1 := b];
  }

  // ---------------------------------------------------------------------------
  // The run, as functions of the fields and the jobs' answers

  /** The index of the first job that rejects, or the number of answers
      when none does. */
  function FirstFailure(replies: seq<Result<OpenSCADResponseData>>): (k: nat)
    ensures k <= |replies|
    ensures forall j :: 0 <= j < k ==> replies[j].Success?
    ensures k < |replies| ==> replies[k].Failure?
  {
    if |replies| == 0 then 0
    else if replies[0].Failure? then 0
    else 1 + FirstFailure(replies[1..])
  }

  /** The request of one field's job: an export of its script. */
  function JobOf(template: string, f: Field): WorkerMessage {
    CompileRequest(Export, FieldScript(template, f))
  }

  /** The requests of the first `n` jobs, in list order. */
  function Jobs(template: string, fields: seq<Field>, n: nat): (r: seq<WorkerMessage>)
    requires n <= |fields|
    ensures |r| == n
  {
    if n == 0 then [] else Jobs(template, fields, n - 1) + [JobOf(template, fields[n - 1])]
  }

  /** The `i`-th request is the `i`-th field's job. */
  lemma {:induction false} JobsAt(template: string, fields: seq<Field>, n: nat, i: nat)
    requires i < n <= |fields|
    ensures Jobs(template, fields, n)[i] == JobOf(template, fields[i])
  {
    if i < n - 1 {
      JobsAt(template, fields, n - 1, i);
    }
  }

  /** For labels without `$`, a job carries the very script the source
      submits, which it builds with the `$`-expanding replacement. */
  lemma JobAsWritten(template: string, f: Field)
    requires '$' !in f.main && '$' !in f.shift && '$' !in f.fn && '$' !in f.center
    ensures JobOf(template, f) == CompileRequest(Export, SubstituteAsWritten(template, Replacements(f)))
  {
    FieldScriptAsWritten(template, f);
  }

  /** The result of one field's job: its mesh, under the field's name. */
  function ExportedOf(data: OpenSCADResponseData, f: Field): Exported {
    Exported(Adapt(data).output, Filename(f))
  }

  /** `exportedFiles` after the first `n` jobs answered: each field's mesh
      and name, in list order. */
  function Exports(fields: seq<Field>, replies: seq<Result<OpenSCADResponseData>>, n: nat): (r: seq<Exported>)
    requires n <= |fields| && n <= FirstFailure(replies)
    ensures |r| == n
  {
    if n == 0 then []
    else Exports(fields, replies, n - 1) + [ExportedOf(replies[n - 1].value, fields[n - 1])]
  }

  /** The `i`-th result is the `i`-th field's mesh under the `i`-th
      field's name. */
  lemma {:induction false} ExportsAt(fields: seq<Field>, replies: seq<Result<OpenSCADResponseData>>, n: nat, i: nat)
    requires i < n <= |fields| && n <= FirstFailure(replies)
    ensures Exports(fields, replies, n)[i] == ExportedOf(replies[i].value, fields[i])
  {
    if i < n - 1 {
      ExportsAt(fields, replies, n - 1, i);
      var init := Exports(fields, replies, n - 1);
      assert Exports(fields, replies, n) == init + [ExportedOf(replies[n - 1].value, fields[n - 1])];
      assert (init + [ExportedOf(replies[n - 1].value, fields[n - 1])])[i] == init[i];
    }
  }

  /** The provider's log after the first `n` jobs answered. */
  function Logs(prev: seq<string>, replies: seq<Result<OpenSCADResponseData>>, n: nat): (r: seq<string>)
    requires n <= FirstFailure(replies)
    ensures |r| >= |prev| && r[..|prev|] == prev
  {
    if n == 0 then prev
    else
      var before := Logs(prev, replies, n - 1);
      var r := AppendLog(before, replies[n - 1].value.log);
      assert r[..|prev|] == before[..|prev|];
      r
  }

  /** The loading state, `{loading, exportedFile}`. */
  datatype LoadingState = LoadingState(loading: bool, exportedFile: nat)

  /** The states set while `k` jobs answered: 0 first, then one more after
      each job, with no value skipped. */
  function Progress(k: nat): (r: seq<LoadingState>)
    ensures |r| == k + 1
  {
    if k == 0 then [LoadingState(true, 0)] else Progress(k - 1) + [LoadingState(true, k)]
  }

  /** The `i`-th state set counts `i` finished jobs. */
  lemma {:induction false} ProgressAt(k: nat, i: nat)
    requires i <= k
    ensures Progress(k)[i] == LoadingState(true, i)
  {
    if i < k {
      ProgressAt(k - 1, i);
    }
  }

  /** One more state after a run's states so far. */
  lemma ProgressStep(before: seq<LoadingState>, k: nat, s: LoadingState)
    requires s == LoadingState(true, k + 1)
    ensures before + Progress(k) + [s] == before + Progress(k + 1)
  {
  }

  /** How a run ends: the template could not be fetched, a job rejected,
      the single result had no mesh so that `downloadFile` threw, or the
      meshes were handed over. */
  datatype Run =
    | NoTemplate(statusText: string)
    | Aborted(error: string)
    | DownloadFailed(name: string)
    | Downloaded(download: Download)

  /** A single download without a mesh: `URL.createObjectURL(undefined)`
      throws inside `downloadFile`. */
  predicate MeshlessSingle(d: Download) {
    d.Single? && d.file.None?
  }

  /** A single field whose job answers without a mesh (a nonzero exit code)
      is a meshless single download. */
  lemma MeshlessSingleRun(fields: seq<Field>, replies: seq<Result<OpenSCADResponseData>>)
    requires |fields| == 1 && |replies| == 1
    requires replies[0].Success? && replies[0].value.output.None?
    ensures FirstFailure(replies) == 1
    ensures MeshlessSingle(Package(Exports(fields, replies, 1)))
  {
    ExportsAt(fields, replies, 1, 0);
  }

  /** A field's base shape is one of the files every worker instance holds. */
  lemma ModelPathProvided(a: Assets, model: int)
    requires 0 <= model <= 2
    ensures Rooted(ModelImportPath(model)) in BaseFiles(a)
  {
  }

  // ---------------------------------------------------------------------------
  // The button's state and the export method

  class ExportButton {
    /** The module-level `keycap` template; empty until fetched. */
    var keycap: string
    var loadingState: LoadingState
    /** Every loading state set so far, in order. */
    ghost var history: seq<LoadingState>

    constructor ()
      ensures keycap == "" && loadingState == LoadingState(false, 0) && history == []
    {
      keycap := "";
      loadingState := LoadingState(false, 0);
      history := [];
    }

    method SetLoadingState(s: LoadingState)
      modifies this
      ensures loadingState == s && history == old(history) + [s] && keycap == old(keycap)
    {
      loadingState := s;
      history := history + [s];
    }

    /** `exportKeycap`. The template is fetched only while the cache is
        empty (`fetched` is the response text, or its status text when not
        ok); a failed fetch returns before anything else. The jobs then run
        as `RunExports` says. `replies` holds each job's answer, one per
        field. */
    method ExportKeycap(fields: seq<Field>, fetched: Result<string>,
                        replies: seq<Result<OpenSCADResponseData>>, provider: WorkerProvider)
      returns (run: Run, requests: seq<WorkerMessage>)
      requires |replies| == |fields|
      modifies this, provider
      ensures old(keycap) != "" ==> keycap == old(keycap)
      ensures old(keycap) == "" ==> keycap == if fetched.Success? then fetched.value else ""
      ensures run.NoTemplate? <==> old(keycap) == "" && fetched.Failure?
      ensures run.NoTemplate? ==>
        && run.statusText == fetched.error && requests == []
        && loadingState == old(loadingState) && history == old(history)
        && provider.log == old(provider.log) && provider.isExporting == old(provider.isExporting)
      ensures provider.previewFile == old(provider.previewFile) && provider.isRendering == old(provider.isRendering)
      ensures !run.NoTemplate? ==> RanExports(fields, replies, run, requests, old(history), old(provider.log), old(provider.isExporting), provider)
    {
      if keycap == "" {
        if fetched.Failure? {
          run := NoTemplate(fetched.error);
          requests := [];
          return;
        }
        keycap := fetched.value;
      }
      run, requests := RunExports(fields, replies, provider);
    }

    /** What a run that got its template did: all jobs up to the first
        rejected one were submitted in list order, their logs appended, and
        the progress went 0, 1, 2, ...; without a rejection every field's
        mesh was packaged and the loading state cleared, unless the only
        result had no mesh and its download threw; after a rejection the run
        stopped there. A run that throws leaves the loading state set. */
    ghost predicate RanExports(fields: seq<Field>, replies: seq<Result<OpenSCADResponseData>>,
                               run: Run, requests: seq<WorkerMessage>,
                               history0: seq<LoadingState>, log0: seq<string>, busy0: bool,
                               provider: WorkerProvider)
      requires |replies| == |fields|
      reads this, provider
    {
      var k := FirstFailure(replies);
      && requests == Jobs(keycap, fields, if k < |fields| then k + 1 else k)
      && provider.log == Logs(log0, replies, k)
      && (k < |fields| ==>
            && run == Aborted(replies[k].error)
            && loadingState == LoadingState(true, k)
            && history == history0 + Progress(k)
            && provider.isExporting)
      && (k == |fields| ==>
            && (k > 0 ==> !provider.isExporting)
            && (k == 0 ==> provider.isExporting == busy0)
            && var d := Package(Exports(fields, replies, k));
            && (MeshlessSingle(d) ==>
                  && run == DownloadFailed(d.name)
                  && loadingState == LoadingState(true, k)
                  && history == history0 + Progress(k))
            && (!MeshlessSingle(d) ==>
                  && run == Downloaded(d)
                  && loadingState == LoadingState(false, 0)
                  && history == history0 + Progress(k) + [LoadingState(false, 0)]))
    }

    /** The part of `exportKeycap` after the template is known: the loop
        over the fields and the packaging. */
    method RunExports(fields: seq<Field>, replies: seq<Result<OpenSCADResponseData>>, provider: WorkerProvider)
      returns (run: Run, requests: seq<WorkerMessage>)
      requires |replies| == |fields|
      modifies this, provider
      ensures keycap == old(keycap) && !run.NoTemplate?
      ensures provider.previewFile == old(provider.previewFile) && provider.isRendering == old(provider.isRendering)
      ensures RanExports(fields, replies, run, requests, old(history), old(provider.log), old(provider.isExporting), provider)
    {
      requests := [];
      var exported: seq<Exported> := [];
      SetLoadingState(LoadingState(true, 0));
      ghost var template := keycap;
      assert history == old(history) + Progress(0);
      for index := 0 to |fields|
        invariant keycap == template
        invariant index <= FirstFailure(replies)
        invariant exported == Exports(fields, replies, index)
        invariant requests == Jobs(keycap, fields, index)
        invariant provider.log == Logs(old(provider.log), replies, index)
        invariant loadingState == LoadingState(true, index)
        invariant history == old(history) + Progress(index)
        invariant index == 0 ==> provider.isExporting == old(provider.isExporting)
        invariant index > 0 ==> !provider.isExporting
        invariant provider.previewFile == old(provider.previewFile) && provider.isRendering == old(provider.isRendering)
      {
        var field := fields[index];
        ReplacementKeys(field);
        var script := SubstituteTemplate(keycap, Replacements(field));
        var filename := Filename(field);
        var request, stl;
        ghost var busy;
        request, stl, busy := provider.ExecExport(script, replies[index]);
        requests := requests + [request];
        if stl.Failure? {
          assert FirstFailure(replies) == index;
          run := Aborted(stl.error);
          return;
        }
        assert replies[index].Success?;
        exported := exported + [Exported(stl.value, filename)];
        SetLoadingState(LoadingState(true, index + 1));
        ProgressStep(old(history), index, LoadingState(true, index + 1));
      }
      var download := Package(exported);
      if MeshlessSingle(download) {
        // `downloadFile` throws before the loading state is cleared.
        run := DownloadFailed(download.name);
        return;
      }
      run := Downloaded(download);
      SetLoadingState(LoadingState(false, 0));
    }
  }
}
