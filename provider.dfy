/** The page-wide OpenSCAD state (src/components/providers/OpenscadWorkerProvider.tsx):
    four state cells and the transitions that the export button, the
    preview and the log panel use. Each asynchronous transition is one
    method: what it sets before its `await`, the job it submits, and what it
    sets once the job has answered. The job's answer is a parameter. */
module Provider {
  import opened Base
  import opened Protocol
  import opened Execute

  /** The log after one job: the previous lines, then the job's standard
      error lines, then its standard output lines. */
  function AppendLog(prev: seq<string>, l: Log): (r: seq<string>)
    ensures |r| == |prev| + |l.stdErr| + |l.stdOut|
    ensures r[..|prev|] == prev
    ensures r[|prev|..|prev| + |l.stdErr|] == l.stdErr
    ensures r[|prev| + |l.stdErr|..] == l.stdOut
  {
    var r := prev + l.stdErr + l.stdOut;
    assert r[..|prev|] == prev;
    assert r[|prev|..|prev| + |l.stdErr|] == l.stdErr;
    assert r[|prev| + |l.stdErr|..] == l.stdOut;
    r
  }

  /** Appending the logs of two jobs one after the other keeps every line
      of the first job before every line of the second. */
  lemma AppendLogTwice(prev: seq<string>, first: Log, second: Log)
    ensures AppendLog(AppendLog(prev, first), second)
      == prev + first.stdErr + first.stdOut + second.stdErr + second.stdOut
  {
  }

  class WorkerProvider {
    var log: seq<string>
    var previewFile: Option<WorkspaceFile>
    var isExporting: bool
    var isRendering: bool

    /** Nothing logged, nothing shown, no job running. */
    predicate Idle()
      reads this
    {
      log == [] && previewFile == None && !isExporting && !isRendering
    }

    /** The four `useState` cells with their initial values. */
    constructor ()
      ensures Idle()
    {
      log := [];
      previewFile := None;
      isExporting := false;
      isRendering := false;
    }

    /** `execExport`: the export flag is raised, an `export` job is sent;
        when it answers, its log is appended, the flag is lowered and the
        mesh (which may be absent) is returned. When the job rejects, the
        error propagates out of the `await`: nothing after it runs, so the
        flag stays raised and the log is unchanged. */
    method ExecExport(code: string, reply: Result<OpenSCADResponseData>)
      returns (request: WorkerMessage, r: Result<Option<WorkspaceFile>>, ghost exportingDuringJob: bool)
      modifies this
      ensures request == CompileRequest(Export, code) && exportingDuringJob
      ensures previewFile == old(previewFile) && isRendering == old(isRendering)
      ensures reply.Failure? ==> r == Failure(reply.error) && isExporting && log == old(log)
      ensures reply.Success? ==>
        && r == Success(Adapt(reply.value).output)
        && !isExporting
        && log == AppendLog(old(log), reply.value.log)
    {
      isExporting := true;
      exportingDuringJob := isExporting;
      var job := ExecuteOpenSCAD(Export, code, reply);
      request := job.0;
      if job.1.Failure? {
        r := Failure(job.1.error);
        return;
      }
      var output := job.1.value;
      log := AppendLog(log, output.log);
      isExporting := false;
      r := Success(output.output);
    }

    /** `preview`: the render flag is raised, a `preview` job is sent; when
        it answers, its log is appended, the shown file is replaced only
        when the job produced a mesh, and the flag is lowered. A rejected
        job leaves the flag raised and the rest unchanged. */
    method Preview(code: string, reply: Result<OpenSCADResponseData>)
      returns (request: WorkerMessage, ghost renderingDuringJob: bool)
      modifies this
      ensures request == CompileRequest(MessageType.Preview, code) && renderingDuringJob
      ensures isExporting == old(isExporting)
      ensures reply.Failure? ==> isRendering && log == old(log) && previewFile == old(previewFile)
      ensures reply.Success? ==>
        && !isRendering
        && log == AppendLog(old(log), reply.value.log)
        && previewFile == (if reply.value.output.Some? then Adapt(reply.value).output else old(previewFile))
    {
      isRendering := true;
      renderingDuringJob := isRendering;
      var job := ExecuteOpenSCAD(MessageType.Preview, code, reply);
      request := job.0;
      if job.1.Failure? {
        return;
      }
      var output := job.1.value;
      log := AppendLog(log, output.log);
      if output.output.Some? {
        previewFile := output.output;
      }
      isRendering := false;
    }

    /** `reset`: every cell back to its initial value. */
    method Reset()
      modifies this
      ensures Idle()
    {
      log := [];
      previewFile := None;
      isExporting := false;
      isRendering := false;
    }

    /** `resetLog`: only the log is cleared. */
    method ResetLog()
      modifies this
      ensures log == []
      ensures previewFile == old(previewFile) && isExporting == old(isExporting) && isRendering == old(isRendering)
    {
      log := [];
    }
  }
}
