/** `executeOpenSCAD` (src/lib/openSCAD/execute.ts): the request sent to the
    worker for one compile job, and the result the page receives from the
    worker's answer. The transport (`executeWorkerJob`) is not part of this
    model: its answer, or the error it rejects with, is a parameter. */
module Execute {
  import opened Base
  import opened Protocol

  /** The request: the given kind, the `{code}` payload and no id. */
  function CompileRequest(t: MessageType, code: string): (m: WorkerMessage)
    ensures m.id.None? && m.msgType == t
    ensures m.data == CompileData(OpenSCADMessageData(code))
    ensures IsCompileType(t) ==> PayloadFits(m.msgType, m.data)
  {
    WorkerMessage(None, t, CompileData(OpenSCADMessageData(code)))
  }

  /** What the page receives: the response data with `output` wrapped as a
      file named `output.stl`. */
  datatype Output = Output(log: Log, output: Option<WorkspaceFile>, exitCode: int, duration: int)

  /** `{...data, output}`: the mesh is wrapped only when the response has one;
      the log, exit code and duration pass through. */
  function Adapt(data: OpenSCADResponseData): (r: Output)
    ensures r.log == data.log && r.exitCode == data.exitCode && r.duration == data.duration
    ensures r.output.Some? <==> data.output.Some?
    ensures data.output.Some? ==> r.output.value.name == "output.stl" && r.output.value.content == data.output.value
  {
    Output(data.log, if data.output.Some? then Some(WorkspaceFile("output.stl", "", data.output.value)) else None, data.exitCode, data.duration)
  }

  /** The response data is recovered from the adapted result. */
  function Unadapt(r: Output): OpenSCADResponseData {
    OpenSCADResponseData(r.log, if r.output.Some? then Some(r.output.value.content) else None, r.exitCode, r.duration)
  }

  lemma AdaptLossless(data: OpenSCADResponseData)
    ensures Unadapt(Adapt(data)) == data
  {
  }

  /** One call: the request it submits, and the result, which fails exactly
      when the job fails. */
  function ExecuteOpenSCAD(t: MessageType, code: string, reply: Result<OpenSCADResponseData>)
    : (r: (WorkerMessage, Result<Output>))
    ensures r.0 == CompileRequest(t, code)
    ensures r.1.Failure? <==> reply.Failure?
    ensures reply.Failure? ==> r.1.error == reply.error
    ensures reply.Success? ==> r.1.value == Adapt(reply.value)
  {
    (CompileRequest(t, code), if reply.Success? then Success(Adapt(reply.value)) else Failure(reply.error))
  }
}
