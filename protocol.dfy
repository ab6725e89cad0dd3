/** The messages exchanged between the page and the OpenSCAD worker
    (src/worker/types.ts). */
module Protocol {
  import opened Base

  /** `WorkerMessageType`: a closed set of five kinds. */
  datatype MessageType = Preview | Export | FsRead | FsWrite | FsUnlink

  /** The string value of each enum member. */
  function Tag(t: MessageType): string {
    match t
    case Preview => "preview"
    case Export => "export"
    case FsRead => "fs.read"
    case FsWrite => "fs.write"
    case FsUnlink => "fs.unlink"
  }

  /** The enum member with a given string value, if any. */
  function ParseTag(s: string): (r: Option<MessageType>)
    ensures r.Some? ==> Tag(r.value) == s
  {
    if s == "preview" then Some(Preview)
    else if s == "export" then Some(Export)
    else if s == "fs.read" then Some(FsRead)
    else if s == "fs.write" then Some(FsWrite)
    else if s == "fs.unlink" then Some(FsUnlink)
    else None
  }

  /** Every member is recovered from its tag, so the five tags are distinct. */
  lemma TagRoundTrip(t: MessageType)
    ensures ParseTag(Tag(t)) == Some(t)
  {
    match t
    case Preview =>
    case Export =>
      assert Tag(t)[0] != "preview"[0];
    case FsRead =>
      assert Tag(t)[3] != "preview"[3] && Tag(t)[0] != "export"[0];
    case FsWrite =>
      assert Tag(t)[3] != "preview"[3] && Tag(t)[0] != "export"[0] && Tag(t)[3] != "fs.read"[3];
    case FsUnlink =>
      assert Tag(t)[3] != "preview"[3] && Tag(t)[0] != "export"[0] && Tag(t)[3] != "fs.read"[3];
      assert Tag(t)[3] != "fs.write"[3];
  }

  lemma TagInjective(a: MessageType, b: MessageType)
    ensures Tag(a) == Tag(b) <==> a == b
  {
    TagRoundTrip(a);
    TagRoundTrip(b);
  }

  /** `string | number`. */
  datatype Id = NumId(n: int) | StrId(s: string)

  /** A file as the page and the worker hand it around: the `File` name, the
      workspace path and the bytes. */
  datatype WorkspaceFile = WorkspaceFile(name: string, path: string, content: seq<byte>)

  /** `OpenSCADWorkerMessageData`. */
  datatype OpenSCADMessageData = OpenSCADMessageData(code: string)

  /** `FileSystemWorkerMessageData`: the content is only needed when writing. */
  datatype FileSystemMessageData = FileSystemMessageData(path: string, content: Option<WorkspaceFile>)

  /** The payload of a request. */
  datatype MessageData =
    | CompileData(compile: OpenSCADMessageData)
    | FileSystemData(fs: FileSystemMessageData)

  /** The two log streams of one run, in the order the lines were printed. */
  datatype Log = Log(stdErr: seq<string>, stdOut: seq<string>)

  /** `OpenSCADWorkerResponseData`; `output` is absent when the run did not
      produce a mesh. */
  datatype OpenSCADResponseData = OpenSCADResponseData(
    log: Log, output: Option<seq<byte>>, exitCode: int, duration: int)

  /** The payload of a response. */
  datatype ResponseData =
    | CompileResult(result: OpenSCADResponseData)
    | FileSystemResult(fs: FileSystemMessageData)

  /** `WorkerMessage`: a request, whose id is optional. */
  datatype WorkerMessage = WorkerMessage(id: Option<Id>, msgType: MessageType, data: MessageData)

  /** `WorkerResponseMessage`: a response, whose id is mandatory and whose
      error is optional. */
  datatype WorkerResponseMessage = WorkerResponseMessage(
    id: Id, msgType: MessageType, data: ResponseData, err: Option<string>)

  predicate IsCompileType(t: MessageType) {
    t == Preview || t == Export
  }

  /** `WorkerMessageDataMap`: the two compile kinds carry `{code}`, the three
      file-system kinds carry `{path, content?}`. */
  predicate PayloadFits(t: MessageType, d: MessageData) {
    if IsCompileType(t) then d.CompileData? else d.FileSystemData?
  }

  /** The payload map is total and exclusive: each kind admits exactly one of
      the two payload shapes. */
  lemma PayloadShapes(t: MessageType, code: string, path: string, content: Option<WorkspaceFile>)
    ensures PayloadFits(t, CompileData(OpenSCADMessageData(code))) <==> (t == Preview || t == Export)
    ensures PayloadFits(t, FileSystemData(FileSystemMessageData(path, content)))
      <==> (t == FsRead || t == FsWrite || t == FsUnlink)
  {
  }
}
