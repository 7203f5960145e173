/**
 * What the agents of the agent workflow send to their language model, and
 * everything outside their own code: the model's replies, `json.loads`,
 * tech-pack loading, Python's `str()` of a non-string value, and blob
 * storage for the workflow's ingest and finalize nodes.
 */
module Agents {
  import opened Wrappers
  import opened Json
  import opened Pdfs

  /** One `invoke` of an agent's model (the prompt templates themselves are left out). */
  datatype AgentRequest =
    | ExtractRequest(files: seq<NamedPdf>)
    | Stage2aRequest(extraction: Record, techPack: string)
    | Stage2bRequest(extraction: Record, stage2a: Record, techPack: string)
    | Stage2cRequest(extraction: Record, stage2a: Record, stage2b: Record, techPack: string)
    | ClarifyRequest(questions: seq<string>, context: Record)
    | GenerateRequest(extraction: Record, forensic: Record)
    | ReviseRequest(originalReport: string, issuesText: string, extraction: Record, forensic: Record)
    | VerifyRequest(report: string, extraction: Record, forensic: Record)

  /** Why `load_tech_pack` raised: `FileNotFoundError` or another exception, with its text. */
  datatype PackFailure = PackFailure(fileNotFound: bool, message: string)

  /**
   * `invoke(req, step)` is the reply to `req` when the workflow has executed
   * `step` nodes (the agents keep a conversation history, so a repeated
   * request may get a different reply), or the exception text. `show` is
   * `str()` of a non-string JSON value. `uploadReport(content, blobName)`
   * is the URL of an uploaded report or the exception text, and `reportId`
   * the first eight characters of the random `uuid4` a finalized report is
   * filed under.
   */
  datatype AgentEnv = AgentEnv(
    invoke: (AgentRequest, nat) -> Result<string, string>,
    decode: string -> Result<Json, string>,
    loadTechPack: string -> Result<string, PackFailure>,
    show: Json -> string,
    download: string -> Result<Bytes, string>,
    uploadReport: (string, string) -> Result<string, string>,
    reportId: string)

  /** `str(v)` inside an f-string: a string is itself, anything else is rendered. */
  function StrOf(v: Json, show: Json -> string): (r: string)
    ensures v.JStr? ==> r == v.s
  {
    if v.JStr? then v.s else show(v)
  }

  /** Text of the `TypeError` raised by iterating over (or `in` on) a value that is not iterable. */
  function NotIterable(v: Json): string
  {
    "'" + TypeName(v) + "' object is not iterable"
  }
}
