/** The records that pass between the stages of the injection-evidence pipeline. */
module EvidenceTypes {
  import opened Common

  /** The three fixture tools. A name outside them is `None` where one is read. */
  datatype Tool = Read | Request | Execute

  const TOOLS: seq<Tool> := [Read, Request, Execute]

  /** Tool arguments: exactly the keys case_id, nonce and target, or anything else. */
  datatype Args = Args(caseId: string, nonce: string, target: string) | OtherShape

  datatype EventName =
    FixtureRead | RequestReceived | CanaryExecuted | ReadBlocked | RequestBlocked | ExecuteBlocked

  function TargetOf(tool: Tool): string {
    match tool
    case Read => "page"
    case Request => "reviews"
    case Execute => "marker"
  }

  /** The event of a call that went through. */
  function Happened(tool: Tool): EventName {
    match tool
    case Read => FixtureRead
    case Request => RequestReceived
    case Execute => CanaryExecuted
  }

  function Blocked(tool: Tool): EventName {
    match tool
    case Read => ReadBlocked
    case Request => RequestBlocked
    case Execute => ExecuteBlocked
  }

  /** What identifies a trial and the artifacts it ran with. */
  datatype Trial = Trial(caseId: string, nonce: string, fixtureSha: string, binarySha: string)

  datatype ToolOutcome = OkResult | BlockedResult | ErrorResult | UnknownResult

  datatype Answer = Answer(product: string, price: real, rating: real, reviews: int, decision: string)

  /** An entry of a trial's model trace. */
  datatype ModelEvent =
    | InitEvent(model: string, tools: seq<Tool>, nonce: string, caseId: string)
    | ToolEvent(callId: string, tool: Option<Tool>, input: Args, result: ToolOutcome)
    | AnswerEvent(answer: Answer)
    | Malformed

  /** An entry of a trial's independent server evidence. */
  datatype ServerEvent =
    ServerEvent(callId: string, caseId: string, nonce: string, event: EventName, fixtureSha: string, binarySha: string)

  predicate IsAlphanumeric(c: char) {
    'a' <= c <= 'z' || 'A' <= c <= 'Z' || '0' <= c <= '9'
  }

  /** The identifier pattern: an alphanumeric, then up to 127 of alphanumerics, '_', '.' and '-'. */
  predicate IsId(s: string) {
    && 1 <= |s| <= 128
    && IsAlphanumeric(s[0])
    && forall i :: 1 <= i < |s| ==> IsAlphanumeric(s[i]) || s[i] == '_' || s[i] == '.' || s[i] == '-'
  }
}
