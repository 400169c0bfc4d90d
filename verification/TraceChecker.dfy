/**
 The host half of the capture-evidence protocol (bench/windows-capture-798/probe.py):
 what the probe concludes from the trace its server collected.
*/
module TraceChecker {
  import opened Common
  import opened TraceObserver

  /** What a comprehension over the trace selects. */
  datatype Query =
    | IsFence
    | IsStart
    | StartOf(path: string)
    | OfOperation(op: string)
    | OfOperations(ops: seq<string>)
    | EarlierThan(cutoff: real)
    | IsNativeSend
    | IsWrapperEnd
    | IsWrapperAnswer
    | IsAttachmentChange

  predicate Matches(e: Event, q: Query) {
    match q
    case IsFence => e.body.TeardownStart?
    case IsStart => e.body.OperationStart?
    case StartOf(path) => e.body.OperationStart? && e.body.path == path
    case OfOperation(op) => e.operationId == op
    case OfOperations(ops) => e.operationId in ops
    case EarlierThan(cutoff) => e.atMs < cutoff
    case IsNativeSend => e.body.NativeSend?
    case IsWrapperEnd => e.body.WrapperEnd?
    case IsWrapperAnswer => e.body.WrapperEnd? && e.body.answered
    case IsAttachmentChange => e.body.AttachmentChange?
  }

  /** The events a query selects, in order. */
  function Select(s: seq<Event>, q: Query): (r: seq<Event>)
    ensures forall e {:trigger e in r} :: e in r <==> e in s && Matches(e, q)
  {
    if s == [] then []
    else
      var rest := Select(s[..|s| - 1], q);
      assert s == s[..|s| - 1] + [s[|s| - 1]];
      if Matches(s[|s| - 1], q) then rest + [s[|s| - 1]] else rest
  }

  /** Stable insertion, then stable sorting, by worker time. */
  function InsertByTime(e: Event, s: seq<Event>): (r: seq<Event>)
    ensures |r| == |s| + 1
    ensures forall x :: x in r <==> x == e || x in s
  {
    if s == [] then [e]
    else
      assert s == [s[0]] + s[1..];
      if e.atMs <= s[0].atMs then [e] + s else [s[0]] + InsertByTime(e, s[1..])
  }

  function SortByTime(s: seq<Event>): (r: seq<Event>)
    ensures |r| == |s|
    ensures forall x :: x in r <==> x in s
  {
    if s == [] then []
    else
      assert s == [s[0]] + s[1..];
      InsertByTime(s[0], SortByTime(s[1..]))
  }

  ghost predicate OnlyMatch(s: seq<Event>, q: Query, e: Event) {
    e in s && Matches(e, q) && forall x | x in s && Matches(x, q) :: x == e
  }

  /** The event a query selects, when it selects exactly one. */
  function Sole(s: seq<Event>, q: Query): (r: Option<Event>)
    ensures r.Some? ==> OnlyMatch(s, q, r.value)
  {
    var found := Select(s, q);
    if |found| == 1 then
      assert found[0] in found;
      assert forall x | x in s && Matches(x, q) :: x in found;
      Some(found[0])
    else None
  }

  function OperationIds(s: seq<Event>): set<string> {
    set e | e in s :: e.operationId
  }

  function Elements(s: seq<string>): set<string> {
    set x | x in s
  }

  /** `fenced_events`: the events before the single drained fence, in worker time. */
  function FencedEvents(events: seq<Event>): Option<seq<Event>> {
    var fence := Sole(events, IsFence);
    if fence.None? || !fence.value.body.traceComplete then None
    else
      var operations := fence.value.body.operations;
      if exists op :: op in operations && op == "" then None
      else if |operations| != |Elements(operations)| then None
      else if OperationIds(Select(events, IsStart)) != Elements(operations) then None
      else
        var relevant := Select(events, OfOperations(operations));
        Some(SortByTime(Select(relevant, EarlierThan(fence.value.atMs))))
  }

  datatype CaptureEvidence = CaptureEvidence(sent: Event, end: Event, own: seq<Event>)

  /** `capture_context`: the report capture, when nothing casts doubt on its attachment. */
  function CaptureContext(events: seq<Event>): Option<CaptureEvidence> {
    var fenced := FencedEvents(events);
    if fenced.None? then None else ContextOf(fenced.value)
  }

  function ContextOf(events: seq<Event>): Option<CaptureEvidence> {
    var start := Sole(events, StartOf("/report"));
    if start.None? then None
    else
      var own := Select(events, OfOperation(start.value.operationId));
      var sent, end := Sole(own, IsNativeSend), Sole(own, IsWrapperEnd);
      if sent.None? || end.None? then None
      else if !ReportAgrees(start.value, sent.value, end.value) || Select(own, IsAttachmentChange) != [] then None
      else if !WarmUpAgrees(events, sent.value) then None
      else Some(CaptureEvidence(sent.value, end.value, own))
  }

  /** The checks `capture_context` makes among the report's start, native send and wrapper end. */
  predicate ReportAgrees(start: Event, sent: Event, end: Event)
    requires start.body.OperationStart? && sent.body.NativeSend? && end.body.WrapperEnd?
  {
    if |end.body.attempts| != 1 || end.body.invalidations != [] then false
    else
      var attempt := end.body.attempts[0];
      var epoch := sent.body.epoch;
      && sent.body.captureId == attempt.id
      && epoch > 0 && epoch == start.body.epoch && epoch == end.body.epoch && epoch == attempt.epoch
      && sent.body.target == start.body.requested && sent.body.target == attempt.target
      && sent.body.control.valid && 0.0 <= sent.body.control.elapsedMs <= 250.0
      && sent.body.control.windowOk
  }

  /** The checks `capture_context` makes against the warm-up capture. */
  predicate WarmUpAgrees(events: seq<Event>, sent: Event)
    requires sent.body.NativeSend?
  {
    var start := Sole(events, StartOf("/warmup"));
    if start.None? || sent.body.historyLost then false
    else
      var warm := Select(events, OfOperation(start.value.operationId));
      var native, end := Sole(warm, IsNativeSend), Sole(warm, IsWrapperAnswer);
      if native.None? || end.None? then false
      else
        && end.value.body.invalidations == [] && |end.value.body.attempts| == 1
        && native.value.body.target == sent.body.target && native.value.body.epoch == sent.body.epoch
        && end.value.body.epoch == sent.body.epoch
        && !exists h :: h in sent.body.attachmentHistory && h.atMs > end.value.atMs
  }
}
