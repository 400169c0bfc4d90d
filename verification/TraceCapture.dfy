/** Which captures the probe accepts, on the worker's own emission log and over every run. */
module TraceCapture {
  import opened Common
  import opened TraceObserver
  import opened TraceChecker
  import opened TraceProtocol
  import opened TraceInvariants
  import opened TraceSteps
  import opened TraceTheorems
  import opened TraceAcceptance

  /** The worker emitted `e` before the fence at `k`, for one of the operations that the fence names. */
  ghost predicate Before(s: System, k: nat, e: Event) {
    && k < |s.worker.emitted| && s.worker.emitted[k].body.TeardownStart?
    && (exists i :: 0 <= i < k && s.worker.emitted[i] == e)
    && e.operationId in s.worker.emitted[k].body.operations
  }

  /** The report was started once; its operation has one native send, one end and no attachment change. */
  ghost predicate OneReport(s: System, k: nat, c: Evidence) {
    && Before(s, k, c.start) && c.start.body.OperationStart? && c.start.body.path == "/report"
    && Before(s, k, c.sent) && c.sent.body.NativeSend? && c.sent.operationId == c.start.operationId
    && Before(s, k, c.end) && c.end.body.WrapperEnd? && c.end.operationId == c.start.operationId
    && (forall e | Before(s, k, e) && e.body.OperationStart? && e.body.path == "/report" :: e == c.start)
    && (forall e | Before(s, k, e) && e.operationId == c.start.operationId ::
          (e.body.NativeSend? ==> e == c.sent) && (e.body.WrapperEnd? ==> e == c.end) && !e.body.AttachmentChange?)
  }

  /** The warm-up was started once; its operation has one native send and one answer. */
  ghost predicate OneWarmUp(s: System, k: nat, c: Evidence) {
    && Before(s, k, c.warmStart) && c.warmStart.body.OperationStart? && c.warmStart.body.path == "/warmup"
    && Before(s, k, c.warmSent) && c.warmSent.body.NativeSend? && c.warmSent.operationId == c.warmStart.operationId
    && Before(s, k, c.warmEnd) && c.warmEnd.body.WrapperEnd? && c.warmEnd.body.answered
    && c.warmEnd.operationId == c.warmStart.operationId
    && (forall e | Before(s, k, e) && e.body.OperationStart? && e.body.path == "/warmup" :: e == c.warmStart)
    && (forall e | Before(s, k, e) && e.operationId == c.warmStart.operationId ::
          (e.body.NativeSend? ==> e == c.warmSent) && (e.body.WrapperEnd? && e.body.answered ==> e == c.warmEnd))
  }

  /** What the report's events say: one attempt, the one that was sent, on the tab asked for, in one epoch, in time. */
  ghost predicate ReportFits(start: Event, sent: Event, end: Event) {
    && start.body.OperationStart? && sent.body.NativeSend? && end.body.WrapperEnd?
    && |end.body.attempts| == 1 && end.body.invalidations == []
    && end.body.attempts[0].id == sent.body.captureId
    && start.body.requested == sent.body.target == end.body.attempts[0].target
    && 0 < sent.body.epoch && start.body.epoch == sent.body.epoch
    && end.body.epoch == sent.body.epoch && end.body.attempts[0].epoch == sent.body.epoch
    && sent.body.control.valid && sent.body.control.windowOk
    && 0.0 <= sent.body.control.elapsedMs && sent.body.control.elapsedMs <= 250.0
  }

  /** What ties it to the warm-up: the same tab and epoch, no doubt, and no attachment change since its end. */
  ghost predicate WarmUpFits(sent: Event, warmSent: Event, warmEnd: Event) {
    && sent.body.NativeSend? && warmSent.body.NativeSend? && warmEnd.body.WrapperEnd?
    && !sent.body.historyLost
    && warmEnd.body.invalidations == [] && |warmEnd.body.attempts| == 1
    && warmSent.body.target == sent.body.target
    && warmSent.body.epoch == sent.body.epoch && warmEnd.body.epoch == sent.body.epoch
    && (forall h :: h in sent.body.attachmentHistory ==> h.atMs <= warmEnd.atMs)
  }

  ghost predicate Convincing(s: System, k: nat, c: Evidence) {
    && Acceptable(s, k) && OneReport(s, k, c) && OneWarmUp(s, k, c)
    && ReportFits(c.start, c.sent, c.end) && WarmUpFits(c.sent, c.warmSent, c.warmEnd)
  }

  // ---- the fenced events are the log before the fence ----

  ghost function LogBefore(s: System, k: nat): seq<Event>
    requires k < |s.worker.emitted| && s.worker.emitted[k].body.TeardownStart?
  {
    Select(s.worker.emitted[..k], OfOperations(s.worker.emitted[k].body.operations))
  }

  lemma LogIsBefore(s: System, k: nat, e: Event)
    requires k < |s.worker.emitted| && s.worker.emitted[k].body.TeardownStart?
    ensures e in LogBefore(s, k) <==> Before(s, k, e)
  {
    var prefix := s.worker.emitted[..k];
    if e in prefix {
      var i :| 0 <= i < |prefix| && prefix[i] == e;
      assert s.worker.emitted[i] == e;
    }
    if i :| 0 <= i < k && s.worker.emitted[i] == e {
      assert prefix[i] == e;
    }
  }

  lemma FencedIsLog(cfg: Config, s: System, k: nat)
    requires Stamped(cfg, s.worker) && Delivered(cfg, s) && Drained(s.worker, s.drains)
    requires Named(cfg, s.worker, s.drains) && Announced(s.worker, s.drains) && Acceptable(s, k)
    ensures FencedEvents(EventsOf(s.traces, cfg.caseId)) == Some(LogBefore(s, k))
    ensures StrictByTime(LogBefore(s, k))
  {
    var events, fence := EventsOf(s.traces, cfg.caseId), s.worker.emitted[k];
    AcceptableIsAccepted(cfg, s, k);
    FenceIsSole(cfg, s, k);
    CutRestoresTheLog(cfg, s, k);
    LogIsStrict(cfg, s, k);
    hide Stamped, Delivered, Drained, Named, Announced, Sole, Select, SortByTime, OperationIds, Elements;
  }

  lemma LogIsStrict(cfg: Config, s: System, k: nat)
    requires Stamped(cfg, s.worker) && k < |s.worker.emitted| && s.worker.emitted[k].body.TeardownStart?
    ensures StrictByTime(LogBefore(s, k))
  {
    hide Select;
    SelectKeepsStrict(s.worker.emitted[..k], OfOperations(s.worker.emitted[k].body.operations));
  }

  lemma FenceIsSole(cfg: Config, s: System, k: nat)
    requires Stamped(cfg, s.worker) && Delivered(cfg, s) && Acceptable(s, k)
    ensures Sole(EventsOf(s.traces, cfg.caseId), IsFence) == Some(s.worker.emitted[k])
  {
    var events, fence := EventsOf(s.traces, cfg.caseId), s.worker.emitted[k];
    ArrivedIsThere(cfg, s, k);
    ArrivedTimesDiffer(cfg, s);
    forall x | x in events && Matches(x, IsFence)
      ensures x == fence
    {
      var i := ArrivedAt(cfg, s, x);
    }
    OnlyMatchIsSelected(events, IsFence, fence);
  }

  // ---- what the checks say about a log ----

  lemma SoleIff(s: seq<Event>, q: Query, e: Event)
    requires StrictByTime(s)
    ensures Sole(s, q) == Some(e) <==> OnlyMatch(s, q, e)
  {
    if OnlyMatch(s, q, e) {
      OnlyMatchIsSelected(s, q, e);
    }
  }

  lemma OwnIsStrict(logged: seq<Event>, op: string)
    requires StrictByTime(logged)
    ensures StrictByTime(Select(logged, OfOperation(op)))
  {
    SelectKeepsStrict(logged, OfOperation(op));
  }

  /** The single events that the checks look at, as facts about membership. */
  ghost predicate SingleIn(logged: seq<Event>, c: Evidence) {
    && OnlyMatch(logged, StartOf("/report"), c.start) && OnlyMatch(logged, StartOf("/warmup"), c.warmStart)
    && var own := Select(logged, OfOperation(c.start.operationId));
       var warm := Select(logged, OfOperation(c.warmStart.operationId));
       && OnlyMatch(own, IsNativeSend, c.sent) && OnlyMatch(own, IsWrapperEnd, c.end)
       && Select(own, IsAttachmentChange) == []
       && OnlyMatch(warm, IsNativeSend, c.warmSent) && OnlyMatch(warm, IsWrapperAnswer, c.warmEnd)
  }

  lemma ReportAgreesIff(start: Event, sent: Event, end: Event)
    requires start.body.OperationStart? && sent.body.NativeSend? && end.body.WrapperEnd?
    ensures ReportAgrees(start, sent, end) <==> ReportFits(start, sent, end)
  {
  }

  lemma WarmUpAgreesIf(logged: seq<Event>, c: Evidence)
    requires StrictByTime(logged) && SingleIn(logged, c) && c.sent.body.NativeSend?
    ensures WarmUpAgrees(logged, c.sent) <==> WarmUpFits(c.sent, c.warmSent, c.warmEnd)
  {
    hide Select;
    var warm := Select(logged, OfOperation(c.warmStart.operationId));
    OwnIsStrict(logged, c.warmStart.operationId);
    SoleIff(logged, StartOf("/warmup"), c.warmStart);
    SoleIff(warm, IsNativeSend, c.warmSent);
    SoleIff(warm, IsWrapperAnswer, c.warmEnd);
  }

  lemma ContextAccepts(logged: seq<Event>, c: Evidence)
    requires StrictByTime(logged) && SingleIn(logged, c)
    requires ReportFits(c.start, c.sent, c.end) && WarmUpFits(c.sent, c.warmSent, c.warmEnd)
    ensures ContextOf(logged)
         == Some(CaptureEvidence(c.sent, c.end, Select(logged, OfOperation(c.start.operationId))))
  {
    hide Select, ReportAgrees, WarmUpAgrees, ReportFits, WarmUpFits;
    var own := Select(logged, OfOperation(c.start.operationId));
    OwnIsStrict(logged, c.start.operationId);
    SoleIff(logged, StartOf("/report"), c.start);
    SoleIff(own, IsNativeSend, c.sent);
    SoleIff(own, IsWrapperEnd, c.end);
    ReportAgreesIff(c.start, c.sent, c.end);
    WarmUpAgreesIf(logged, c);
  }

  lemma ContextRestsOn(logged: seq<Event>) returns (c: Evidence)
    requires StrictByTime(logged) && ContextOf(logged).Some?
    ensures SingleIn(logged, c) && ReportFits(c.start, c.sent, c.end) && WarmUpFits(c.sent, c.warmSent, c.warmEnd)
  {
    hide Select, ReportAgrees, ReportFits, WarmUpFits;
    var e := ContextOf(logged).value;
    var start := ContextParts(logged);
    c := SingleWarmUp(logged, start, e);
    ReportAgreesIff(c.start, c.sent, c.end);
    WarmUpAgreesIf(logged, c);
  }

  lemma SingleWarmUp(logged: seq<Event>, start: Event, e: CaptureEvidence) returns (c: Evidence)
    requires OnlyMatch(logged, StartOf("/report"), start) && e.sent.body.NativeSend?
    requires e.own == Select(logged, OfOperation(start.operationId)) && Select(e.own, IsAttachmentChange) == []
    requires OnlyMatch(e.own, IsNativeSend, e.sent) && OnlyMatch(e.own, IsWrapperEnd, e.end)
    requires WarmUpAgrees(logged, e.sent)
    ensures SingleIn(logged, c) && c.start == start && c.sent == e.sent && c.end == e.end
  {
    hide Select;
    var warmStart := Sole(logged, StartOf("/warmup")).value;
    var warm := Select(logged, OfOperation(warmStart.operationId));
    c := Evidence(start, e.sent, e.end, warmStart, Sole(warm, IsNativeSend).value, Sole(warm, IsWrapperAnswer).value);
  }

  // ---- the same, on the emission log ----

  lemma SingleIsOne(s: System, k: nat, c: Evidence)
    requires k < |s.worker.emitted| && s.worker.emitted[k].body.TeardownStart?
    ensures SingleIn(LogBefore(s, k), c) <==> OneReport(s, k, c) && OneWarmUp(s, k, c)
  {
    hide Before, LogBefore, Select;
    var logged := LogBefore(s, k);
    forall e: Event
      ensures e in logged <==> Before(s, k, e)
    {
      LogIsBefore(s, k, e);
    }
    var own := Select(logged, OfOperation(c.start.operationId));
    NoChangeIn(own);
    SingleReport(s, k, c, logged, own);
    SingleWarm(s, k, c, logged);
  }

  lemma NoChangeIn(own: seq<Event>)
    ensures Select(own, IsAttachmentChange) == [] <==> forall e :: e in own ==> !e.body.AttachmentChange?
  {
    hide Select;
    var changes := Select(own, IsAttachmentChange);
    if changes != [] {
      assert changes[0] in changes;
    } else {
      NoneSelected(own, IsAttachmentChange);
    }
  }

  lemma SingleReport(s: System, k: nat, c: Evidence, logged: seq<Event>, own: seq<Event>)
    requires own == Select(logged, OfOperation(c.start.operationId))
    requires forall e :: e in logged <==> Before(s, k, e)
    ensures (&& OnlyMatch(logged, StartOf("/report"), c.start)
             && OnlyMatch(own, IsNativeSend, c.sent) && OnlyMatch(own, IsWrapperEnd, c.end)
             && (forall e :: e in own ==> !e.body.AttachmentChange?))
       <==> OneReport(s, k, c)
  {
    hide Before, Select;
    assert forall e :: e in own <==> Before(s, k, e) && e.operationId == c.start.operationId;
  }

  lemma SingleWarm(s: System, k: nat, c: Evidence, logged: seq<Event>)
    requires forall e :: e in logged <==> Before(s, k, e)
    ensures var warm := Select(logged, OfOperation(c.warmStart.operationId));
      (&& OnlyMatch(logged, StartOf("/warmup"), c.warmStart)
       && OnlyMatch(warm, IsNativeSend, c.warmSent) && OnlyMatch(warm, IsWrapperAnswer, c.warmEnd))
      <==> OneWarmUp(s, k, c)
  {
    hide Before, Select;
    var warm := Select(logged, OfOperation(c.warmStart.operationId));
    assert forall e :: e in warm <==> Before(s, k, e) && e.operationId == c.warmStart.operationId;
  }

  /**
   Acceptance of a capture, exactly: over every run the probe accepts a capture if and only if one
   delivered, complete fence covers the trace and the six events before it are single and fit. The
   evidence it reads off then is that of these events.
   */
  lemma CaptureAcceptance(cfg: Config, steps: seq<Step>)
    requires Strict(cfg.clock)
    ensures var s := Run(cfg, steps);
      var accepted := CaptureContext(EventsOf(s.traces, cfg.caseId));
      && (accepted.Some? <==> exists k: nat, c: Evidence :: Convincing(s, k, c))
      && (forall k: nat, c: Evidence | Convincing(s, k, c) ::
            && accepted.Some? && accepted.value.sent == c.sent && accepted.value.end == c.end
            && StrictByTime(accepted.value.own)
            && forall e :: e in accepted.value.own <==> Before(s, k, e) && e.operationId == c.start.operationId)
  {
    var s := Run(cfg, steps);
    RunKeeps(cfg, steps);
    RunAnnounces(cfg, steps);
    hide Run, Acceptable, Announced, CaptureContext, Before;
    var events := EventsOf(s.traces, cfg.caseId);
    forall k: nat, c: Evidence | Convincing(s, k, c)
      ensures var accepted := CaptureContext(events);
        && accepted.Some? && accepted.value.sent == c.sent && accepted.value.end == c.end
        && StrictByTime(accepted.value.own)
        && forall e :: e in accepted.value.own <==> Before(s, k, e) && e.operationId == c.start.operationId
    {
      ConvincingIsAccepted(cfg, s, k, c);
    }
    if CaptureContext(events).Some? {
      var k, c := AcceptedIsConvincing(cfg, s);
    }
  }

  lemma ConvincingIsAccepted(cfg: Config, s: System, k: nat, c: Evidence)
    requires Invariant(cfg, s) && Announced(s.worker, s.drains) && Convincing(s, k, c)
    ensures var accepted := CaptureContext(EventsOf(s.traces, cfg.caseId));
      && accepted.Some? && accepted.value.sent == c.sent && accepted.value.end == c.end
      && StrictByTime(accepted.value.own)
      && forall e :: e in accepted.value.own <==> Before(s, k, e) && e.operationId == c.start.operationId
  {
    hide Stamped, Delivered, Drained, Named, Announced, Observed, Before, LogBefore, SingleIn, ReportFits, WarmUpFits,
         FencedEvents, ContextOf, Select, OneReport, OneWarmUp;
    FencedIsLog(cfg, s, k);
    SingleIsOne(s, k, c);
    ContextAccepts(LogBefore(s, k), c);
    OwnIsStrict(LogBefore(s, k), c.start.operationId);
    forall e: Event
      ensures e in LogBefore(s, k) <==> Before(s, k, e)
    {
      LogIsBefore(s, k, e);
    }
  }

  lemma AcceptedIsConvincing(cfg: Config, s: System) returns (k: nat, c: Evidence)
    requires Invariant(cfg, s) && Announced(s.worker, s.drains)
    requires CaptureContext(EventsOf(s.traces, cfg.caseId)).Some?
    ensures Convincing(s, k, c)
  {
    hide Stamped, Delivered, Drained, Named, Announced, Observed, Before, LogBefore, SingleIn, ReportFits, WarmUpFits,
         FencedEvents, ContextOf, Select;
    k := AcceptedIsAcceptable(cfg, s);
    FencedIsLog(cfg, s, k);
    c := ContextRestsOn(LogBefore(s, k));
    SingleIsOne(s, k, c);
  }
}
