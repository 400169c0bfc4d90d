/** What the probe may conclude from a trace, over every run of the protocol. */
module TraceTheorems {
  import opened Common
  import opened TraceObserver
  import opened TraceChecker
  import opened TraceProtocol
  import opened TraceInvariants
  import opened TraceSteps

  // ---- selecting and sorting by worker time ----

  ghost predicate StrictByTime(s: seq<Event>) {
    forall i, j :: 0 <= i < j < |s| ==> s[i].atMs < s[j].atMs
  }

  ghost predicate SortedByTime(s: seq<Event>) {
    forall i, j :: 0 <= i < j < |s| ==> s[i].atMs <= s[j].atMs
  }

  ghost predicate DistinctTimes(s: seq<Event>) {
    forall i, j :: 0 <= i < j < |s| ==> s[i].atMs != s[j].atMs
  }

  lemma {:induction false} SelectKeepsDistinct(s: seq<Event>, q: Query)
    requires DistinctTimes(s)
    ensures DistinctTimes(Select(s, q))
  {
    if s != [] {
      var rest, last := s[..|s| - 1], s[|s| - 1];
      SelectKeepsDistinct(rest, q);
      forall i | 0 <= i < |Select(rest, q)|
        ensures Select(rest, q)[i].atMs != last.atMs
      {
        assert Select(rest, q)[i] in Select(rest, q);
      }
    }
  }

  lemma {:induction false} SelectKeepsStrict(s: seq<Event>, q: Query)
    requires StrictByTime(s)
    ensures StrictByTime(Select(s, q))
  {
    if s != [] {
      var rest, last := s[..|s| - 1], s[|s| - 1];
      SelectKeepsStrict(rest, q);
      forall i | 0 <= i < |Select(rest, q)|
        ensures Select(rest, q)[i].atMs < last.atMs
      {
        assert Select(rest, q)[i] in Select(rest, q);
      }
    }
  }

  lemma {:induction false} InsertSorts(e: Event, s: seq<Event>)
    requires SortedByTime(s)
    ensures SortedByTime(InsertByTime(e, s))
  {
    if s != [] && e.atMs > s[0].atMs {
      InsertSorts(e, s[1..]);
      var rest := InsertByTime(e, s[1..]);
      forall j | 0 <= j < |rest|
        ensures s[0].atMs <= rest[j].atMs
      {
        assert rest[j] in rest;
        assert forall x :: x in s[1..] ==> x in s;
        if rest[j] != e {
          var i :| 0 <= i < |s[1..]| && s[1..][i] == rest[j];
          assert s[i + 1] == rest[j];
        }
      }
    }
  }

  lemma {:induction false} SortSorts(s: seq<Event>)
    ensures SortedByTime(SortByTime(s))
  {
    if s != [] {
      SortSorts(s[1..]);
      InsertSorts(s[0], SortByTime(s[1..]));
    }
  }

  lemma {:induction false} InsertKeepsDistinct(e: Event, s: seq<Event>)
    requires DistinctTimes(s) && forall i :: 0 <= i < |s| ==> s[i].atMs != e.atMs
    ensures DistinctTimes(InsertByTime(e, s))
  {
    if s != [] && e.atMs > s[0].atMs {
      InsertKeepsDistinct(e, s[1..]);
      var rest := InsertByTime(e, s[1..]);
      forall j | 0 <= j < |rest|
        ensures s[0].atMs != rest[j].atMs
      {
        assert rest[j] in rest;
        if rest[j] != e {
          var i :| 0 <= i < |s[1..]| && s[1..][i] == rest[j];
        }
      }
    }
  }

  lemma {:induction false} SortKeepsDistinct(s: seq<Event>)
    requires DistinctTimes(s)
    ensures DistinctTimes(SortByTime(s))
  {
    if s != [] {
      SortKeepsDistinct(s[1..]);
      var rest := SortByTime(s[1..]);
      forall i | 0 <= i < |rest|
        ensures rest[i].atMs != s[0].atMs
      {
        assert rest[i] in s[1..];
      }
      InsertKeepsDistinct(s[0], rest);
    }
  }

  lemma SortIsStrict(s: seq<Event>)
    requires DistinctTimes(s)
    ensures StrictByTime(SortByTime(s))
  {
    SortSorts(s);
    SortKeepsDistinct(s);
  }

  lemma StrictLast(s: seq<Event>, e: Event)
    requires StrictByTime(s) && s != []
    ensures e in s[..|s| - 1] <==> e in s && e != s[|s| - 1]
    ensures e in s ==> e.atMs <= s[|s| - 1].atMs
  {
    assert s == s[..|s| - 1] + [s[|s| - 1]];
  }

  lemma StrictLasts(a: seq<Event>, b: seq<Event>)
    requires StrictByTime(a) && StrictByTime(b) && a != [] && b != []
    requires a[|a| - 1] in b && b[|b| - 1] in a
    ensures a[|a| - 1] == b[|b| - 1]
  {
    StrictLast(a, b[|b| - 1]);
    StrictLast(b, a[|a| - 1]);
    var i :| 0 <= i < |b| && b[i] == a[|a| - 1];
  }

  lemma SameButLast(a: seq<Event>, b: seq<Event>)
    requires StrictByTime(a) && StrictByTime(b) && SameElements(a, b) && a != [] && b != []
    ensures a[|a| - 1] == b[|b| - 1] && SameElements(a[..|a| - 1], b[..|b| - 1])
  {
    assert a[|a| - 1] in b && b[|b| - 1] in a;
    StrictLasts(a, b);
    var a', b' := a[..|a| - 1], b[..|b| - 1];
    forall e: Event
      ensures e in a' <==> e in b'
    {
      StrictLast(a, e);
      StrictLast(b, e);
    }
  }

  /** Two strictly ordered sequences with the same elements are the same. */
  lemma {:induction false} StrictIsUnique(a: seq<Event>, b: seq<Event>)
    requires StrictByTime(a) && StrictByTime(b) && SameElements(a, b)
    ensures a == b
  {
    if a != [] {
      assert a[0] in b;
    }
    if b != [] {
      assert b[0] in a;
      SameButLast(a, b);
      StrictIsUnique(a[..|a| - 1], b[..|b| - 1]);
      assert a == a[..|a| - 1] + [a[|a| - 1]];
      assert b == b[..|b| - 1] + [b[|b| - 1]];
    }
  }

  /** Among events of distinct times, a single match is selected alone. */
  lemma OnlyMatchIsSelected(s: seq<Event>, q: Query, e: Event)
    requires DistinctTimes(s) && OnlyMatch(s, q, e)
    ensures Select(s, q) == [e]
  {
    var r := Select(s, q);
    SelectKeepsDistinct(s, q);
    assert e in r;
    assert forall i :: 0 <= i < |r| ==> r[i] in r && r[i] == e;
    assert |r| > 1 ==> r[0].atMs != r[1].atMs;
  }

  // ---- the fence ----

  /** The emission index of the fence that a trace was cut at, and what the cut must equal. */
  ghost predicate CutAt(s: System, k: nat, fenced: seq<Event>) {
    && k < |s.worker.emitted| && k in s.arrivals
    && s.worker.emitted[k].body.TeardownStart? && s.worker.emitted[k].body.traceComplete
    && fenced == Select(s.worker.emitted[..k], OfOperations(s.worker.emitted[k].body.operations))
  }

  lemma ArrivedTimesDiffer(cfg: Config, s: System)
    requires Stamped(cfg, s.worker) && Delivered(cfg, s)
    ensures DistinctTimes(EventsOf(s.traces, cfg.caseId))
  {
    var events := EventsOf(s.traces, cfg.caseId);
    forall i, j | 0 <= i < j < |events|
      ensures events[i].atMs != events[j].atMs
    {
      assert s.arrivals[i] != s.arrivals[j];
    }
  }

  /** Behind a complete fence the server has exactly what the worker emitted. */
  lemma NothingIsMissing(cfg: Config, s: System, k: nat, e: Event)
    requires Stamped(cfg, s.worker) && Delivered(cfg, s) && Drained(s.worker, s.drains)
    requires k < |s.worker.emitted| && s.worker.emitted[k].body.TeardownStart? && s.worker.emitted[k].body.traceComplete
    ensures e in EventsOf(s.traces, cfg.caseId) && e.atMs < s.worker.emitted[k].atMs <==> e in s.worker.emitted[..k]
  {
    var emitted, events := s.worker.emitted, EventsOf(s.traces, cfg.caseId);
    if e in events && e.atMs < emitted[k].atMs {
      var n :| 0 <= n < |events| && events[n] == e;
      var i := s.arrivals[n];
      assert emitted[i] == e && i < k;
      assert emitted[..k][i] == e;
    }
    if e in emitted[..k] {
      var i :| 0 <= i < k && emitted[..k][i] == e;
      assert AcksOk(s.worker.acks, k);
      assert i in s.arrivals;
      var n :| 0 <= n < |s.arrivals| && s.arrivals[n] == i;
      assert events[n] == e;
    }
  }

  function Cut(events: seq<Event>, fence: Event): seq<Event>
    requires fence.body.TeardownStart?
  {
    Select(Select(events, OfOperations(fence.body.operations)), EarlierThan(fence.atMs))
  }

  lemma CutElements(events: seq<Event>, logged: seq<Event>, fence: Event, e: Event)
    requires fence.body.TeardownStart? && (e in events && e.atMs < fence.atMs <==> e in logged)
    ensures e in Cut(events, fence) <==> e in Select(logged, OfOperations(fence.body.operations))
  {
    assert e in Cut(events, fence)
      <==> e in Select(events, OfOperations(fence.body.operations)) && e.atMs < fence.atMs;
  }

  lemma CutIsOrdered(events: seq<Event>, fence: Event)
    requires fence.body.TeardownStart? && DistinctTimes(events)
    ensures StrictByTime(SortByTime(Cut(events, fence)))
  {
    SelectKeepsDistinct(events, OfOperations(fence.body.operations));
    SelectKeepsDistinct(Select(events, OfOperations(fence.body.operations)), EarlierThan(fence.atMs));
    SortIsStrict(Cut(events, fence));
  }

  /** Sorting what arrived before a complete fence restores the emission log. */
  lemma CutRestoresTheLog(cfg: Config, s: System, k: nat)
    requires Stamped(cfg, s.worker) && Delivered(cfg, s) && Drained(s.worker, s.drains)
    requires k < |s.worker.emitted| && s.worker.emitted[k].body.TeardownStart? && s.worker.emitted[k].body.traceComplete
    ensures SortByTime(Cut(EventsOf(s.traces, cfg.caseId), s.worker.emitted[k]))
      == Select(s.worker.emitted[..k], OfOperations(s.worker.emitted[k].body.operations))
  {
    var fence, events := s.worker.emitted[k], EventsOf(s.traces, cfg.caseId);
    var logged := Select(s.worker.emitted[..k], OfOperations(fence.body.operations));
    ArrivedTimesDiffer(cfg, s);
    CutIsOrdered(events, fence);
    SelectKeepsStrict(s.worker.emitted[..k], OfOperations(fence.body.operations));
    assert SameElements(SortByTime(Cut(events, fence)), logged) by {
      forall e: Event
        ensures e in SortByTime(Cut(events, fence)) <==> e in logged
      {
        NothingIsMissing(cfg, s, k, e);
        CutElements(events, s.worker.emitted[..k], fence, e);
      }
    }
    StrictIsUnique(SortByTime(Cut(events, fence)), logged);
  }

  /** The arrival of an event is one position of the server's log. */
  lemma ArrivedAt(cfg: Config, s: System, e: Event) returns (k: nat)
    requires Delivered(cfg, s) && e in EventsOf(s.traces, cfg.caseId)
    ensures k in s.arrivals && k < |s.worker.emitted| && s.worker.emitted[k] == e
  {
    var events := EventsOf(s.traces, cfg.caseId);
    var n :| 0 <= n < |events| && events[n] == e;
    k := s.arrivals[n];
  }

  /**
   Fence refinement: over every interleaving of emissions, deliveries, refusals and
   acknowledgments, a trace the probe accepts is the worker's own emission log for the
   fenced operations, up to the fence and in emission order.
   */
  lemma FenceRefinement(cfg: Config, steps: seq<Step>)
    requires Strict(cfg.clock)
    ensures var s := Run(cfg, steps);
      var fenced := FencedEvents(EventsOf(s.traces, cfg.caseId));
      fenced.Some? ==> exists k: nat :: CutAt(s, k, fenced.value)
  {
    var s := Run(cfg, steps);
    RunKeeps(cfg, steps);
    var events := EventsOf(s.traces, cfg.caseId);
    var fenced := FencedEvents(events);
    if fenced.Some? {
      var k := ArrivedAt(cfg, s, Sole(events, IsFence).value);
      CutRestoresTheLog(cfg, s, k);
      assert CutAt(s, k, fenced.value);
    }
  }

  // ---- the capture ----

  /** The six events an accepted capture rests on. */
  datatype Evidence = Evidence(start: Event, sent: Event, end: Event, warmStart: Event, warmSent: Event, warmEnd: Event)

  /** What the probe read off an accepted trace, as facts about the emission log before the fence. */
  ghost predicate ReportReadOff(logged: seq<Event>, c: Evidence) {
    && c.start in logged && c.start.body.OperationStart? && c.start.body.path == "/report"
    && c.sent in logged && c.sent.body.NativeSend? && c.sent.operationId == c.start.operationId
    && c.end in logged && c.end.body.WrapperEnd? && c.end.operationId == c.start.operationId
    && c.sent.body.target == c.start.body.requested
    && c.sent.body.epoch == c.start.body.epoch == c.end.body.epoch > 0
    && |c.end.body.attempts| == 1 && c.end.body.attempts[0].epoch == c.sent.body.epoch
    && (forall e | e in logged && e.operationId == c.start.operationId :: !e.body.AttachmentChange?)
  }

  ghost predicate WarmUpReadOff(logged: seq<Event>, c: Evidence) {
    && c.warmStart in logged && c.warmStart.body.OperationStart? && c.warmStart.body.path == "/warmup"
    && c.warmEnd in logged && c.warmEnd.body.WrapperEnd? && c.warmEnd.operationId == c.warmStart.operationId
    && c.warmSent in logged && c.warmSent.body.NativeSend? && c.warmSent.operationId == c.warmStart.operationId
    && c.sent.body.NativeSend? && !c.sent.body.historyLost
    && c.warmSent.body.target == c.sent.body.target && c.warmSent.body.epoch == c.sent.body.epoch
    && c.warmEnd.body.epoch == c.sent.body.epoch && c.warmEnd.body.invalidations == []
    && (forall h :: h in c.sent.body.attachmentHistory ==> h.atMs <= c.warmEnd.atMs)
  }

  lemma ReadsOffReport(logged: seq<Event>, own: seq<Event>, c: Evidence)
    requires own == Select(logged, OfOperation(c.start.operationId))
    requires OnlyMatch(logged, StartOf("/report"), c.start)
    requires OnlyMatch(own, IsNativeSend, c.sent) && OnlyMatch(own, IsWrapperEnd, c.end)
    requires ReportAgrees(c.start, c.sent, c.end) && Select(own, IsAttachmentChange) == []
    ensures ReportReadOff(logged, c)
  {
    hide Select;
    assert c.sent in own && c.end in own;
    NoneSelected(own, IsAttachmentChange);
    forall e | e in logged && e.operationId == c.start.operationId
      ensures !e.body.AttachmentChange?
    {
      assert e in own;
    }
  }

  lemma ReadsOffWarmUp(logged: seq<Event>, start: Event, sent: Event, end: Event) returns (c: Evidence)
    requires sent.body.NativeSend? && WarmUpAgrees(logged, sent)
    ensures c.start == start && c.sent == sent && c.end == end && WarmUpReadOff(logged, c)
  {
    hide ReportAgrees;
    var warmStart := Sole(logged, StartOf("/warmup")).value;
    var warm := Select(logged, OfOperation(warmStart.operationId));
    c := Evidence(start, sent, end, warmStart, Sole(warm, IsNativeSend).value, Sole(warm, IsWrapperAnswer).value);
  }

  lemma NoneSelected(s: seq<Event>, q: Query)
    requires Select(s, q) == []
    ensures forall e :: e in s ==> !Matches(e, q)
  {
    forall e | e in s
      ensures !Matches(e, q)
    {
      assert e !in Select(s, q);
    }
  }

  lemma ContextParts(logged: seq<Event>) returns (start: Event)
    requires ContextOf(logged).Some?
    ensures OnlyMatch(logged, StartOf("/report"), start)
    ensures var c := ContextOf(logged).value;
      && c.own == Select(logged, OfOperation(start.operationId)) && Select(c.own, IsAttachmentChange) == []
      && OnlyMatch(c.own, IsNativeSend, c.sent) && OnlyMatch(c.own, IsWrapperEnd, c.end)
      && ReportAgrees(start, c.sent, c.end) && WarmUpAgrees(logged, c.sent)
  {
    start := Sole(logged, StartOf("/report")).value;
  }

  lemma ContextReadsOff(logged: seq<Event>, evidence: CaptureEvidence) returns (c: Evidence)
    requires ContextOf(logged) == Some(evidence)
    ensures ReportReadOff(logged, c) && WarmUpReadOff(logged, c)
    ensures c.sent == evidence.sent && c.end == evidence.end
  {
    hide ContextOf, Select;
    var start := ContextParts(logged);
    c := ReadsOffWarmUp(logged, start, evidence.sent, evidence.end);
    hide ReportAgrees, WarmUpAgrees, ReportReadOff, WarmUpReadOff, OnlyMatch;
    ReadsOffReport(logged, evidence.own, c);
  }

  /** The context an event belongs to; a start event announces it. */
  lemma ContextOfEvent(cfg: Config, s: System, e: Event) returns (k: nat)
    requires Named(cfg, s.worker, s.drains) && e in s.worker.emitted && !e.body.TeardownStart?
    ensures k < |s.worker.contexts| && s.worker.contexts[k].id == e.operationId
      && s.worker.contexts[k].startedMs < e.atMs
      && (e.body.OperationStart? ==> Announces(e, s.worker.contexts[k]))
  {
    var i :| 0 <= i < |s.worker.emitted| && s.worker.emitted[i] == e;
    assert EventNamed(s.worker.contexts, s.worker.emitted[i]);
    k :| 0 <= k < |s.worker.contexts| && s.worker.contexts[k].id == e.operationId
      && s.worker.contexts[k].startedMs < e.atMs && (e.body.OperationStart? ==> Announces(e, s.worker.contexts[k]));
  }

  /** Two operations of one fence were requested on one tab. */
  lemma FencedOnOneTab(cfg: Config, s: System, operations: seq<string>, a: nat, b: nat)
    requires Named(cfg, s.worker, s.drains) && Siblings(s.worker.contexts, operations)
    requires a < |s.worker.contexts| && b < |s.worker.contexts|
    requires s.worker.contexts[a].id in operations && s.worker.contexts[b].id in operations
    ensures s.worker.contexts[a].requested.tabId == s.worker.contexts[b].requested.tabId
      && s.worker.contexts[a].requested.tabId.Some?
  {
    var contexts := s.worker.contexts;
    var tab :| OnTab(contexts, operations, tab);
    var i :| 0 <= i < |operations| && operations[i] == contexts[a].id;
    var j :| 0 <= j < |operations| && operations[j] == contexts[b].id;
    assert HasIdOn(contexts, operations[i], tab) && HasIdOn(contexts, operations[j], tab);
  }

  /**
   The warm-up context `w` and the report context `r` saw no attach or detach on their tab up to the
   fence `k`, and the epochs of all the events the capture rests on are one positive number.
   */
  ghost predicate Undisturbed(s: System, c: Evidence, w: nat, r: nat, k: nat) {
    && w < |s.worker.contexts| && r < |s.worker.contexts| && k < |s.worker.emitted|
    && s.worker.emitted[k].body.TeardownStart?
    && var warm, report, fence := s.worker.contexts[w], s.worker.contexts[r], s.worker.emitted[k];
       && Belongs(s, c, warm, report)
       && report.requested.tabId.Some? && warm.requested.tabId == report.requested.tabId
       && c.sent.body.target == report.requested
       && report.startedMs < c.sent.atMs < fence.atMs && c.end.atMs < fence.atMs
       && Quiet(s.changes, report.requested.tabId.value, warm.startedMs, fence.atMs)
       && Quiet(s.changes, report.requested.tabId.value, report.startedMs, fence.atMs)
       && 0 < report.epochAtStart && OneEpoch(c, report.epochAtStart) && warm.epochAtStart == report.epochAtStart
  }

  /** The six events were emitted for the two contexts. */
  ghost predicate Belongs(s: System, c: Evidence, warm: Context, report: Context) {
    && warm.path == "/warmup" && report.path == "/report"
    && c.start.operationId == c.sent.operationId == c.end.operationId == report.id
    && c.warmStart.operationId == c.warmSent.operationId == c.warmEnd.operationId == warm.id
    && c.start.body.OperationStart? && c.sent.body.NativeSend? && c.end.body.WrapperEnd?
    && c.warmStart.body.OperationStart? && c.warmSent.body.NativeSend? && c.warmEnd.body.WrapperEnd?
    && c.start in s.worker.emitted && c.sent in s.worker.emitted && c.end in s.worker.emitted
    && c.warmStart in s.worker.emitted && c.warmSent in s.worker.emitted && c.warmEnd in s.worker.emitted
  }

  /** The epochs that the starts, the native sends, the wrapper ends and the one attempt record. */
  ghost predicate OneEpoch(c: Evidence, epoch: nat)
    requires c.start.body.OperationStart? && c.sent.body.NativeSend? && c.end.body.WrapperEnd?
    requires c.warmStart.body.OperationStart? && c.warmSent.body.NativeSend? && c.warmEnd.body.WrapperEnd?
  {
    && c.start.body.epoch == c.sent.body.epoch == c.end.body.epoch == epoch
    && |c.end.body.attempts| == 1 && c.end.body.attempts[0].epoch == epoch
    && c.warmStart.body.epoch == c.warmSent.body.epoch == c.warmEnd.body.epoch == epoch
  }

  lemma ReportIsQuiet(cfg: Config, s: System, k: nat, report: nat)
    requires Observed(cfg, s.worker, s.changes) && Stamped(cfg, s.worker)
    requires k < |s.worker.emitted| && s.worker.emitted[k].body.TeardownStart?
    requires report < |s.worker.contexts| && s.worker.contexts[report].requested.tabId.Some?
    requires forall j | 0 <= j < |s.worker.emitted| && s.worker.emitted[j].operationId == s.worker.contexts[report].id
               && s.worker.emitted[j].body.AttachmentChange? :: k <= j
    ensures Quiet(s.changes, s.worker.contexts[report].requested.tabId.value,
                  s.worker.contexts[report].startedMs, s.worker.emitted[k].atMs)
  {
    var w, c, fence := s.worker, s.worker.contexts[report], s.worker.emitted[k];
    forall i | 0 <= i < |s.changes| && s.changes[i].tab == c.requested.tabId.value
      ensures !(c.startedMs <= s.changes[i].mark.atMs < fence.atMs)
    {
      var ch := s.changes[i];
      assert c.startedMs != ch.mark.atMs;
      if c.startedMs < ch.mark.atMs {
        assert ReportedTo(w.emitted, c.id, ch);
        var j :| 0 <= j < |w.emitted| && w.emitted[j].operationId == c.id && w.emitted[j].body.AttachmentChange?
          && ch.mark.atMs < w.emitted[j].atMs < ch.till;
        assert fence.atMs <= w.emitted[j].atMs;
      }
    }
  }

  lemma WarmUpIsQuiet(cfg: Config, s: System, warm: nat, warmEnd: Event, sent: Event)
    requires Observed(cfg, s.worker, s.changes)
    requires warm < |s.worker.contexts| && warmEnd in s.worker.emitted && sent in s.worker.emitted
    requires warmEnd.body.WrapperEnd? && warmEnd.body.invalidations == []
    requires s.worker.contexts[warm].id == warmEnd.operationId && s.worker.contexts[warm].requested.tabId.Some?
    requires sent.body.NativeSend? && !sent.body.historyLost
    requires sent.body.target.tabId == s.worker.contexts[warm].requested.tabId
    requires forall h :: h in sent.body.attachmentHistory ==> h.atMs <= warmEnd.atMs
    ensures Quiet(s.changes, sent.body.target.tabId.value, s.worker.contexts[warm].startedMs, sent.atMs)
  {
    var c := s.worker.contexts[warm];
    var tab := c.requested.tabId.value;
    var i :| 0 <= i < |s.worker.emitted| && s.worker.emitted[i] == warmEnd;
    var j :| 0 <= j < |s.worker.emitted| && s.worker.emitted[j] == sent;
    assert Truthful(s.worker.contexts, s.changes, s.worker.emitted[i]);
    assert Truthful(s.worker.contexts, s.changes, s.worker.emitted[j]);
    assert Quiet(s.changes, tab, c.startedMs, warmEnd.atMs);
    forall n | 0 <= n < |s.changes| && s.changes[n].tab == tab
      ensures !(c.startedMs <= s.changes[n].mark.atMs < sent.atMs)
    {
      var ch := s.changes[n];
      if ch.mark.atMs < sent.atMs {
        assert ch.mark in sent.body.attachmentHistory;
        assert ch.mark.atMs <= warmEnd.atMs && warmEnd.atMs != ch.mark.atMs;
      }
    }
  }

  lemma QuietJoin(changes: seq<Change>, tab: int, a: real, b: real, c: real, d: real)
    requires Quiet(changes, tab, a, b) && Quiet(changes, tab, c, d) && c <= b
    ensures Quiet(changes, tab, a, d)
  {
  }

  lemma LoggedIsEmitted(s: System, k: nat, q: Query, e: Event)
    requires k < |s.worker.emitted| && e in Select(s.worker.emitted[..k], q)
    ensures e in s.worker.emitted && e in s.worker.emitted[..k] && Matches(e, q)
  {
    var i :| 0 <= i < k && s.worker.emitted[..k][i] == e;
    assert s.worker.emitted[i] == e;
  }

  lemma WarmEpoch(s: System, warm: nat, sent: Event)
    requires forall i :: 0 <= i < |s.worker.emitted| ==> Truthful(s.worker.contexts, s.changes, s.worker.emitted[i])
    requires sent in s.worker.emitted && sent.body.NativeSend? && sent.body.target.tabId.Some?
    requires warm < |s.worker.contexts| && s.worker.contexts[warm].requested.tabId == sent.body.target.tabId
    requires s.worker.contexts[warm].startedMs < sent.atMs
    requires Quiet(s.changes, sent.body.target.tabId.value, s.worker.contexts[warm].startedMs, sent.atMs)
    ensures sent.body.epoch == s.worker.contexts[warm].epochAtStart
  {
    var j :| 0 <= j < |s.worker.emitted| && s.worker.emitted[j] == sent;
    assert Truthful(s.worker.contexts, s.changes, s.worker.emitted[j]);
  }

  /** The report's own reports of attachment changes all lie behind the fence. */
  lemma NoneBefore(s: System, k: nat, operations: seq<string>, id: string)
    requires k < |s.worker.emitted| && id in operations
    requires forall e | e in Select(s.worker.emitted[..k], OfOperations(operations)) && e.operationId == id ::
               !e.body.AttachmentChange?
    ensures forall j | 0 <= j < |s.worker.emitted| && s.worker.emitted[j].operationId == id
              && s.worker.emitted[j].body.AttachmentChange? :: k <= j
  {
    forall j | 0 <= j < k && s.worker.emitted[j].operationId == id
      ensures !s.worker.emitted[j].body.AttachmentChange?
    {
      assert s.worker.emitted[..k][j] == s.worker.emitted[j];
      assert s.worker.emitted[j] in Select(s.worker.emitted[..k], OfOperations(operations));
    }
  }

  lemma BeforeFence(cfg: Config, s: System, k: nat, e: Event)
    requires Stamped(cfg, s.worker) && k < |s.worker.emitted| && e in s.worker.emitted[..k]
    ensures e.atMs < s.worker.emitted[k].atMs
  {
  }

  /** The report context `r` of an accepted capture is quiet up to the fence. */
  lemma ReportStands(cfg: Config, s: System, k: nat, c: Evidence, r: nat)
    requires Stamped(cfg, s.worker) && Named(cfg, s.worker, s.drains) && Observed(cfg, s.worker, s.changes)
    requires k < |s.worker.emitted| && s.worker.emitted[k].body.TeardownStart?
    requires ReportReadOff(Select(s.worker.emitted[..k], OfOperations(s.worker.emitted[k].body.operations)), c)
    requires r < |s.worker.contexts| && Announces(c.start, s.worker.contexts[r])
    requires s.worker.contexts[r].requested.tabId.Some?
    ensures Quiet(s.changes, s.worker.contexts[r].requested.tabId.value,
                  s.worker.contexts[r].startedMs, s.worker.emitted[k].atMs)
    ensures s.worker.contexts[r].startedMs < c.sent.atMs < s.worker.emitted[k].atMs
    ensures c.end.atMs < s.worker.emitted[k].atMs
  {
    var operations := s.worker.emitted[k].body.operations;
    var q := OfOperations(operations);
    LoggedIsEmitted(s, k, q, c.start);
    LoggedIsEmitted(s, k, q, c.sent);
    LoggedIsEmitted(s, k, q, c.end);
    NoneBefore(s, k, operations, c.start.operationId);
    ReportIsQuiet(cfg, s, k, r);
    BeforeFence(cfg, s, k, c.sent);
    BeforeFence(cfg, s, k, c.end);
    var owner := ContextOfEvent(cfg, s, c.sent);
    assert owner == r;
  }

  /** The warm-up context `w` is quiet up to the report's native send, and began in that send's epoch. */
  lemma WarmUpStands(cfg: Config, s: System, k: nat, c: Evidence, w: nat, until: real)
    requires Named(cfg, s.worker, s.drains) && Observed(cfg, s.worker, s.changes)
    requires k < |s.worker.emitted| && s.worker.emitted[k].body.TeardownStart?
    requires WarmUpReadOff(Select(s.worker.emitted[..k], OfOperations(s.worker.emitted[k].body.operations)), c)
    requires c.sent in Select(s.worker.emitted[..k], OfOperations(s.worker.emitted[k].body.operations))
    requires w < |s.worker.contexts| && Announces(c.warmStart, s.worker.contexts[w])
    requires s.worker.contexts[w].requested.tabId.Some?
    requires c.sent.body.target.tabId == s.worker.contexts[w].requested.tabId
    ensures Quiet(s.changes, c.sent.body.target.tabId.value, s.worker.contexts[w].startedMs, c.sent.atMs)
    ensures Quiet(s.changes, c.sent.body.target.tabId.value, s.worker.contexts[w].startedMs, until)
            && c.warmSent.atMs <= until
      ==> c.sent.body.epoch == s.worker.contexts[w].epochAtStart
  {
    var q := OfOperations(s.worker.emitted[k].body.operations);
    LoggedIsEmitted(s, k, q, c.sent);
    LoggedIsEmitted(s, k, q, c.warmEnd);
    LoggedIsEmitted(s, k, q, c.warmSent);
    WarmUpIsQuiet(cfg, s, w, c.warmEnd, c.sent);
    var owner := ContextOfEvent(cfg, s, c.warmSent);
    assert owner == w;
    if Quiet(s.changes, c.sent.body.target.tabId.value, s.worker.contexts[w].startedMs, until)
       && c.warmSent.atMs <= until {
      WarmEpoch(s, w, c.warmSent);
    }
  }

  lemma EvidenceContexts(cfg: Config, s: System, k: nat, c: Evidence) returns (w: nat, r: nat)
    requires Named(cfg, s.worker, s.drains)
    requires k < |s.worker.emitted| && s.worker.emitted[k].body.TeardownStart?
    requires c.start in Select(s.worker.emitted[..k], OfOperations(s.worker.emitted[k].body.operations))
    requires c.warmStart in Select(s.worker.emitted[..k], OfOperations(s.worker.emitted[k].body.operations))
    requires c.start.body.OperationStart? && c.warmStart.body.OperationStart?
    ensures w < |s.worker.contexts| && Announces(c.warmStart, s.worker.contexts[w])
    ensures r < |s.worker.contexts| && Announces(c.start, s.worker.contexts[r])
    ensures s.worker.contexts[r].requested.tabId.Some?
    ensures s.worker.contexts[w].requested.tabId == s.worker.contexts[r].requested.tabId
  {
    var operations := s.worker.emitted[k].body.operations;
    LoggedIsEmitted(s, k, OfOperations(operations), c.start);
    LoggedIsEmitted(s, k, OfOperations(operations), c.warmStart);
    r := ContextOfEvent(cfg, s, c.start);
    w := ContextOfEvent(cfg, s, c.warmStart);
    assert EventNamed(s.worker.contexts, s.worker.emitted[k]);
    FencedOnOneTab(cfg, s, operations, r, w);
  }

  lemma EvidenceIsUndisturbed(cfg: Config, s: System, k: nat, c: Evidence) returns (w: nat, r: nat)
    requires Stamped(cfg, s.worker) && Named(cfg, s.worker, s.drains) && Observed(cfg, s.worker, s.changes)
    requires k < |s.worker.emitted| && s.worker.emitted[k].body.TeardownStart?
    requires ReportReadOff(Select(s.worker.emitted[..k], OfOperations(s.worker.emitted[k].body.operations)), c)
    requires WarmUpReadOff(Select(s.worker.emitted[..k], OfOperations(s.worker.emitted[k].body.operations)), c)
    ensures Undisturbed(s, c, w, r, k)
  {
    hide Stamped, Named, Observed, Quiet;
    w, r := EvidenceContexts(cfg, s, k, c);
    var fence := s.worker.emitted[k];
    EvidenceEmitted(s, k, OfOperations(fence.body.operations), c);
    BeforeFence(cfg, s, k, c.warmSent);
    ReportStands(cfg, s, k, c, r);
    WarmUpStands(cfg, s, k, c, w, fence.atMs);
    QuietJoin(s.changes, c.sent.body.target.tabId.value, s.worker.contexts[w].startedMs, c.sent.atMs,
              s.worker.contexts[r].startedMs, fence.atMs);
  }

  lemma EvidenceEmitted(s: System, k: nat, q: Query, c: Evidence)
    requires k < |s.worker.emitted|
    requires forall e :: e in [c.start, c.sent, c.end, c.warmStart, c.warmSent, c.warmEnd] ==>
               e in Select(s.worker.emitted[..k], q)
    ensures c.start in s.worker.emitted && c.sent in s.worker.emitted && c.end in s.worker.emitted
    ensures c.warmStart in s.worker.emitted && c.warmSent in s.worker.emitted && c.warmEnd in s.worker.emitted
    ensures c.warmSent in s.worker.emitted[..k]
  {
    LoggedIsEmitted(s, k, q, c.start);
    LoggedIsEmitted(s, k, q, c.sent);
    LoggedIsEmitted(s, k, q, c.end);
    LoggedIsEmitted(s, k, q, c.warmStart);
    LoggedIsEmitted(s, k, q, c.warmSent);
    LoggedIsEmitted(s, k, q, c.warmEnd);
  }

  /**
   Capture soundness: over every run, when the probe accepts a capture, no attach or detach,
   attempted, acknowledged or observed, happened on its tab from the creation of the warm-up
   context until after the report wrapper settled, and the epochs of both starts, both native sends,
   both wrapper ends and the one attempt are the same positive one. The 128-entry history cannot hide
   a change.
   */
  lemma {:induction false} CaptureSoundness(cfg: Config, steps: seq<Step>)
    requires Strict(cfg.clock)
    ensures var s := Run(cfg, steps);
      var c := CaptureContext(EventsOf(s.traces, cfg.caseId));
      c.Some? ==> exists e: Evidence, w: nat, r: nat, k: nat ::
        e.sent == c.value.sent && e.end == c.value.end && Undisturbed(s, e, w, r, k)
  {
    var s := Run(cfg, steps);
    RunKeeps(cfg, steps);
    FenceRefinement(cfg, steps);
    var events := EventsOf(s.traces, cfg.caseId);
    if CaptureContext(events).Some? {
      var fenced := FencedEvents(events).value;
      var k: nat :| CutAt(s, k, fenced);
      var c := ContextReadsOff(fenced, CaptureContext(events).value);
      var w, r := EvidenceIsUndisturbed(cfg, s, k, c);
    }
  }
}
