/** When the probe accepts a trace, and what the capped history still holds, over every run. */
module TraceAcceptance {
  import opened Common
  import opened TraceObserver
  import opened TraceChecker
  import opened TraceProtocol
  import opened TraceInvariants
  import opened TraceSteps
  import opened TraceTheorems

  // ---- every fenced operation was announced before its fence ----

  ghost predicate StartedBefore(emitted: seq<Event>, op: string, n: nat) {
    exists i :: 0 <= i < n && i < |emitted| && emitted[i].body.OperationStart? && emitted[i].operationId == op
  }

  ghost predicate AllStarted(emitted: seq<Event>, operations: seq<string>, n: nat) {
    forall i :: 0 <= i < |operations| ==> StartedBefore(emitted, operations[i], n)
  }

  ghost predicate Announced(w: Worker, drains: seq<Drain>) {
    && (forall k :: 0 <= k < |w.contexts| ==> StartedBefore(w.emitted, w.contexts[k].id, |w.emitted|))
    && (forall d :: 0 <= d < |drains| ==> AllStarted(w.emitted, drains[d].operations, |w.emitted|))
    && (forall k | 0 <= k < |w.emitted| && w.emitted[k].body.TeardownStart? ::
          AllStarted(w.emitted, w.emitted[k].body.operations, k))
  }

  lemma StartedStays(emitted: seq<Event>, longer: seq<Event>, op: string, n: nat, m: nat)
    requires emitted <= longer && n <= m && StartedBefore(emitted, op, n)
    ensures StartedBefore(longer, op, m)
  {
    var i :| 0 <= i < n && i < |emitted| && emitted[i].body.OperationStart? && emitted[i].operationId == op;
    assert longer[i] == emitted[i];
  }

  lemma AllStartedStays(emitted: seq<Event>, longer: seq<Event>, operations: seq<string>, n: nat, m: nat)
    requires emitted <= longer && n <= m && AllStarted(emitted, operations, n)
    ensures AllStarted(longer, operations, m)
  {
    forall i | 0 <= i < |operations|
      ensures StartedBefore(longer, operations[i], m)
    {
      StartedStays(emitted, longer, operations[i], n, m);
    }
  }

  /** Growth keeps announcements when new contexts and new fences bring their own. */
  lemma AnnouncedGrows(w: Worker, w': Worker, drains: seq<Drain>, drains': seq<Drain>)
    requires Announced(w, drains) && w.emitted <= w'.emitted && |w.contexts| <= |w'.contexts|
    requires forall k :: 0 <= k < |w.contexts| ==> w'.contexts[k].id == w.contexts[k].id
    requires forall k :: |w.contexts| <= k < |w'.contexts| ==>
               StartedBefore(w'.emitted, w'.contexts[k].id, |w'.emitted|)
    requires forall k | |w.emitted| <= k < |w'.emitted| && w'.emitted[k].body.TeardownStart? ::
               AllStarted(w'.emitted, w'.emitted[k].body.operations, k)
    requires forall d :: 0 <= d < |drains'| ==> AllStarted(w'.emitted, drains'[d].operations, |w'.emitted|)
    ensures Announced(w', drains')
  {
    forall k | 0 <= k < |w'.contexts|
      ensures StartedBefore(w'.emitted, w'.contexts[k].id, |w'.emitted|)
    {
      if k < |w.contexts| {
        StartedStays(w.emitted, w'.emitted, w.contexts[k].id, |w.emitted|, |w'.emitted|);
      }
    }
    forall k | 0 <= k < |w'.emitted| && w'.emitted[k].body.TeardownStart?
      ensures AllStarted(w'.emitted, w'.emitted[k].body.operations, k)
    {
      if k < |w.emitted| {
        assert w'.emitted[k] == w.emitted[k];
        AllStartedStays(w.emitted, w'.emitted, w.emitted[k].body.operations, k, k);
      }
    }
  }

  lemma DrainsStayStarted(w: Worker, w': Worker, drains: seq<Drain>)
    requires Announced(w, drains) && w.emitted <= w'.emitted
    ensures forall d :: 0 <= d < |drains| ==> AllStarted(w'.emitted, drains[d].operations, |w'.emitted|)
  {
    forall d | 0 <= d < |drains|
      ensures AllStarted(w'.emitted, drains[d].operations, |w'.emitted|)
    {
      AllStartedStays(w.emitted, w'.emitted, drains[d].operations, |w.emitted|, |w'.emitted|);
    }
  }

  lemma AttachmentAnnounces(cfg: Config, s: System, step: Step)
    requires Strict(cfg.clock) && Stamped(cfg, s.worker) && Announced(s.worker, s.drains) && step.Attachment?
    ensures Announced(Perform(cfg, s, step).worker, s.drains)
  {
    if step.target.tabId.Some? {
      var w' := Perform(cfg, s, step).worker;
      ChangeExtends(cfg, s.worker, step.target, step.reason, step.advance);
      DrainsStayStarted(s.worker, w', s.drains);
      AnnouncedGrows(s.worker, w', s.drains, s.drains);
    }
  }

  lemma SiblingsAreAnnounced(w: Worker, drains: seq<Drain>, operations: seq<string>)
    requires Announced(w, drains) && forall id :: id in operations ==> HasId(w.contexts, id)
    ensures AllStarted(w.emitted, operations, |w.emitted|)
  {
    forall i | 0 <= i < |operations|
      ensures StartedBefore(w.emitted, operations[i], |w.emitted|)
    {
      assert operations[i] in operations;
      var k :| 0 <= k < |w.contexts| && w.contexts[k].id == operations[i];
    }
  }

  lemma TurnAnnounces(cfg: Config, w: Worker, drains: seq<Drain>, drains': seq<Drain>, d: Drain, expired: bool,
                      w': Worker)
    requires Announced(w, drains) && AllStarted(w.emitted, d.operations, |w.emitted|)
    requires w' == DrainTurn(cfg.clock, w, d, expired).0
    requires forall i :: 0 <= i < |drains'| ==>
               drains'[i].operations == d.operations || exists j :: 0 <= j < |drains| && drains'[i] == drains[j]
    ensures Announced(w', drains')
  {
    forall i | 0 <= i < |drains'|
      ensures AllStarted(w'.emitted, drains'[i].operations, |w'.emitted|)
    {
      AllStartedStays(w.emitted, w'.emitted, drains'[i].operations, |w.emitted|, |w'.emitted|);
    }
    AllStartedStays(w.emitted, w'.emitted, d.operations, |w.emitted|, |w.emitted|);
    AnnouncedGrows(w, w', drains, drains');
  }

  lemma NextAnnounces(cfg: Config, s: System, step: Step)
    requires Strict(cfg.clock) && Stamped(cfg, s.worker) && Named(cfg, s.worker, s.drains)
    requires Announced(s.worker, s.drains) && Enabled(cfg, s, step)
    ensures Announced(Perform(cfg, s, step).worker, Perform(cfg, s, step).drains)
  {
    var s' := Perform(cfg, s, step);
    if step.Attachment? {
      AttachmentAnnounces(cfg, s, step);
    } else if step.Teardown? {
      var d := NewDrain(OperationsOn(s.worker.contexts, step.tab));
      OperationsOnAreSiblings(s.worker.contexts, step.tab);
      SiblingsAreAnnounced(s.worker, s.drains, d.operations);
      TurnAnnounces(cfg, s.worker, s.drains, s'.drains, d, step.expired, s'.worker);
    } else if step.Resume? {
      var d := Awaited(s.worker, s.drains[step.d]);
      TurnAnnounces(cfg, s.worker, s.drains, s'.drains, d, step.expired, s'.worker);
    } else {
      PlainStepAnnounces(cfg, s, step);
    }
  }

  lemma PlainStepAnnounces(cfg: Config, s: System, step: Step)
    requires Announced(s.worker, s.drains) && Enabled(cfg, s, step)
    requires !step.Attachment? && !step.Teardown? && !step.Resume?
    ensures Announced(Perform(cfg, s, step).worker, s.drains)
  {
    var w, w' := s.worker, Perform(cfg, s, step).worker;
    if step.Capture? {
      assert w'.emitted[|w.emitted|].body.OperationStart?;
      assert StartedBefore(w'.emitted, step.id, |w'.emitted|);
    }
    DrainsStayStarted(w, w', s.drains);
    AnnouncedGrows(w, w', s.drains, s.drains);
  }

  lemma {:induction false} RunAnnounces(cfg: Config, steps: seq<Step>)
    requires Strict(cfg.clock)
    ensures Announced(Run(cfg, steps).worker, Run(cfg, steps).drains)
  {
    if steps != [] {
      var prefix := steps[..|steps| - 1];
      RunAnnounces(cfg, prefix);
      RunKeeps(cfg, prefix);
      if Enabled(cfg, Run(cfg, prefix), steps[|steps| - 1]) {
        NextAnnounces(cfg, Run(cfg, prefix), steps[|steps| - 1]);
      }
    }
  }

  // ---- acceptance ----

  /** One delivered fence, complete, that names every operation whose start was delivered. */
  ghost predicate Acceptable(s: System, k: nat) {
    && k < |s.worker.emitted| && k in s.arrivals
    && s.worker.emitted[k].body.TeardownStart? && s.worker.emitted[k].body.traceComplete
    && (forall i | i in s.arrivals && i < |s.worker.emitted| && s.worker.emitted[i].body.TeardownStart? :: i == k)
    && (forall i | i in s.arrivals && i < |s.worker.emitted| && s.worker.emitted[i].body.OperationStart? ::
          s.worker.emitted[i].operationId in s.worker.emitted[k].body.operations)
  }

  lemma ArrivedIsThere(cfg: Config, s: System, i: nat)
    requires Delivered(cfg, s) && i in s.arrivals
    ensures i < |s.worker.emitted| && s.worker.emitted[i] in EventsOf(s.traces, cfg.caseId)
  {
    var n :| 0 <= n < |s.arrivals| && s.arrivals[n] == i;
    assert EventsOf(s.traces, cfg.caseId)[n] == s.worker.emitted[i];
  }

  lemma SameTimeSameIndex(cfg: Config, s: System, i: nat, j: nat)
    requires Stamped(cfg, s.worker) && i < |s.worker.emitted| && j < |s.worker.emitted|
    requires s.worker.emitted[i] == s.worker.emitted[j]
    ensures i == j
  {
  }

  lemma AcceptedIsAcceptable(cfg: Config, s: System) returns (k: nat)
    requires Stamped(cfg, s.worker) && Delivered(cfg, s)
    requires FencedEvents(EventsOf(s.traces, cfg.caseId)).Some?
    ensures Acceptable(s, k)
  {
    var events := EventsOf(s.traces, cfg.caseId);
    var fence := Sole(events, IsFence).value;
    k := ArrivedAt(cfg, s, fence);
    forall i | i in s.arrivals && i < |s.worker.emitted| && s.worker.emitted[i].body.TeardownStart?
      ensures i == k
    {
      ArrivedIsThere(cfg, s, i);
      SameTimeSameIndex(cfg, s, i, k);
    }
    forall i | i in s.arrivals && i < |s.worker.emitted| && s.worker.emitted[i].body.OperationStart?
      ensures s.worker.emitted[i].operationId in fence.body.operations
    {
      ArrivedIsThere(cfg, s, i);
      assert s.worker.emitted[i] in Select(events, IsStart);
      assert s.worker.emitted[i].operationId in OperationIds(Select(events, IsStart));
    }
  }

  lemma DistinctElements(s: seq<string>)
    requires Distinct(s)
    ensures |Elements(s)| == |s|
  {
    DistinctCount(s);
    assert Elements(s) == set i | 0 <= i < |s| :: s[i];
  }

  /** The starts the server holds are those of the fence's operations. */
  lemma AnnouncedIds(cfg: Config, s: System, k: nat)
    requires Delivered(cfg, s) && Drained(s.worker, s.drains) && Announced(s.worker, s.drains) && Acceptable(s, k)
    ensures OperationIds(Select(EventsOf(s.traces, cfg.caseId), IsStart))
         == Elements(s.worker.emitted[k].body.operations)
  {
    var events, operations := EventsOf(s.traces, cfg.caseId), s.worker.emitted[k].body.operations;
    var starts := Select(events, IsStart);
    forall op | op in OperationIds(starts)
      ensures op in operations
    {
      var e :| e in starts && e.operationId == op;
      var i := ArrivedAt(cfg, s, e);
    }
    forall op | op in operations
      ensures op in OperationIds(starts)
    {
      var n :| 0 <= n < |operations| && operations[n] == op;
      assert StartedBefore(s.worker.emitted, operations[n], k);
      var i :| 0 <= i < k && s.worker.emitted[i].body.OperationStart? && s.worker.emitted[i].operationId == op;
      assert AcksOk(s.worker.acks, k);
      ArrivedIsThere(cfg, s, i);
      assert s.worker.emitted[i] in starts;
    }
  }

  lemma AcceptableIsAccepted(cfg: Config, s: System, k: nat)
    requires Stamped(cfg, s.worker) && Delivered(cfg, s) && Drained(s.worker, s.drains)
    requires Named(cfg, s.worker, s.drains) && Announced(s.worker, s.drains) && Acceptable(s, k)
    ensures FencedEvents(EventsOf(s.traces, cfg.caseId)).Some?
  {
    var events, fence := EventsOf(s.traces, cfg.caseId), s.worker.emitted[k];
    ArrivedIsThere(cfg, s, k);
    ArrivedTimesDiffer(cfg, s);
    forall x | x in events && Matches(x, IsFence)
      ensures x == fence
    {
      var i := ArrivedAt(cfg, s, x);
    }
    OnlyMatchIsSelected(events, IsFence, fence);
    assert EventNamed(s.worker.contexts, fence);
    OperationsAreIds(cfg, s, fence.body.operations);
    DistinctElements(fence.body.operations);
    AnnouncedIds(cfg, s, k);
  }

  lemma OperationsAreIds(cfg: Config, s: System, operations: seq<string>)
    requires Named(cfg, s.worker, s.drains) && Siblings(s.worker.contexts, operations)
    ensures "" !in operations
  {
    var tab :| OnTab(s.worker.contexts, operations, tab);
    forall i | 0 <= i < |operations|
      ensures operations[i] != ""
    {
      assert HasIdOn(s.worker.contexts, operations[i], tab);
    }
  }

  /** Acceptance, exactly: over every run the probe accepts a trace iff one delivered, complete fence covers it. */
  lemma FenceAcceptance(cfg: Config, steps: seq<Step>)
    requires Strict(cfg.clock)
    ensures var s := Run(cfg, steps);
      FencedEvents(EventsOf(s.traces, cfg.caseId)).Some? <==> exists k: nat :: Acceptable(s, k)
  {
    var s := Run(cfg, steps);
    RunKeeps(cfg, steps);
    RunAnnounces(cfg, steps);
    if FencedEvents(EventsOf(s.traces, cfg.caseId)).Some? {
      var k := AcceptedIsAcceptable(cfg, s);
    } else if k: nat :| Acceptable(s, k) {
      AcceptableIsAccepted(cfg, s, k);
    }
  }

  // ---- the capped history ----

  /** All changes of a tab, in order, uncapped. */
  function MarksOf(changes: seq<Change>, tab: int): seq<Mark> {
    if changes == [] then []
    else
      var rest := MarksOf(changes[..|changes| - 1], tab);
      var ch := changes[|changes| - 1];
      if ch.tab == tab then rest + [ch.mark] else rest
  }

  function Newest(marks: seq<Mark>): seq<Mark> {
    if |marks| <= HISTORY_LIMIT then marks else marks[|marks| - HISTORY_LIMIT..]
  }

  ghost predicate HistoryExact(w: Worker, changes: seq<Change>, tab: int) {
    && HistoryOf(w.history, Some(tab)) == Newest(MarksOf(changes, tab))
    && (tab in w.lost <==> |MarksOf(changes, tab)| > HISTORY_LIMIT)
  }

  lemma {:induction false} NotifyKeepsHistory(clock: Clock, w: Worker, k: nat, tab: int, target: Target, reason: string)
    requires k <= |w.contexts|
    ensures Notify(clock, w, k, tab, target, reason).history == w.history
    ensures Notify(clock, w, k, tab, target, reason).lost == w.lost
    decreases |w.contexts| - k
  {
    if k < |w.contexts| {
      NotifyKeepsHistory(clock, NotifyOne(clock, w, k, tab, target, reason), k + 1, tab, target, reason);
    }
  }

  lemma HistoryUntouched(cfg: Config, s: System, step: Step)
    requires Enabled(cfg, s, step) && !(step.Attachment? && step.target.tabId.Some?)
    ensures var s' := Perform(cfg, s, step);
      s'.worker.history == s.worker.history && s'.worker.lost == s.worker.lost && s'.changes == s.changes
  {
  }

  lemma MarksMore(changes: seq<Change>, ch: Change, tab: int)
    ensures MarksOf(changes + [ch], tab) == MarksOf(changes, tab) + (if ch.tab == tab then [ch.mark] else [])
  {
    assert (changes + [ch])[..|changes|] == changes;
  }

  /** Pushing one more change onto the newest ones leaves the newest ones. */
  lemma NewestMore(marks: seq<Mark>, m: Mark)
    ensures PushMark(Newest(marks), m) == Newest(marks + [m])
    ensures |Newest(marks)| + 1 > HISTORY_LIMIT <==> |marks + [m]| > HISTORY_LIMIT
  {
  }

  /** What one change does to the history of any tab. */
  lemma ChangeKeepsHistory(clock: Clock, w: Worker, changes: seq<Change>, ch: Change, reason: string, advance: bool,
                           tab: int)
    requires HistoryExact(w, changes, tab)
    requires HistoryOf(RecordChange(clock, w, ch.tab, reason, advance).history, Some(ch.tab))
          == PushMark(HistoryOf(w.history, Some(ch.tab)), ch.mark)
    ensures HistoryExact(RecordChange(clock, w, ch.tab, reason, advance), changes + [ch], tab)
  {
    hide MarksOf, Newest, PushMark;
    MarksMore(changes, ch, tab);
    NewestMore(MarksOf(changes, tab), ch.mark);
    assert ch.tab != tab ==> MarksOf(changes, tab) + [] == MarksOf(changes, tab);
  }

  lemma AttachmentKeepsHistory(cfg: Config, s: System, step: Step, tab: int)
    requires HistoryExact(s.worker, s.changes, tab) && step.Attachment? && step.target.tabId.Some?
    ensures HistoryExact(Perform(cfg, s, step).worker, Perform(cfg, s, step).changes, tab)
  {
    hide HistoryExact, Notify, RecordChange, PushMark, HistoryOf;
    var changed := step.target.tabId.value;
    var r := RecordChange(cfg.clock, s.worker, changed, step.reason, step.advance);
    NotifyKeepsHistory(cfg.clock, r, 0, changed, step.target, step.reason);
    var s' := Perform(cfg, s, step);
    var ch := s'.changes[|s.changes|];
    assert s'.changes == s.changes + [ch] && ch.tab == changed;
    PushedMark(cfg.clock, s.worker, changed, step.reason, step.advance);
    ChangeKeepsHistory(cfg.clock, s.worker, s.changes, ch, step.reason, step.advance, tab);
    SameHistory(r, s'.worker, s'.changes, tab);
  }

  lemma PushedMark(clock: Clock, w: Worker, tab: int, reason: string, advance: bool)
    ensures HistoryOf(RecordChange(clock, w, tab, reason, advance).history, Some(tab))
         == PushMark(HistoryOf(w.history, Some(tab)),
                     Mark(clock(w.ticks), reason, EpochOf(w.epochs, Some(tab)) + (if advance then 1 else 0)))
  {
    hide PushMark;
  }

  lemma SameHistory(w: Worker, w': Worker, changes: seq<Change>, tab: int)
    requires HistoryExact(w, changes, tab) && w'.history == w.history && w'.lost == w.lost
    ensures HistoryExact(w', changes, tab)
  {
  }

  lemma NextKeepsHistory(cfg: Config, s: System, step: Step, tab: int)
    requires HistoryExact(s.worker, s.changes, tab) && Enabled(cfg, s, step)
    ensures HistoryExact(Perform(cfg, s, step).worker, Perform(cfg, s, step).changes, tab)
  {
    hide Perform, Enabled, HistoryExact;
    if step.Attachment? && step.target.tabId.Some? {
      AttachmentKeepsHistory(cfg, s, step, tab);
    } else {
      HistoryUntouched(cfg, s, step);
      SameHistory(s.worker, Perform(cfg, s, step).worker, s.changes, tab);
    }
  }

  /** The history a tab keeps is the newest 128 of all its changes, and it is flagged lost iff there were more. */
  lemma {:induction false} CappedHistory(cfg: Config, steps: seq<Step>, tab: int)
    ensures var s := Run(cfg, steps);
      && HistoryOf(s.worker.history, Some(tab)) == Newest(MarksOf(s.changes, tab))
      && (tab in s.worker.lost <==> |MarksOf(s.changes, tab)| > HISTORY_LIMIT)
  {
    if steps != [] {
      CappedHistory(cfg, steps[..|steps| - 1], tab);
      if Enabled(cfg, Run(cfg, steps[..|steps| - 1]), steps[|steps| - 1]) {
        NextKeepsHistory(cfg, Run(cfg, steps[..|steps| - 1]), steps[|steps| - 1], tab);
      }
    }
  }
}
