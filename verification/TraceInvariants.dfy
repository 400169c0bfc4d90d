/** What every step of the trace protocol keeps. */
module TraceInvariants {
  import opened Common
  import opened TraceObserver
  import opened TraceProtocol

  // ---- the invariant: posts, acknowledgments and fences ----

  /** One acknowledgment per post, and stamps that grow along the emission log. */
  ghost predicate Stamped(cfg: Config, w: Worker) {
    && |w.acks| == |w.emitted|
    && (forall i :: 0 <= i < |w.emitted| ==> w.emitted[i].atMs < cfg.clock(w.ticks))
    && (forall i, j :: 0 <= i < j < |w.emitted| ==> w.emitted[i].atMs < w.emitted[j].atMs)
  }

  function Picked(emitted: seq<Event>, arrivals: seq<nat>): (r: seq<Event>)
    requires forall i :: 0 <= i < |arrivals| ==> arrivals[i] < |emitted|
    ensures |r| == |arrivals|
    ensures forall i :: 0 <= i < |r| ==> r[i] == emitted[arrivals[i]]
  {
    if arrivals == [] then []
    else Picked(emitted, arrivals[..|arrivals| - 1]) + [emitted[arrivals[|arrivals| - 1]]]
  }

  /** The server holds emitted posts, each at most once; an ok answer means its post is there. */
  ghost predicate Delivered(cfg: Config, s: System) {
    && (forall i :: 0 <= i < |s.arrivals| ==> s.arrivals[i] < |s.worker.emitted|)
    && Distinct(s.arrivals)
    && EventsOf(s.traces, cfg.caseId) == Picked(s.worker.emitted, s.arrivals)
    && (forall i | 0 <= i < |s.worker.acks| && s.worker.acks[i] == Answered(true) :: i in s.arrivals)
  }

  ghost predicate AcksOk(acks: seq<Ack>, n: nat) {
    n <= |acks| && forall i :: 0 <= i < n ==> acks[i] == Answered(true)
  }

  ghost predicate DrainSound(acks: seq<Ack>, d: Drain) {
    d.done || (d.awaited <= d.drained <= |acks| && (d.complete ==> AcksOk(acks, d.awaited)))
  }

  /** A fence that says complete stands behind acknowledged posts only. */
  ghost predicate Drained(w: Worker, drains: seq<Drain>) {
    && (forall d :: 0 <= d < |drains| ==> DrainSound(w.acks, drains[d]))
    && (forall k | 0 <= k < |w.emitted| && w.emitted[k].body.TeardownStart? && w.emitted[k].body.traceComplete ::
          AcksOk(w.acks, k))
  }

  // ---- the invariant: contexts and the operations a fence names ----

  ghost predicate HasId(contexts: seq<Context>, id: string) {
    exists k :: 0 <= k < |contexts| && contexts[k].id == id
  }

  ghost predicate HasIdOn(contexts: seq<Context>, id: string, tab: int) {
    exists k :: 0 <= k < |contexts| && contexts[k].id == id && contexts[k].requested.tabId == Some(tab)
  }

  ghost predicate OnTab(contexts: seq<Context>, operations: seq<string>, tab: int) {
    forall i :: 0 <= i < |operations| ==> HasIdOn(contexts, operations[i], tab)
  }

  /** A nonempty list of distinct ids of contexts requested on a single tab. */
  ghost predicate Siblings(contexts: seq<Context>, operations: seq<string>) {
    operations != [] && Distinct(operations) && exists tab :: OnTab(contexts, operations, tab)
  }

  /** The context that a start event announces. */
  ghost predicate Announces(e: Event, c: Context)
    requires e.body.OperationStart?
  {
    && c.id == e.operationId && c.requested == e.body.requested && c.path == e.body.path
    && c.epochAtStart == e.body.epoch && c.startedMs < e.atMs
  }

  /** Contexts have ids of their own, and every event names one or is a fence. */
  ghost predicate Named(cfg: Config, w: Worker, drains: seq<Drain>) {
    && (forall i, j :: 0 <= i < j < |w.contexts| ==> w.contexts[i].id != w.contexts[j].id)
    && (forall k :: 0 <= k < |w.contexts| ==> w.contexts[k].id != "" && w.contexts[k].id != TEARDOWN)
    && (forall k :: 0 <= k < |w.contexts| ==> w.contexts[k].startedMs < cfg.clock(w.ticks))
    && (forall k :: 0 <= k < |w.contexts| ==> w.contexts[k].requested.tabId.Some?)
    && (forall i :: 0 <= i < |w.emitted| ==> EventNamed(w.contexts, w.emitted[i]))
    && (forall d :: 0 <= d < |drains| ==> Siblings(w.contexts, drains[d].operations))
  }

  ghost predicate EventNamed(contexts: seq<Context>, e: Event) {
    if e.body.TeardownStart? then e.operationId == TEARDOWN && Siblings(contexts, e.body.operations)
    else
      exists k :: 0 <= k < |contexts| && contexts[k].id == e.operationId && contexts[k].startedMs < e.atMs
        && (e.body.OperationStart? ==> Announces(e, contexts[k]))
  }

  // ---- the invariant: attachment changes and their reports ----

  ghost predicate ReportedTo(emitted: seq<Event>, id: string, ch: Change) {
    exists i :: 0 <= i < |emitted| && emitted[i].operationId == id && emitted[i].body.AttachmentChange?
      && ch.mark.atMs < emitted[i].atMs < ch.till
  }

  /** Every change after a context began on its tab put the context in doubt and was reported for it. */
  ghost predicate Reported(w: Worker, changes: seq<Change>) {
    forall k, i | 0 <= k < |w.contexts| && 0 <= i < |changes| && w.contexts[k].requested.tabId == Some(changes[i].tab)
      && w.contexts[k].startedMs < changes[i].mark.atMs ::
        w.contexts[k].invalidations != [] && ReportedTo(w.emitted, w.contexts[k].id, changes[i])
  }

  /** Nothing but its own reports is stamped inside a change. */
  ghost predicate Apart(cfg: Config, w: Worker, changes: seq<Change>) {
    && (forall i :: 0 <= i < |changes| ==> changes[i].mark.atMs < changes[i].till <= cfg.clock(w.ticks))
    && (forall i, j | 0 <= i < |changes| && 0 <= j < |w.emitted| && !w.emitted[j].body.AttachmentChange? ::
          w.emitted[j].atMs < changes[i].mark.atMs || changes[i].till <= w.emitted[j].atMs)
    && (forall i, k | 0 <= i < |changes| && 0 <= k < |w.contexts| ::
          w.contexts[k].startedMs != changes[i].mark.atMs)
  }

  /** A tab whose history never overflowed still has every one of its changes. */
  ghost predicate Kept(w: Worker, changes: seq<Change>) {
    forall i | 0 <= i < |changes| && changes[i].tab !in w.lost ::
      changes[i].mark in HistoryOf(w.history, Some(changes[i].tab))
  }

  /** No change on `tab` is stamped in `[from, until)`. */
  ghost predicate Quiet(changes: seq<Change>, tab: int, from: real, until: real) {
    forall i | 0 <= i < |changes| && changes[i].tab == tab :: !(from <= changes[i].mark.atMs < until)
  }

  /** What an event of the log says about the changes. */
  ghost predicate Truthful(contexts: seq<Context>, changes: seq<Change>, e: Event) {
    match e.body
    case NativeSend(_, target, epoch, _, marks, lost) =>
      && (!lost ==> forall i | 0 <= i < |changes| && target.tabId == Some(changes[i].tab)
                      && changes[i].mark.atMs < e.atMs :: changes[i].mark in marks)
      && (forall k | 0 <= k < |contexts| && contexts[k].requested.tabId == target.tabId
            && contexts[k].startedMs < e.atMs && target.tabId.Some?
            && Quiet(changes, target.tabId.value, contexts[k].startedMs, e.atMs) ::
              epoch == contexts[k].epochAtStart)
    case WrapperEnd(_, _, invalidations, _) =>
      invalidations == [] ==>
        forall k | 0 <= k < |contexts| && contexts[k].id == e.operationId && contexts[k].requested.tabId.Some? ::
          Quiet(changes, contexts[k].requested.tabId.value, contexts[k].startedMs, e.atMs)
    case _ => true
  }

  /** A context's tab keeps the epoch it began with until the tab's attachment changes. */
  ghost predicate Epochs(w: Worker, changes: seq<Change>, now: real) {
    forall k | 0 <= k < |w.contexts| && w.contexts[k].requested.tabId.Some?
      && Quiet(changes, w.contexts[k].requested.tabId.value, w.contexts[k].startedMs, now) ::
        EpochOf(w.epochs, w.contexts[k].requested.tabId) == w.contexts[k].epochAtStart
  }

  ghost predicate Observed(cfg: Config, w: Worker, changes: seq<Change>) {
    && Reported(w, changes)
    && Apart(cfg, w, changes)
    && Kept(w, changes)
    && Epochs(w, changes, cfg.clock(w.ticks))
    && (forall i :: 0 <= i < |w.emitted| ==> Truthful(w.contexts, changes, w.emitted[i]))
  }

  ghost predicate Invariant(cfg: Config, s: System) {
    && Stamped(cfg, s.worker)
    && Delivered(cfg, s)
    && Drained(s.worker, s.drains)
    && Named(cfg, s.worker, s.drains)
    && Observed(cfg, s.worker, s.changes)
  }

  // ---- what a worker transition does ----

  /** Contexts are only added, and a doubt about one is never withdrawn. */
  ghost predicate Grows(a: seq<Context>, b: seq<Context>) {
    |a| <= |b| && forall k | 0 <= k < |a| ::
      && b[k].id == a[k].id && b[k].requested == a[k].requested && b[k].startedMs == a[k].startedMs
      && b[k].epochAtStart == a[k].epochAtStart && b[k].path == a[k].path
      && (a[k].invalidations != [] ==> b[k].invalidations != [])
  }

  /** Posts are appended with later stamps, each with a pending acknowledgment. */
  ghost predicate Extends(cfg: Config, w: Worker, w': Worker) {
    && w.emitted <= w'.emitted && w.acks <= w'.acks && |w'.acks| == |w'.emitted| && w.ticks <= w'.ticks
    && (forall i :: |w.acks| <= i < |w'.acks| ==> w'.acks[i].Pending?)
    && (forall i :: |w.emitted| <= i < |w'.emitted| ==>
          cfg.clock(w.ticks) <= w'.emitted[i].atMs < cfg.clock(w'.ticks))
    && (forall i, j :: |w.emitted| <= i < j < |w'.emitted| ==> w'.emitted[i].atMs < w'.emitted[j].atMs)
    && Grows(w.contexts, w'.contexts)
  }

  lemma GrowsKeepsNames(a: seq<Context>, b: seq<Context>, e: Event)
    requires Grows(a, b) && EventNamed(a, e)
    ensures EventNamed(b, e)
  {
    if e.body.TeardownStart? {
      GrowsKeepsSiblings(a, b, e.body.operations);
    } else {
      var k :| 0 <= k < |a| && a[k].id == e.operationId && a[k].startedMs < e.atMs
        && (e.body.OperationStart? ==> Announces(e, a[k]));
      assert b[k].id == a[k].id;
    }
  }

  lemma GrowsKeepsSiblings(a: seq<Context>, b: seq<Context>, operations: seq<string>)
    requires Grows(a, b) && Siblings(a, operations)
    ensures Siblings(b, operations)
  {
    var tab :| OnTab(a, operations, tab);
    forall i | 0 <= i < |operations|
      ensures HasIdOn(b, operations[i], tab)
    {
      assert HasIdOn(a, operations[i], tab);
      var k :| 0 <= k < |a| && a[k].id == operations[i] && a[k].requested.tabId == Some(tab);
      assert b[k].id == a[k].id;
    }
    assert OnTab(b, operations, tab);
  }

  lemma ExtendsKeepsStamps(cfg: Config, w: Worker, w': Worker)
    requires Strict(cfg.clock) && Stamped(cfg, w) && Extends(cfg, w, w')
    ensures Stamped(cfg, w')
  {
    assert cfg.clock(w.ticks) <= cfg.clock(w'.ticks);
  }

  lemma ExtendsKeepsDelivered(cfg: Config, s: System, s': System)
    requires Delivered(cfg, s) && Extends(cfg, s.worker, s'.worker)
    requires s'.arrivals == s.arrivals && s'.traces == s.traces
    ensures Delivered(cfg, s')
  {
    assert Picked(s'.worker.emitted, s.arrivals) == Picked(s.worker.emitted, s.arrivals);
  }

  lemma ExtendsKeepsAcks(cfg: Config, w: Worker, w': Worker, n: nat)
    requires Extends(cfg, w, w') && AcksOk(w.acks, n)
    ensures AcksOk(w'.acks, n)
  {
    forall i | 0 <= i < n
      ensures w'.acks[i] == Answered(true)
    {
      assert w.acks[i] == w'.acks[i];
    }
  }
}
