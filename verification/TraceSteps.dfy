/** Every step of the trace protocol keeps the invariant; hence every run satisfies it. */
module TraceSteps {
  import opened Common
  import opened TraceObserver
  import opened TraceProtocol
  import opened TraceInvariants

  // ---- shapes of the worker's transitions ----

  /** A transition that edits contexts and then posts one event extends the log. */
  lemma EmitExtends(cfg: Config, w: Worker, edited: Worker, op: string, body: Body)
    requires Strict(cfg.clock) && Stamped(cfg, w)
    requires edited.emitted == w.emitted && edited.acks == w.acks && w.ticks <= edited.ticks
    requires Grows(w.contexts, edited.contexts)
    ensures Extends(cfg, w, Emit(cfg.clock, edited, op, body))
  {
    assert cfg.clock(w.ticks) <= cfg.clock(edited.ticks) < cfg.clock(edited.ticks + 1);
  }

  ghost predicate NotifyEffect(cfg: Config, w: Worker, w': Worker, k: nat, tab: int)
    requires k <= |w.contexts|
  {
    && Extends(cfg, w, w')
    && |w'.contexts| == |w.contexts|
    && w'.epochs == w.epochs && w'.history == w.history && w'.lost == w.lost
    && (forall i :: |w.emitted| <= i < |w'.emitted| ==>
          w'.emitted[i].body.AttachmentChange? && HasId(w.contexts, w'.emitted[i].operationId))
    && (forall j | k <= j < |w.contexts| && Concerns(w.contexts[j], tab) ::
          w'.contexts[j].invalidations != [] && NewEventOf(w, w', w.contexts[j].id))
  }

  ghost predicate NewEventOf(w: Worker, w': Worker, id: string) {
    exists i :: |w.emitted| <= i < |w'.emitted| && w'.emitted[i].operationId == id
  }

  lemma {:induction false} NotifyMeets(cfg: Config, w: Worker, k: nat, tab: int, target: Target, reason: string)
    requires Strict(cfg.clock) && Stamped(cfg, w) && k <= |w.contexts|
    ensures NotifyEffect(cfg, w, Notify(cfg.clock, w, k, tab, target, reason), k, tab)
    decreases |w.contexts| - k
  {
    if k < |w.contexts| {
      var mid := NotifyOne(cfg.clock, w, k, tab, target, reason);
      NotifyOneExtends(cfg, w, k, tab, target, reason);
      ExtendsKeepsStamps(cfg, w, mid);
      NotifyMeets(cfg, mid, k + 1, tab, target, reason);
      NotifyEffectCompose(cfg, w, mid, Notify(cfg.clock, w, k, tab, target, reason), k, tab);
    }
  }

  lemma NotifyOneExtends(cfg: Config, w: Worker, k: nat, tab: int, target: Target, reason: string)
    requires Strict(cfg.clock) && Stamped(cfg, w) && k < |w.contexts|
    ensures Extends(cfg, w, NotifyOne(cfg.clock, w, k, tab, target, reason))
  {
    if Concerns(w.contexts[k], tab) {
      EmitExtends(cfg, w, InvalidateAt(w, k, reason), w.contexts[k].id,
                  AttachmentChange(target, reason, EpochOf(w.epochs, Some(tab))));
    }
  }

  ghost predicate OneNotified(w: Worker, mid: Worker, k: nat, tab: int)
    requires k < |w.contexts|
  {
    && |mid.contexts| == |w.contexts|
    && (forall j | 0 <= j < |w.contexts| && j != k :: mid.contexts[j] == w.contexts[j])
    && mid.epochs == w.epochs && mid.history == w.history && mid.lost == w.lost
    && (if Concerns(w.contexts[k], tab) then
          mid.contexts[k].invalidations != [] && |mid.emitted| == |w.emitted| + 1
          && mid.emitted[|w.emitted|].operationId == w.contexts[k].id && mid.emitted[|w.emitted|].body.AttachmentChange?
        else mid == w)
  }

  lemma NotifyEffectCompose(cfg: Config, w: Worker, mid: Worker, w': Worker, k: nat, tab: int)
    requires Strict(cfg.clock) && k < |w.contexts| && Extends(cfg, w, mid) && OneNotified(w, mid, k, tab)
    requires NotifyEffect(cfg, mid, w', k + 1, tab)
    ensures NotifyEffect(cfg, w, w', k, tab)
  {
    assert cfg.clock(w.ticks) <= cfg.clock(mid.ticks) <= cfg.clock(w'.ticks);
    assert forall i :: 0 <= i < |mid.emitted| ==> w'.emitted[i] == mid.emitted[i];
    assert forall i :: 0 <= i < |mid.acks| ==> w'.acks[i] == mid.acks[i];
    forall i | |w.emitted| <= i < |w'.emitted|
      ensures w'.emitted[i].body.AttachmentChange? && HasId(w.contexts, w'.emitted[i].operationId)
    {
      if i >= |mid.emitted| {
        var j :| 0 <= j < |mid.contexts| && mid.contexts[j].id == w'.emitted[i].operationId;
        assert w.contexts[j].id == mid.contexts[j].id;
      }
    }
    forall j | k <= j < |w.contexts| && Concerns(w.contexts[j], tab)
      ensures w'.contexts[j].invalidations != [] && NewEventOf(w, w', w.contexts[j].id)
    {
      if j == k {
        assert w'.emitted[|w.emitted|].operationId == w.contexts[k].id;
      } else {
        assert mid.contexts[j] == w.contexts[j];
        assert NewEventOf(mid, w', mid.contexts[j].id);
      }
    }
  }

  // ---- transitions that leave the attachment state alone ----

  /** Posts `body` after editing contexts; epochs, histories and the change log stay as they are. */
  ghost predicate Calm(cfg: Config, w: Worker, w': Worker) {
    && Extends(cfg, w, w')
    && w'.epochs == w.epochs && w'.history == w.history && w'.lost == w.lost
    && (forall i :: |w.emitted| <= i < |w'.emitted| ==> !w'.emitted[i].body.AttachmentChange?)
    && (forall k | |w.contexts| <= k < |w'.contexts| ::
          && cfg.clock(w.ticks) <= w'.contexts[k].startedMs < cfg.clock(w'.ticks)
          && w'.contexts[k].requested.tabId.Some?
          && w'.contexts[k].epochAtStart == EpochOf(w.epochs, w'.contexts[k].requested.tabId))
  }

  lemma QuietUntil(changes: seq<Change>, tab: int, from: real, until: real, sooner: real)
    requires Quiet(changes, tab, from, until) && sooner <= until
    ensures Quiet(changes, tab, from, sooner)
  {
  }

  lemma CalmKeepsReported(cfg: Config, w: Worker, w': Worker, changes: seq<Change>)
    requires Calm(cfg, w, w') && Reported(w, changes) && Apart(cfg, w, changes)
    ensures Reported(w', changes)
  {
    forall k, i | 0 <= k < |w'.contexts| && 0 <= i < |changes|
      && w'.contexts[k].requested.tabId == Some(changes[i].tab)
      && w'.contexts[k].startedMs < changes[i].mark.atMs
      ensures w'.contexts[k].invalidations != [] && ReportedTo(w'.emitted, w'.contexts[k].id, changes[i])
    {
      assert changes[i].mark.atMs < cfg.clock(w.ticks);
      ReportedPrefix(w.emitted, w'.emitted, w.contexts[k].id, changes[i]);
    }
  }

  lemma ReportedPrefix(emitted: seq<Event>, longer: seq<Event>, id: string, ch: Change)
    requires emitted <= longer && ReportedTo(emitted, id, ch)
    ensures ReportedTo(longer, id, ch)
  {
    var i :| 0 <= i < |emitted| && emitted[i].operationId == id && emitted[i].body.AttachmentChange?
      && ch.mark.atMs < emitted[i].atMs < ch.till;
    assert longer[i] == emitted[i];
  }

  lemma CalmKeepsApart(cfg: Config, w: Worker, w': Worker, changes: seq<Change>)
    requires Strict(cfg.clock) && Calm(cfg, w, w') && Apart(cfg, w, changes)
    ensures Apart(cfg, w', changes)
  {
    assert cfg.clock(w.ticks) <= cfg.clock(w'.ticks);
    forall i, j | 0 <= i < |changes| && 0 <= j < |w'.emitted| && !w'.emitted[j].body.AttachmentChange?
      ensures w'.emitted[j].atMs < changes[i].mark.atMs || changes[i].till <= w'.emitted[j].atMs
    {
      if j < |w.emitted| {
        assert w.emitted[j] == w'.emitted[j];
      }
    }
  }

  lemma CalmKeepsEpochs(cfg: Config, w: Worker, w': Worker, changes: seq<Change>)
    requires Strict(cfg.clock) && Calm(cfg, w, w') && Epochs(w, changes, cfg.clock(w.ticks))
    ensures Epochs(w', changes, cfg.clock(w'.ticks))
  {
    assert cfg.clock(w.ticks) <= cfg.clock(w'.ticks);
    forall k | 0 <= k < |w'.contexts| && w'.contexts[k].requested.tabId.Some?
      && Quiet(changes, w'.contexts[k].requested.tabId.value, w'.contexts[k].startedMs, cfg.clock(w'.ticks))
      ensures EpochOf(w'.epochs, w'.contexts[k].requested.tabId) == w'.contexts[k].epochAtStart
    {
      if k < |w.contexts| {
        QuietUntil(changes, w.contexts[k].requested.tabId.value, w.contexts[k].startedMs, cfg.clock(w'.ticks),
                   cfg.clock(w.ticks));
      }
    }
  }

  /** An old event says nothing about a context that began after it. */
  lemma CalmKeepsTruth(cfg: Config, w: Worker, w': Worker, changes: seq<Change>, e: Event)
    requires Calm(cfg, w, w') && Truthful(w.contexts, changes, e) && e.atMs < cfg.clock(w.ticks)
    ensures Truthful(w'.contexts, changes, e)
  {
    if e.body.WrapperEnd? && e.body.invalidations == [] {
      forall k | 0 <= k < |w'.contexts| && w'.contexts[k].id == e.operationId && w'.contexts[k].requested.tabId.Some?
        ensures Quiet(changes, w'.contexts[k].requested.tabId.value, w'.contexts[k].startedMs, e.atMs)
      {
        if k < |w.contexts| {
          assert w'.contexts[k].id == w.contexts[k].id;
        }
      }
    }
    if e.body.NativeSend? {
      forall k | 0 <= k < |w'.contexts| && w'.contexts[k].requested.tabId == e.body.target.tabId
        && w'.contexts[k].startedMs < e.atMs && e.body.target.tabId.Some?
        && Quiet(changes, e.body.target.tabId.value, w'.contexts[k].startedMs, e.atMs)
        ensures e.body.epoch == w'.contexts[k].epochAtStart
      {
        assert k < |w.contexts|;
        assert w'.contexts[k].startedMs == w.contexts[k].startedMs;
      }
    }
  }

  lemma CalmKeepsObserved(cfg: Config, w: Worker, w': Worker, changes: seq<Change>)
    requires Strict(cfg.clock) && Stamped(cfg, w) && Calm(cfg, w, w') && Observed(cfg, w, changes)
    requires forall i :: |w.emitted| <= i < |w'.emitted| ==> Truthful(w'.contexts, changes, w'.emitted[i])
    ensures Observed(cfg, w', changes)
  {
    CalmKeepsReported(cfg, w, w', changes);
    CalmKeepsApart(cfg, w, w', changes);
    CalmKeepsEpochs(cfg, w, w', changes);
    forall i | 0 <= i < |w'.emitted|
      ensures Truthful(w'.contexts, changes, w'.emitted[i])
    {
      if i < |w.emitted| {
        assert w'.emitted[i] == w.emitted[i];
        CalmKeepsTruth(cfg, w, w', changes, w.emitted[i]);
      }
    }
  }

  // ---- names, acknowledgments and fences across any extension ----

  lemma ExtendsKeepsNamed(cfg: Config, w: Worker, w': Worker, drains: seq<Drain>)
    requires Strict(cfg.clock) && Named(cfg, w, drains) && Extends(cfg, w, w') && |w'.contexts| == |w.contexts|
    requires forall i :: |w.emitted| <= i < |w'.emitted| ==> EventNamed(w'.contexts, w'.emitted[i])
    ensures Named(cfg, w', drains)
  {
    assert cfg.clock(w.ticks) <= cfg.clock(w'.ticks);
    forall k | 0 <= k < |w'.contexts|
      ensures w'.contexts[k].id == w.contexts[k].id && w'.contexts[k].requested == w.contexts[k].requested
           && w'.contexts[k].startedMs == w.contexts[k].startedMs
    {
    }
    forall i | 0 <= i < |w'.emitted|
      ensures EventNamed(w'.contexts, w'.emitted[i])
    {
      if i < |w.emitted| {
        assert w'.emitted[i] == w.emitted[i];
        GrowsKeepsNames(w.contexts, w'.contexts, w.emitted[i]);
      }
    }
    forall d | 0 <= d < |drains|
      ensures Siblings(w'.contexts, drains[d].operations)
    {
      GrowsKeepsSiblings(w.contexts, w'.contexts, drains[d].operations);
    }
  }

  lemma ExtendsKeepsDrained(cfg: Config, w: Worker, w': Worker, drains: seq<Drain>)
    requires Stamped(cfg, w) && Drained(w, drains) && Extends(cfg, w, w')
    requires forall i | |w.emitted| <= i < |w'.emitted| && w'.emitted[i].body.TeardownStart?
               && w'.emitted[i].body.traceComplete :: AcksOk(w.acks, i)
    ensures Drained(w', drains)
  {
    forall d | 0 <= d < |drains|
      ensures DrainSound(w'.acks, drains[d])
    {
      if !drains[d].done && drains[d].complete {
        ExtendsKeepsAcks(cfg, w, w', drains[d].awaited);
      }
    }
    forall k | 0 <= k < |w'.emitted| && w'.emitted[k].body.TeardownStart? && w'.emitted[k].body.traceComplete
      ensures AcksOk(w'.acks, k)
    {
      if k < |w.emitted| {
        assert w'.emitted[k] == w.emitted[k];
      }
      ExtendsKeepsAcks(cfg, w, w', k);
    }
  }

  // ---- one lemma per kind of step ----

  lemma CaptureKeeps(cfg: Config, s: System, step: Step)
    requires Strict(cfg.clock) && Invariant(cfg, s) && step.Capture? && Enabled(cfg, s, step)
    ensures Invariant(cfg, Perform(cfg, s, step))
  {
    hide Delivered, Drained, Named, Observed;
    var Capture(id, tab, session, path) := step;
    var w := s.worker;
    var s' := Perform(cfg, s, step);
    var w' := s'.worker;
    var c := w'.contexts[|w.contexts|];
    assert cfg.clock(w.ticks) < cfg.clock(w.ticks + 1) < cfg.clock(w.ticks + 2);
    EmitExtends(cfg, w, w.(contexts := w.contexts + [c], ticks := w.ticks + 1), id,
                OperationStart(c.requested, c.epochAtStart, path));
    ExtendsKeepsStamps(cfg, w, w');
    ExtendsKeepsDelivered(cfg, s, s');
    ExtendsKeepsDrained(cfg, w, w', s.drains);
    CaptureKeepsNamed(cfg, s, id, tab, session, path);
    CalmKeepsObserved(cfg, w, w', s.changes);
  }

  lemma CaptureKeepsNamed(cfg: Config, s: System, id: string, tab: int, session: Option<string>, path: string)
    requires Strict(cfg.clock) && Named(cfg, s.worker, s.drains) && Enabled(cfg, s, Capture(id, tab, session, path))
    requires Extends(cfg, s.worker, StartCapture(cfg.clock, s.worker, id, tab, session, path))
    ensures Named(cfg, StartCapture(cfg.clock, s.worker, id, tab, session, path), s.drains)
  {
    var w := s.worker;
    var w' := StartCapture(cfg.clock, w, id, tab, session, path);
    assert cfg.clock(w.ticks) < cfg.clock(w.ticks + 1) < cfg.clock(w.ticks + 2);
    forall i | 0 <= i < |w'.emitted|
      ensures EventNamed(w'.contexts, w'.emitted[i])
    {
      if i < |w.emitted| {
        assert w'.emitted[i] == w.emitted[i];
        GrowsKeepsNames(w.contexts, w'.contexts, w.emitted[i]);
      } else {
        assert w'.contexts[|w.contexts|].id == w'.emitted[i].operationId;
      }
    }
    forall d | 0 <= d < |s.drains|
      ensures Siblings(w'.contexts, s.drains[d].operations)
    {
      GrowsKeepsSiblings(w.contexts, w'.contexts, s.drains[d].operations);
    }
  }

  /** A step that edits one context and posts one event that is neither a start, a fence nor a change. */
  lemma PostKeeps(cfg: Config, s: System, s': System, k: nat, c: Context, body: Body)
    requires Strict(cfg.clock) && Invariant(cfg, s) && k < |s.worker.contexts|
    requires Grows(s.worker.contexts, s.worker.contexts[k := c])
    requires s' == s.(worker := Emit(cfg.clock, s.worker.(contexts := s.worker.contexts[k := c]), c.id, body))
    requires body.NativeSend? || body.WrapperEnd? || body.Other?
    requires Truthful(s.worker.contexts[k := c], s.changes, Event(c.id, body, cfg.clock(s.worker.ticks)))
    ensures Invariant(cfg, s')
  {
    var w := s.worker;
    var edited := w.(contexts := w.contexts[k := c]);
    var w' := Emit(cfg.clock, edited, c.id, body);
    EmitExtends(cfg, w, edited, c.id, body);
    ExtendsKeepsStamps(cfg, w, w');
    ExtendsKeepsDelivered(cfg, s, s');
    ExtendsKeepsDrained(cfg, w, w', s.drains);
    assert w'.contexts[k].id == c.id && c.startedMs == w.contexts[k].startedMs;
    ExtendsKeepsNamed(cfg, w, w', s.drains);
    CalmKeepsObserved(cfg, w, w', s.changes);
  }

  /** A step that only puts a context in doubt. */
  lemma DoubtKeeps(cfg: Config, s: System, s': System, k: nat, c: Context)
    requires Strict(cfg.clock) && Invariant(cfg, s) && k < |s.worker.contexts|
    requires Grows(s.worker.contexts, s.worker.contexts[k := c])
    requires s' == s.(worker := s.worker.(contexts := s.worker.contexts[k := c]))
    ensures Invariant(cfg, s')
  {
    var w, w' := s.worker, s'.worker;
    assert Extends(cfg, w, w');
    ExtendsKeepsDrained(cfg, w, w', s.drains);
    ExtendsKeepsNamed(cfg, w, w', s.drains);
    CalmKeepsObserved(cfg, w, w', s.changes);
  }

  /** The context as a native send leaves it, and what the send reports. */
  function SentContext(w: Worker, k: nat, captureId: string, actual: Target, control: Control): Context
    requires k < |w.contexts|
  {
    var epoch := EpochOf(w.epochs, actual.tabId);
    var c := SendChecks(w.contexts[k], control, epoch);
    c.(attempts := c.attempts + [Attempt(captureId, actual, epoch)])
  }

  function SentBody(w: Worker, captureId: string, actual: Target, control: Control): Body {
    NativeSend(captureId, actual, EpochOf(w.epochs, actual.tabId), control, HistoryOf(w.history, actual.tabId),
               actual.tabId.Some? && actual.tabId.value in w.lost)
  }

  lemma SendIsTruthful(w: Worker, changes: seq<Change>, k: nat, c: Context, captureId: string, actual: Target,
                       control: Control, now: real)
    requires k < |w.contexts| && Kept(w, changes) && Epochs(w, changes, now)
    requires Grows(w.contexts, w.contexts[k := c])
    ensures Truthful(w.contexts[k := c], changes, Event(c.id, SentBody(w, captureId, actual, control), now))
  {
    var contexts := w.contexts[k := c];
    forall j | 0 <= j < |contexts| && contexts[j].requested.tabId == actual.tabId && actual.tabId.Some?
      && Quiet(changes, actual.tabId.value, contexts[j].startedMs, now)
      ensures EpochOf(w.epochs, actual.tabId) == contexts[j].epochAtStart
    {
      assert contexts[j].startedMs == w.contexts[j].startedMs;
      assert Quiet(changes, w.contexts[j].requested.tabId.value, w.contexts[j].startedMs, now);
    }
  }

  lemma SendKeeps(cfg: Config, s: System, step: Step)
    requires Strict(cfg.clock) && Invariant(cfg, s) && step.Send? && Enabled(cfg, s, step)
    ensures Invariant(cfg, Perform(cfg, s, step))
  {
    hide Stamped, Delivered, Drained, Named;
    var w, k := s.worker, step.k;
    var sent := SentContext(w, k, step.captureId, step.actual, step.control);
    SendIsTruthful(w, s.changes, k, sent, step.captureId, step.actual, step.control, cfg.clock(w.ticks));
    PostKeeps(cfg, s, Perform(cfg, s, step), k, sent, SentBody(w, step.captureId, step.actual, step.control));
  }

  lemma EndIsTruthful(cfg: Config, w: Worker, changes: seq<Change>, k: nat, c: Context, answered: bool, epoch: nat)
    requires k < |w.contexts| && Reported(w, changes) && Apart(cfg, w, changes)
    requires forall i, j :: 0 <= i < j < |w.contexts| ==> w.contexts[i].id != w.contexts[j].id
    requires c == w.contexts[k].(wrapperPending := false)
    ensures Truthful(w.contexts[k := c], changes,
                     Event(c.id, WrapperEnd(answered, epoch, c.invalidations, c.attempts), cfg.clock(w.ticks)))
  {
    if c.invalidations == [] {
      var contexts := w.contexts[k := c];
      forall j | 0 <= j < |contexts| && contexts[j].id == c.id && contexts[j].requested.tabId.Some?
        ensures Quiet(changes, contexts[j].requested.tabId.value, contexts[j].startedMs, cfg.clock(w.ticks))
      {
        assert w.contexts[j].id == w.contexts[k].id;
        assert j == k;
      }
    }
  }

  lemma SettleKeeps(cfg: Config, s: System, step: Step)
    requires Strict(cfg.clock) && Invariant(cfg, s) && step.WrapperSettles? && Enabled(cfg, s, step)
    ensures Invariant(cfg, Perform(cfg, s, step))
  {
    var w, k := s.worker, step.k;
    var c := w.contexts[k].(wrapperPending := false);
    var epoch := EpochOf(w.epochs, c.requested.tabId);
    EndIsTruthful(cfg, w, s.changes, k, c, step.answered, epoch);
    PostKeeps(cfg, s, Perform(cfg, s, step), k, c, WrapperEnd(step.answered, epoch, c.invalidations, c.attempts));
  }

  lemma ReportKeeps(cfg: Config, s: System, step: Step)
    requires Strict(cfg.clock) && Invariant(cfg, s) && step.Report? && Enabled(cfg, s, step)
    ensures Invariant(cfg, Perform(cfg, s, step))
  {
    var w, k := s.worker, step.k;
    assert w.contexts[k := w.contexts[k]] == w.contexts;
    PostKeeps(cfg, s, Perform(cfg, s, step), k, w.contexts[k], Other(step.kind));
  }

  lemma PrologueGrows(contexts: seq<Context>, k: nat, reason: string, actual: Target)
    requires k < |contexts|
    ensures Grows(contexts, contexts[k := Invalidate(contexts[k], reason)])
    ensures Grows(contexts, contexts[k := SendPrologue(contexts[k], actual)])
  {
  }

  lemma PrologueKeeps(cfg: Config, s: System, step: Step)
    requires Strict(cfg.clock) && Invariant(cfg, s) && (step.Prologue? || step.Doubt?) && Enabled(cfg, s, step)
    ensures Invariant(cfg, Perform(cfg, s, step))
  {
    var c := s.worker.contexts[step.k];
    var doubted := if step.Doubt? then Invalidate(c, step.reason) else SendPrologue(c, step.actual);
    hide Stamped, Delivered, Drained, Named, Observed, Grows, Invalidate, SendPrologue;
    if step.Doubt? {
      PrologueGrows(s.worker.contexts, step.k, step.reason, Target(None, None));
    } else {
      PrologueGrows(s.worker.contexts, step.k, "", step.actual);
    }
    DoubtKeeps(cfg, s, Perform(cfg, s, step), step.k, doubted);
  }

  // ---- attachment changes ----

  lemma ChangeExtends(cfg: Config, w: Worker, target: Target, reason: string, advance: bool)
    requires Strict(cfg.clock) && Stamped(cfg, w) && target.tabId.Some?
    ensures var r := RecordChange(cfg.clock, w, target.tabId.value, reason, advance);
      var w' := ChangeAttachment(cfg.clock, w, target, reason, advance);
      Extends(cfg, w, w') && Stamped(cfg, r) && NotifyEffect(cfg, r, w', 0, target.tabId.value)
  {
    var tab := target.tabId.value;
    var r := RecordChange(cfg.clock, w, tab, reason, advance);
    var w' := ChangeAttachment(cfg.clock, w, target, reason, advance);
    assert cfg.clock(w.ticks) < cfg.clock(r.ticks);
    NotifyMeets(cfg, r, 0, tab, target, reason);
  }

  lemma ChangeKeepsReported(cfg: Config, w: Worker, r: Worker, w': Worker, changes: seq<Change>, ch: Change)
    requires Strict(cfg.clock) && Reported(w, changes) && NotifyEffect(cfg, r, w', 0, ch.tab)
    requires r.contexts == w.contexts && r.emitted == w.emitted && r.ticks == w.ticks + 1
    requires ch.mark.atMs == cfg.clock(w.ticks) && ch.till == cfg.clock(w'.ticks)
    ensures Reported(w', changes + [ch])
  {
    var all := changes + [ch];
    forall k, i | 0 <= k < |w'.contexts| && 0 <= i < |all| && w'.contexts[k].requested.tabId == Some(all[i].tab)
      && w'.contexts[k].startedMs < all[i].mark.atMs
      ensures w'.contexts[k].invalidations != [] && ReportedTo(w'.emitted, w'.contexts[k].id, all[i])
    {
      if i < |changes| {
        assert all[i] == changes[i];
        ReportedPrefix(w.emitted, w'.emitted, w.contexts[k].id, changes[i]);
      } else {
        assert Concerns(w.contexts[k], ch.tab);
        var j :| |r.emitted| <= j < |w'.emitted| && w'.emitted[j].operationId == w.contexts[k].id;
        assert cfg.clock(w.ticks) < cfg.clock(w.ticks + 1) <= w'.emitted[j].atMs;
      }
    }
  }

  lemma ChangeKeepsApart(cfg: Config, w: Worker, r: Worker, w': Worker, changes: seq<Change>, ch: Change)
    requires Strict(cfg.clock) && Stamped(cfg, w) && Apart(cfg, w, changes) && NotifyEffect(cfg, r, w', 0, ch.tab)
    requires r.contexts == w.contexts && r.emitted == w.emitted && r.ticks == w.ticks + 1
    requires ch.mark.atMs == cfg.clock(w.ticks) && ch.till == cfg.clock(w'.ticks)
    requires forall k :: 0 <= k < |w.contexts| ==> w.contexts[k].startedMs < cfg.clock(w.ticks)
    ensures Apart(cfg, w', changes + [ch])
  {
    var all := changes + [ch];
    assert cfg.clock(w.ticks) < cfg.clock(r.ticks) <= cfg.clock(w'.ticks);
    forall i, j | 0 <= i < |all| && 0 <= j < |w'.emitted| && !w'.emitted[j].body.AttachmentChange?
      ensures w'.emitted[j].atMs < all[i].mark.atMs || all[i].till <= w'.emitted[j].atMs
    {
      assert j < |w.emitted| && w'.emitted[j] == w.emitted[j];
    }
    forall i, k | 0 <= i < |all| && 0 <= k < |w'.contexts|
      ensures w'.contexts[k].startedMs != all[i].mark.atMs
    {
      assert w'.contexts[k].startedMs == w.contexts[k].startedMs;
    }
  }

  lemma ChangeKeepsHistory(cfg: Config, w: Worker, reason: string, advance: bool, changes: seq<Change>, ch: Change)
    requires Kept(w, changes) && ch.mark.reason == reason && ch.mark.atMs == cfg.clock(w.ticks)
    requires ch.mark.epoch == EpochOf(w.epochs, Some(ch.tab)) + (if advance then 1 else 0)
    ensures Kept(RecordChange(cfg.clock, w, ch.tab, reason, advance), changes + [ch])
  {
    var r := RecordChange(cfg.clock, w, ch.tab, reason, advance);
    var all := changes + [ch];
    var marks := HistoryOf(w.history, Some(ch.tab));
    forall i | 0 <= i < |all| && all[i].tab !in r.lost
      ensures all[i].mark in HistoryOf(r.history, Some(all[i].tab))
    {
      if all[i].tab == ch.tab {
        assert HistoryOf(r.history, Some(ch.tab)) == marks + [ch.mark];
        if i < |changes| {
          assert changes[i].mark in marks;
        }
      } else {
        assert HistoryOf(r.history, Some(all[i].tab)) == HistoryOf(w.history, Some(all[i].tab));
        assert all[i] == changes[i];
      }
    }
  }

  lemma ChangeKeepsEpochs(cfg: Config, w: Worker, r: Worker, w': Worker, changes: seq<Change>, ch: Change)
    requires Strict(cfg.clock) && Epochs(w, changes, cfg.clock(w.ticks)) && NotifyEffect(cfg, r, w', 0, ch.tab)
    requires r.contexts == w.contexts && r.ticks == w.ticks + 1 && ch.mark.atMs == cfg.clock(w.ticks)
    requires forall t :: t != ch.tab ==> EpochOf(r.epochs, Some(t)) == EpochOf(w.epochs, Some(t))
    requires forall k :: 0 <= k < |w.contexts| ==> w.contexts[k].startedMs < cfg.clock(w.ticks)
    ensures Epochs(w', changes + [ch], cfg.clock(w'.ticks))
  {
    var all := changes + [ch];
    assert cfg.clock(w.ticks) < cfg.clock(r.ticks) <= cfg.clock(w'.ticks);
    forall k | 0 <= k < |w'.contexts| && w'.contexts[k].requested.tabId.Some?
      && Quiet(all, w'.contexts[k].requested.tabId.value, w'.contexts[k].startedMs, cfg.clock(w'.ticks))
      ensures EpochOf(w'.epochs, w'.contexts[k].requested.tabId) == w'.contexts[k].epochAtStart
    {
      var tab := w.contexts[k].requested.tabId.value;
      assert all[|changes|] == ch;
      assert tab != ch.tab;
      assert forall i :: 0 <= i < |changes| ==> all[i] == changes[i];
      assert Quiet(changes, tab, w.contexts[k].startedMs, cfg.clock(w.ticks));
    }
  }

  lemma LaterChangeKeepsTruth(a: seq<Context>, b: seq<Context>, changes: seq<Change>, ch: Change, e: Event)
    requires Grows(a, b) && |a| == |b| && Truthful(a, changes, e) && e.atMs < ch.mark.atMs
    ensures Truthful(b, changes + [ch], e)
  {
    var all := changes + [ch];
    assert forall i :: 0 <= i < |changes| ==> all[i] == changes[i];
    assert forall tab, from :: Quiet(all, tab, from, e.atMs) <==> Quiet(changes, tab, from, e.atMs);
    if e.body.NativeSend? {
      forall k | 0 <= k < |b| && b[k].requested.tabId == e.body.target.tabId
        && b[k].startedMs < e.atMs && e.body.target.tabId.Some?
        && Quiet(all, e.body.target.tabId.value, b[k].startedMs, e.atMs)
        ensures e.body.epoch == b[k].epochAtStart
      {
        assert a[k].startedMs == b[k].startedMs;
      }
    }
    if e.body.WrapperEnd? && e.body.invalidations == [] {
      forall k | 0 <= k < |b| && b[k].id == e.operationId && b[k].requested.tabId.Some?
        ensures Quiet(all, b[k].requested.tabId.value, b[k].startedMs, e.atMs)
      {
        assert a[k].id == b[k].id;
      }
    }
  }

  lemma AttachmentKeepsObserved(cfg: Config, w: Worker, target: Target, reason: string, advance: bool,
                                changes: seq<Change>, ch: Change)
    requires Strict(cfg.clock) && Stamped(cfg, w) && Observed(cfg, w, changes) && target.tabId == Some(ch.tab)
    requires forall k :: 0 <= k < |w.contexts| ==> w.contexts[k].startedMs < cfg.clock(w.ticks)
    requires ch.mark == Mark(cfg.clock(w.ticks), reason, EpochOf(w.epochs, Some(ch.tab)) + (if advance then 1 else 0))
    requires ch.till == cfg.clock(ChangeAttachment(cfg.clock, w, target, reason, advance).ticks)
    ensures Observed(cfg, ChangeAttachment(cfg.clock, w, target, reason, advance), changes + [ch])
  {
    var r := RecordChange(cfg.clock, w, ch.tab, reason, advance);
    var w' := ChangeAttachment(cfg.clock, w, target, reason, advance);
    ChangeExtends(cfg, w, target, reason, advance);
    ChangeKeepsReported(cfg, w, r, w', changes, ch);
    ChangeKeepsApart(cfg, w, r, w', changes, ch);
    ChangeKeepsHistory(cfg, w, reason, advance, changes, ch);
    ChangeKeepsEpochs(cfg, w, r, w', changes, ch);
    AttachmentKeepsTruth(cfg, w, r, w', changes, ch);
  }

  lemma AttachmentObserves(cfg: Config, s: System, step: Step, s': System)
    requires Strict(cfg.clock) && Stamped(cfg, s.worker) && Named(cfg, s.worker, s.drains)
             && Observed(cfg, s.worker, s.changes)
    requires step.Attachment? && step.target.tabId.Some? && s' == Perform(cfg, s, step)
    ensures Observed(cfg, s'.worker, s'.changes)
  {
    hide Reported, Apart, Kept, Epochs, Truthful;
    AttachmentKeepsObserved(cfg, s.worker, step.target, step.reason, step.advance, s.changes, s'.changes[|s.changes|]);
  }

  lemma AttachmentKeeps(cfg: Config, s: System, step: Step)
    requires Strict(cfg.clock) && Invariant(cfg, s) && step.Attachment?
    ensures Invariant(cfg, Perform(cfg, s, step))
  {
    hide Delivered, Drained, Named, Observed;
    var Attachment(target, reason, advance) := step;
    if target.tabId.Some? {
      var w := s.worker;
      var s' := Perform(cfg, s, step);
      ChangeExtends(cfg, w, target, reason, advance);
      ExtendsKeepsStamps(cfg, w, s'.worker);
      ExtendsKeepsDelivered(cfg, s, s');
      ExtendsKeepsDrained(cfg, w, s'.worker, s.drains);
      AttachmentKeepsNamed(cfg, w, RecordChange(cfg.clock, w, target.tabId.value, reason, advance), s'.worker,
                           s.drains, target.tabId.value);
      AttachmentObserves(cfg, s, step, s');
    }
  }

  lemma AttachmentKeepsNamed(cfg: Config, w: Worker, r: Worker, w': Worker, drains: seq<Drain>, tab: int)
    requires Strict(cfg.clock) && Named(cfg, w, drains) && Extends(cfg, w, w') && NotifyEffect(cfg, r, w', 0, tab)
    requires r.contexts == w.contexts && r.emitted == w.emitted && r.ticks == w.ticks + 1
    ensures Named(cfg, w', drains)
  {
    assert cfg.clock(w.ticks) < cfg.clock(r.ticks);
    forall i | |w.emitted| <= i < |w'.emitted|
      ensures EventNamed(w'.contexts, w'.emitted[i])
    {
      var k :| 0 <= k < |w.contexts| && w.contexts[k].id == w'.emitted[i].operationId;
      assert w'.contexts[k].id == w.contexts[k].id && w.contexts[k].startedMs < cfg.clock(w.ticks);
    }
    ExtendsKeepsNamed(cfg, w, w', drains);
  }

  lemma AttachmentKeepsTruth(cfg: Config, w: Worker, r: Worker, w': Worker, changes: seq<Change>, ch: Change)
    requires Stamped(cfg, w) && NotifyEffect(cfg, r, w', 0, ch.tab)
    requires r.contexts == w.contexts && r.emitted == w.emitted && ch.mark.atMs == cfg.clock(w.ticks)
    requires forall i :: 0 <= i < |w.emitted| ==> Truthful(w.contexts, changes, w.emitted[i])
    ensures forall i :: 0 <= i < |w'.emitted| ==> Truthful(w'.contexts, changes + [ch], w'.emitted[i])
  {
    forall i | 0 <= i < |w'.emitted|
      ensures Truthful(w'.contexts, changes + [ch], w'.emitted[i])
    {
      if i < |w.emitted| {
        assert w'.emitted[i] == w.emitted[i];
        LaterChangeKeepsTruth(w.contexts, w'.contexts, changes, ch, w.emitted[i]);
      }
    }
  }

  // ---- fences ----

  lemma {:induction false} OperationsOnAreSiblings(contexts: seq<Context>, tab: int)
    requires forall i, j :: 0 <= i < j < |contexts| ==> contexts[i].id != contexts[j].id
    ensures Distinct(OperationsOn(contexts, tab)) && OnTab(contexts, OperationsOn(contexts, tab), tab)
    ensures forall id :: id in OperationsOn(contexts, tab) ==> HasId(contexts, id)
  {
    if contexts != [] {
      var prefix, c := contexts[..|contexts| - 1], contexts[|contexts| - 1];
      OperationsOnAreSiblings(prefix, tab);
      var before, all := OperationsOn(prefix, tab), OperationsOn(contexts, tab);
      forall i | 0 <= i < |before|
        ensures HasIdOn(contexts, before[i], tab)
      {
        assert HasIdOn(prefix, before[i], tab);
        var k :| 0 <= k < |prefix| && prefix[k].id == before[i] && prefix[k].requested.tabId == Some(tab);
        assert contexts[k] == prefix[k];
      }
      forall id | id in all
        ensures HasId(contexts, id)
      {
        if id in before {
          assert HasId(prefix, id);
          var k :| 0 <= k < |prefix| && prefix[k].id == id;
          assert contexts[k] == prefix[k];
        } else {
          assert contexts[|contexts| - 1].id == id;
        }
      }
      if all != before {
        assert forall k :: 0 <= k < |prefix| ==> contexts[k] == prefix[k];
        assert !HasId(prefix, c.id);
        assert HasIdOn(contexts, c.id, tab);
      }
    }
  }

  /** The fence of a drain that ends here is posted behind acknowledged events only. */
  lemma FenceKeeps(cfg: Config, s: System, s': System, operations: seq<string>, complete: bool)
    requires Strict(cfg.clock) && Invariant(cfg, s) && Siblings(s.worker.contexts, operations)
    requires complete ==> AcksOk(s.worker.acks, |s.worker.acks|)
    requires s' == s.(worker := Emit(cfg.clock, s.worker, TEARDOWN, TeardownStart(complete, operations)))
    ensures Invariant(cfg, s')
  {
    var w, w' := s.worker, s'.worker;
    EmitExtends(cfg, w, w, TEARDOWN, TeardownStart(complete, operations));
    ExtendsKeepsStamps(cfg, w, w');
    ExtendsKeepsDelivered(cfg, s, s');
    ExtendsKeepsDrained(cfg, w, w', s.drains);
    ExtendsKeepsNamed(cfg, w, w', s.drains);
    CalmKeepsObserved(cfg, w, w', s.changes);
  }

  lemma {:induction false} TurnKeeps(cfg: Config, s: System, s': System, d: Drain, d': Drain, expired: bool)
    requires Strict(cfg.clock) && Invariant(cfg, s) && Siblings(s.worker.contexts, d.operations)
    requires !d.done && d.awaited == d.drained <= |s.worker.acks| && (d.complete ==> AcksOk(s.worker.acks, d.drained))
    requires s'.worker == DrainTurn(cfg.clock, s.worker, d, expired).0
    requires d' == DrainTurn(cfg.clock, s.worker, d, expired).1 && s' == s.(worker := s'.worker)
    ensures Invariant(cfg, s') && DrainSound(s'.worker.acks, d') && Siblings(s'.worker.contexts, d'.operations)
  {
    if d'.done {
      FenceKeeps(cfg, s, s', d.operations, d'.complete);
    }
  }

  lemma DrainsKeep(cfg: Config, s: System, s': System, n: nat, d: Drain)
    requires Invariant(cfg, s) && DrainSound(s.worker.acks, d) && Siblings(s.worker.contexts, d.operations)
    requires s' == s.(drains := if n < |s.drains| then s.drains[n := d] else s.drains + [d])
    ensures Invariant(cfg, s')
  {
    forall i | 0 <= i < |s'.drains|
      ensures DrainSound(s.worker.acks, s'.drains[i]) && Siblings(s.worker.contexts, s'.drains[i].operations)
    {
    }
  }

  lemma TeardownKeeps(cfg: Config, s: System, step: Step)
    requires Strict(cfg.clock) && Invariant(cfg, s) && step.Teardown? && Enabled(cfg, s, step)
    ensures Invariant(cfg, Perform(cfg, s, step))
  {
    var d := NewDrain(OperationsOn(s.worker.contexts, step.tab));
    OperationsOnAreSiblings(s.worker.contexts, step.tab);
    var (w', d') := DrainTurn(cfg.clock, s.worker, d, step.expired);
    var s1 := s.(worker := w');
    TurnKeeps(cfg, s, s1, d, d', step.expired);
    DrainsKeep(cfg, s1, Perform(cfg, s, step), |s.drains|, d');
  }

  lemma AwaitedIsSound(w: Worker, d: Drain)
    requires !d.done && DrainSound(w.acks, d)
    ensures Awaited(w, d).complete ==> AcksOk(w.acks, d.drained)
  {
    if Awaited(w, d).complete {
      forall i | 0 <= i < d.drained
        ensures w.acks[i] == Answered(true)
      {
        if i >= d.awaited {
          assert w.acks[d.awaited..d.drained][i - d.awaited] == w.acks[i];
        }
      }
    }
  }

  lemma ResumeKeeps(cfg: Config, s: System, step: Step)
    requires Strict(cfg.clock) && Invariant(cfg, s) && step.Resume? && Enabled(cfg, s, step)
    ensures Invariant(cfg, Perform(cfg, s, step))
  {
    var drain := s.drains[step.d];
    AwaitedIsSound(s.worker, drain);
    var (w', d') := DrainTurn(cfg.clock, s.worker, Awaited(s.worker, drain), step.expired);
    var s1 := s.(worker := w');
    TurnKeeps(cfg, s, s1, Awaited(s.worker, drain), d', step.expired);
    DrainsKeep(cfg, s1, Perform(cfg, s, step), step.d, d');
  }

  // ---- the network ----

  lemma DeliverKeeps(cfg: Config, s: System, step: Step)
    requires Invariant(cfg, s) && step.Deliver? && Enabled(cfg, s, step)
    ensures Invariant(cfg, Perform(cfg, s, step))
  {
    var s' := Perform(cfg, s, step);
    assert s'.traces[..|s'.traces| - 1] == s.traces;
    assert s'.arrivals[..|s'.arrivals| - 1] == s.arrivals;
    DistinctAppend(s.arrivals, step.i);
  }

  lemma AcknowledgeKeeps(cfg: Config, s: System, step: Step)
    requires Invariant(cfg, s) && step.Acknowledge? && Enabled(cfg, s, step)
    ensures Invariant(cfg, Perform(cfg, s, step))
  {
    var w, w' := s.worker, Perform(cfg, s, step).worker;
    forall n: nat | AcksOk(w.acks, n)
      ensures AcksOk(w'.acks, n)
    {
      assert w.acks[step.i].Pending?;
    }
  }

  lemma OtherCaseKeeps(cfg: Config, s: System, step: Step)
    requires Invariant(cfg, s) && step.OtherCase? && Enabled(cfg, s, step)
    ensures Invariant(cfg, Perform(cfg, s, step))
  {
    var s' := Perform(cfg, s, step);
    assert s'.traces[..|s'.traces| - 1] == s.traces;
  }

  // ---- all steps, all runs ----

  lemma {:induction false} NextKeeps(cfg: Config, s: System, step: Step)
    requires Strict(cfg.clock) && Invariant(cfg, s)
    ensures Invariant(cfg, Next(cfg, s, step))
  {
    if Enabled(cfg, s, step) {
      match step
      case Capture(_, _, _, _) => CaptureKeeps(cfg, s, step);
      case Prologue(_, _) => PrologueKeeps(cfg, s, step);
      case Doubt(_, _) => PrologueKeeps(cfg, s, step);
      case Send(_, _, _, _) => SendKeeps(cfg, s, step);
      case Report(_, _) => ReportKeeps(cfg, s, step);
      case WrapperSettles(_, _) => SettleKeeps(cfg, s, step);
      case Attachment(_, _, _) => AttachmentKeeps(cfg, s, step);
      case Teardown(_, _) => TeardownKeeps(cfg, s, step);
      case Resume(_, _) => ResumeKeeps(cfg, s, step);
      case Deliver(_) => DeliverKeeps(cfg, s, step);
      case Acknowledge(_, _) => AcknowledgeKeeps(cfg, s, step);
      case OtherCase(_) => OtherCaseKeeps(cfg, s, step);
    }
  }

  lemma {:induction false} RunKeeps(cfg: Config, steps: seq<Step>)
    requires Strict(cfg.clock)
    ensures Invariant(cfg, Run(cfg, steps))
  {
    if steps != [] {
      RunKeeps(cfg, steps[..|steps| - 1]);
      NextKeeps(cfg, Run(cfg, steps[..|steps| - 1]), steps[|steps| - 1]);
    }
  }
}
