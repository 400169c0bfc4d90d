/** What puts a capture in doubt, and what its end event repeats, over every run (relay-observer.js). */
module TraceDoubts {
  import opened Common
  import opened TraceObserver
  import opened TraceProtocol

  // ---- the sends of an operation ----

  ghost predicate IsSendOf(e: Event, id: string) { e.operationId == id && e.body.NativeSend? }

  ghost function SentBy(e: Event, id: string): seq<Attempt> {
    if IsSendOf(e, id) then [Attempt(e.body.captureId, e.body.target, e.body.epoch)] else []
  }

  /** The attempts that the native sends of an operation report, in order. */
  ghost function SendsOf(emitted: seq<Event>, id: string): seq<Attempt> {
    if emitted == [] then []
    else
      var e := emitted[|emitted| - 1];
      SendsOf(emitted[..|emitted| - 1], id) + SentBy(e, id)
  }

  lemma SendsMore(emitted: seq<Event>, e: Event, id: string)
    ensures SendsOf(emitted + [e], id) == SendsOf(emitted, id) + SentBy(e, id)
  {
    assert (emitted + [e])[..|emitted|] == emitted;
  }

  lemma {:induction false} NothingSent(emitted: seq<Event>, id: string)
    requires forall i :: 0 <= i < |emitted| ==> emitted[i].operationId != id
    ensures SendsOf(emitted, id) == []
  {
    if emitted != [] {
      NothingSent(emitted[..|emitted| - 1], id);
    }
  }

  // ---- the invariant ----

  /** What a send shows against its capture: a control that was not valid, or an epoch that is not the start's. */
  ghost predicate Admitted(e: Event, epochAtStart: nat, doubts: seq<string>)
    requires e.body.NativeSend?
  {
    && (!e.body.control.valid ==> "dispatch-window-state-unverified" in doubts)
    && (e.body.epoch == 0 || e.body.epoch != epochAtStart ==> "attachment-epoch-changed" in doubts)
  }

  /** The doubts cover the start and all sends of the operation in the log. */
  ghost predicate Covered(emitted: seq<Event>, id: string, epochAtStart: nat, doubts: seq<string>) {
    && (epochAtStart == 0 ==> "no-acknowledged-attachment" in doubts)
    && forall i | 0 <= i < |emitted| && IsSendOf(emitted[i], id) :: Admitted(emitted[i], epochAtStart, doubts)
  }

  ghost predicate ContextTells(w: Worker, c: Context) {
    c.attempts == SendsOf(w.emitted, c.id) && Covered(w.emitted, c.id, c.epochAtStart, c.invalidations)
  }

  /** An end event repeats the attempts of its operation so far, and doubts that cover them. */
  ghost predicate EndTells(w: Worker, i: nat, c: Context)
    requires i < |w.emitted|
  {
    w.emitted[i].body.WrapperEnd? && w.emitted[i].operationId == c.id ==>
      && w.emitted[i].body.attempts == SendsOf(w.emitted[..i], c.id)
      && Covered(w.emitted[..i], c.id, c.epochAtStart, w.emitted[i].body.invalidations)
  }

  ghost predicate Owned(w: Worker, id: string) {
    id == TEARDOWN || exists k :: 0 <= k < |w.contexts| && w.contexts[k].id == id
  }

  ghost predicate Telling(w: Worker) {
    && (forall k, l :: 0 <= k < l < |w.contexts| ==> w.contexts[k].id != w.contexts[l].id)
    && (forall k :: 0 <= k < |w.contexts| ==> w.contexts[k].id != TEARDOWN && ContextTells(w, w.contexts[k]))
    && (forall i, k :: 0 <= i < |w.emitted| && 0 <= k < |w.contexts| ==> EndTells(w, i, w.contexts[k]))
    && (forall i :: 0 <= i < |w.emitted| ==> Owned(w, w.emitted[i].operationId))
  }

  // ---- what a transition does ----

  /** Doubts are only added; names and start epochs stay. */
  ghost predicate Doubts(a: Context, b: Context) {
    && b.id == a.id && b.epochAtStart == a.epochAtStart
    && forall reason :: reason in a.invalidations ==> reason in b.invalidations
  }

  lemma CoveredStays(emitted: seq<Event>, id: string, epoch: nat, doubts: seq<string>, more: seq<string>)
    requires Covered(emitted, id, epoch, doubts) && forall reason :: reason in doubts ==> reason in more
    ensures Covered(emitted, id, epoch, more)
  {
  }

  lemma CoveredMore(emitted: seq<Event>, e: Event, id: string, epoch: nat, doubts: seq<string>)
    requires Covered(emitted, id, epoch, doubts) && (IsSendOf(e, id) ==> Admitted(e, epoch, doubts))
    ensures Covered(emitted + [e], id, epoch, doubts)
  {
  }

  /** Contexts are doubted, nothing is emitted. */
  lemma DoubtKeeps(w: Worker, w': Worker)
    requires Telling(w) && w'.emitted == w.emitted && |w'.contexts| == |w.contexts|
    requires forall k :: 0 <= k < |w.contexts| ==>
               Doubts(w.contexts[k], w'.contexts[k]) && w'.contexts[k].attempts == w.contexts[k].attempts
    ensures Telling(w')
  {
    hide Covered, SendsOf;
    forall k | 0 <= k < |w.contexts|
      ensures ContextTells(w', w'.contexts[k])
    {
      assert ContextTells(w, w.contexts[k]);
      CoveredStays(w.emitted, w.contexts[k].id, w.contexts[k].epochAtStart, w.contexts[k].invalidations,
                   w'.contexts[k].invalidations);
    }
    forall i, k | 0 <= i < |w.emitted| && 0 <= k < |w.contexts|
      ensures EndTells(w', i, w'.contexts[k])
    {
      assert EndTells(w, i, w.contexts[k]);
    }
    OwnersStay(w, w');
  }

  lemma OwnersStay(w: Worker, w': Worker)
    requires |w'.contexts| >= |w.contexts|
    requires forall k :: 0 <= k < |w.contexts| ==> w'.contexts[k].id == w.contexts[k].id
    ensures forall id :: Owned(w, id) ==> Owned(w', id)
  {
    forall id | Owned(w, id)
      ensures Owned(w', id)
    {
      if id != TEARDOWN {
        var k :| 0 <= k < |w.contexts| && w.contexts[k].id == id;
        assert w'.contexts[k].id == id;
      }
    }
  }

  /** What an event must say: a send is an attempt that its doubts cover, an end repeats its context. */
  ghost predicate Fitting(w: Worker, w': Worker, e: Event) {
    && Owned(w, e.operationId) && |w'.contexts| == |w.contexts|
    && (forall k | 0 <= k < |w.contexts| ::
          && w'.contexts[k].attempts == w.contexts[k].attempts + SentBy(e, w.contexts[k].id)
          && (IsSendOf(e, w.contexts[k].id) ==> Admitted(e, w.contexts[k].epochAtStart, w'.contexts[k].invalidations))
          && (e.operationId == w.contexts[k].id && e.body.WrapperEnd? ==>
                e.body.attempts == w.contexts[k].attempts && e.body.invalidations == w.contexts[k].invalidations))
  }

  lemma EmitKeeps(w: Worker, w': Worker, e: Event)
    requires Telling(w) && w'.emitted == w.emitted + [e] && |w'.contexts| == |w.contexts|
    requires forall k :: 0 <= k < |w.contexts| ==> Doubts(w.contexts[k], w'.contexts[k])
    requires Fitting(w, w', e)
    ensures Telling(w')
  {
    hide Covered, SendsOf, SentBy, Admitted, IsSendOf, Owned;
    forall k | 0 <= k < |w.contexts|
      ensures ContextTells(w', w'.contexts[k])
    {
      var c, c' := w.contexts[k], w'.contexts[k];
      assert ContextTells(w, c);
      CoveredStays(w.emitted, c.id, c.epochAtStart, c.invalidations, c'.invalidations);
      CoveredMore(w.emitted, e, c.id, c.epochAtStart, c'.invalidations);
      SendsMore(w.emitted, e, c.id);
    }
    forall i, k | 0 <= i < |w'.emitted| && 0 <= k < |w.contexts|
      ensures EndTells(w', i, w'.contexts[k])
    {
      assert ContextTells(w, w.contexts[k]);
      if i < |w.emitted| {
        assert EndTells(w, i, w.contexts[k]);
        assert w'.emitted[..i] == w.emitted[..i];
      } else {
        assert w'.emitted[..i] == w.emitted;
      }
    }
    OwnersStay(w, w');
  }

  lemma StartKeeps(w: Worker, w': Worker, c: Context, e: Event)
    requires Telling(w) && w'.contexts == w.contexts + [c] && w'.emitted == w.emitted + [e]
    requires c.id != TEARDOWN && forall k :: 0 <= k < |w.contexts| ==> w.contexts[k].id != c.id
    requires c.attempts == [] && (c.epochAtStart == 0 ==> "no-acknowledged-attachment" in c.invalidations)
    requires e.operationId == c.id && e.body.OperationStart?
    ensures Telling(w')
  {
    hide Covered, SendsOf, Admitted;
    forall i | 0 <= i < |w.emitted|
      ensures w.emitted[i].operationId != c.id
    {
      assert Owned(w, w.emitted[i].operationId);
    }
    NothingSent(w.emitted, c.id);
    SendsMore(w.emitted, e, c.id);
    NothingToCover(w'.emitted, c);
    forall k | 0 <= k < |w.contexts|
      ensures ContextTells(w', w.contexts[k])
    {
      assert ContextTells(w, w.contexts[k]);
      CoveredMore(w.emitted, e, w.contexts[k].id, w.contexts[k].epochAtStart, w.contexts[k].invalidations);
      SendsMore(w.emitted, e, w.contexts[k].id);
    }
    forall i, k | 0 <= i < |w'.emitted| && 0 <= k < |w'.contexts|
      ensures EndTells(w', i, w'.contexts[k])
    {
      if i < |w.emitted| && k < |w.contexts| {
        assert EndTells(w, i, w.contexts[k]);
        assert w'.emitted[..i] == w.emitted[..i];
      }
    }
    OwnersStay(w, w');
    assert w'.contexts[|w.contexts|].id == c.id;
  }

  lemma NothingToCover(emitted: seq<Event>, c: Context)
    requires forall i :: 0 <= i < |emitted| ==> !IsSendOf(emitted[i], c.id)
    requires c.epochAtStart == 0 ==> "no-acknowledged-attachment" in c.invalidations
    ensures Covered(emitted, c.id, c.epochAtStart, c.invalidations)
  {
  }

  // ---- the steps ----

  lemma {:induction false} NotifyKeeps(clock: Clock, w: Worker, k: nat, tab: int, target: Target, reason: string)
    requires Telling(w) && k <= |w.contexts|
    ensures Telling(Notify(clock, w, k, tab, target, reason))
    decreases |w.contexts| - k
  {
    hide Telling;
    if k < |w.contexts| {
      NotifyOneKeeps(clock, w, k, tab, target, reason);
      NotifyNext(clock, w, k, tab, target, reason);
      NotifyKeeps(clock, NotifyOne(clock, w, k, tab, target, reason), k + 1, tab, target, reason);
    } else {
      NotifyEnds(clock, w, tab, target, reason);
    }
  }

  lemma NotifyOneKeeps(clock: Clock, w: Worker, k: nat, tab: int, target: Target, reason: string)
    requires Telling(w) && k < |w.contexts|
    ensures Telling(NotifyOne(clock, w, k, tab, target, reason))
  {
    var w' := NotifyOne(clock, w, k, tab, target, reason);
    if Concerns(w.contexts[k], tab) {
      hide Telling, Concerns, EpochOf;
      assert Owned(w, w.contexts[k].id);
      EmitKeeps(w, w', w'.emitted[|w.emitted|]);
    }
  }

  lemma AttachmentKeeps(cfg: Config, s: System, step: Step)
    requires Telling(s.worker) && step.Attachment?
    ensures Telling(Perform(cfg, s, step).worker)
  {
    hide Telling, Notify, HistoryOf, PushMark, EpochOf;
    if step.target.tabId.Some? {
      var r := RecordChange(cfg.clock, s.worker, step.target.tabId.value, step.reason, step.advance);
      DoubtKeeps(s.worker, r);
      NotifyKeeps(cfg.clock, r, 0, step.target.tabId.value, step.target, step.reason);
    }
  }

  lemma SendFits(clock: Clock, w: Worker, k: nat, captureId: string, actual: Target, control: Control)
    requires k < |w.contexts| && Owned(w, w.contexts[k].id)
    requires forall j :: 0 <= j < |w.contexts| && j != k ==> w.contexts[j].id != w.contexts[k].id
    ensures var w' := SendNative(clock, w, k, captureId, actual, control);
      && |w'.emitted| == |w.emitted| + 1 && w'.emitted == w.emitted + [w'.emitted[|w.emitted|]]
      && Fitting(w, w', w'.emitted[|w.emitted|])
      && forall j :: 0 <= j < |w.contexts| ==> Doubts(w.contexts[j], w'.contexts[j])
  {
    hide EpochOf, HistoryOf, Owned;
  }

  lemma SendKeeps(clock: Clock, w: Worker, k: nat, captureId: string, actual: Target, control: Control)
    requires Telling(w) && k < |w.contexts|
    ensures Telling(SendNative(clock, w, k, captureId, actual, control))
  {
    var w' := SendNative(clock, w, k, captureId, actual, control);
    assert forall j :: 0 <= j < |w.contexts| && j != k ==> w.contexts[j].id != w.contexts[k].id;
    assert Owned(w, w.contexts[k].id);
    SendFits(clock, w, k, captureId, actual, control);
    hide Telling, Fitting, Doubts, SendNative;
    EmitKeeps(w, w', w'.emitted[|w.emitted|]);
  }

  lemma SettleKeeps(clock: Clock, w: Worker, k: nat, answered: bool)
    requires Telling(w) && k < |w.contexts|
    ensures Telling(Settle(clock, w, k, answered))
  {
    var w' := Settle(clock, w, k, answered);
    assert forall j :: 0 <= j < |w.contexts| && j != k ==> w.contexts[j].id != w.contexts[k].id;
    assert Owned(w, w.contexts[k].id);
    hide Telling, EpochOf;
    EmitKeeps(w, w', w'.emitted[|w.emitted|]);
  }

  lemma FenceKeeps(clock: Clock, w: Worker, d: Drain, expired: bool)
    requires Telling(w)
    ensures Telling(DrainTurn(clock, w, d, expired).0)
  {
    var w' := DrainTurn(clock, w, d, expired).0;
    if w' != w {
      assert forall j :: 0 <= j < |w.contexts| ==> w.contexts[j].id != TEARDOWN;
      hide Telling;
      EmitKeeps(w, w', w'.emitted[|w.emitted|]);
    }
  }

  lemma CaptureKeeps(cfg: Config, s: System, step: Step)
    requires Telling(s.worker) && step.Capture? && Enabled(cfg, s, step)
    ensures Telling(Perform(cfg, s, step).worker)
  {
    var w, w' := s.worker, Perform(cfg, s, step).worker;
    hide Telling, EpochOf;
    StartKeeps(w, w', w'.contexts[|w.contexts|], w'.emitted[|w.emitted|]);
  }

  lemma ReportKeeps(cfg: Config, s: System, step: Step)
    requires Telling(s.worker) && step.Report? && Enabled(cfg, s, step)
    ensures Telling(Perform(cfg, s, step).worker)
  {
    var w, w' := s.worker, Perform(cfg, s, step).worker;
    assert Owned(w, w.contexts[step.k].id);
    hide Telling;
    EmitKeeps(w, w', w'.emitted[|w.emitted|]);
  }

  lemma NextTells(cfg: Config, s: System, step: Step)
    requires Telling(s.worker) && Enabled(cfg, s, step)
    ensures Telling(Perform(cfg, s, step).worker)
  {
    hide Telling;
    match step
    case Capture(_, _, _, _) => CaptureKeeps(cfg, s, step);
    case Send(k, id, actual, control) => SendKeeps(cfg.clock, s.worker, k, id, actual, control);
    case Report(_, _) => ReportKeeps(cfg, s, step);
    case WrapperSettles(k, answered) => SettleKeeps(cfg.clock, s.worker, k, answered);
    case Attachment(_, _, _) => AttachmentKeeps(cfg, s, step);
    case Teardown(tab, expired) =>
      FenceKeeps(cfg.clock, s.worker, NewDrain(OperationsOn(s.worker.contexts, tab)), expired);
    case Resume(d, expired) => FenceKeeps(cfg.clock, s.worker, Awaited(s.worker, s.drains[d]), expired);
    case _ => DoubtKeeps(s.worker, Perform(cfg, s, step).worker);
  }

  lemma {:induction false} RunTells(cfg: Config, steps: seq<Step>)
    ensures Telling(Run(cfg, steps).worker)
  {
    if steps != [] {
      var prefix := steps[..|steps| - 1];
      RunTells(cfg, prefix);
      hide Telling, Perform, Enabled;
      if Enabled(cfg, Run(cfg, prefix), steps[|steps| - 1]) {
        NextTells(cfg, Run(cfg, prefix), steps[|steps| - 1]);
      }
    } else {
      assert Run(cfg, []) == INITIAL;
    }
  }

  // ---- the results ----

  /**
   Over every run: the attempts of an end event are exactly the native sends of its operation before
   it, in order, and each of these sends is in the event's doubts if its window control was not
   valid or its epoch was not that of the start, or zero; so is a start in epoch zero.
   */
  lemma EndRepeatsSends(cfg: Config, steps: seq<Step>, i: nat, k: nat)
    requires var w := Run(cfg, steps).worker;
      && i < |w.emitted| && k < |w.contexts|
      && w.emitted[i].body.WrapperEnd? && w.emitted[i].operationId == w.contexts[k].id
    ensures var w := Run(cfg, steps).worker;
      var end, epoch := w.emitted[i], w.contexts[k].epochAtStart;
      && end.body.attempts == SendsOf(w.emitted[..i], end.operationId)
      && (epoch == 0 ==> "no-acknowledged-attachment" in end.body.invalidations)
      && forall j | 0 <= j < i && w.emitted[j].operationId == end.operationId && w.emitted[j].body.NativeSend? ::
           var sent := w.emitted[j].body;
           && (!sent.control.valid ==> "dispatch-window-state-unverified" in end.body.invalidations)
           && (sent.epoch == 0 || sent.epoch != epoch ==> "attachment-epoch-changed" in end.body.invalidations)
  {
    RunTells(cfg, steps);
    hide Run, SendsOf;
    var w := Run(cfg, steps).worker;
    assert EndTells(w, i, w.contexts[k]);
    forall j | 0 <= j < i && w.emitted[j].operationId == w.emitted[i].operationId && w.emitted[j].body.NativeSend?
      ensures Admitted(w.emitted[j], w.contexts[k].epochAtStart, w.emitted[i].body.invalidations)
    {
      assert w.emitted[..i][j] == w.emitted[j];
      assert IsSendOf(w.emitted[..i][j], w.contexts[k].id);
    }
  }

  /** An end without doubts: the operation began attached, and every send had a valid control in the start's epoch. */
  lemma UndoubtedEnd(cfg: Config, steps: seq<Step>, i: nat, k: nat)
    requires var w := Run(cfg, steps).worker;
      && i < |w.emitted| && k < |w.contexts|
      && w.emitted[i].body.WrapperEnd? && w.emitted[i].operationId == w.contexts[k].id
      && w.emitted[i].body.invalidations == []
    ensures var w := Run(cfg, steps).worker;
      && w.contexts[k].epochAtStart > 0
      && forall j | 0 <= j < i && IsSendOf(w.emitted[j], w.emitted[i].operationId) ::
           w.emitted[j].body.control.valid && w.emitted[j].body.epoch == w.contexts[k].epochAtStart
  {
    EndRepeatsSends(cfg, steps, i, k);
  }

  /** The doubts a screenshot command adds to its context: exactly for another target, and for an earlier attempt. */
  lemma PrologueDoubts(c: Context, actual: Target, reason: string)
    ensures reason in SendPrologue(c, actual).invalidations <==>
              || reason in c.invalidations
              || (reason == "actual-target-changed" && actual != c.requested)
              || (reason == "capture-retried" && c.attempts != [])
    ensures c.invalidations <= SendPrologue(c, actual).invalidations
    ensures SendPrologue(c, actual).(invalidations := c.invalidations) == c
  {
  }

  /** The doubts a native send adds to its context: exactly for a control that is not valid, and for another epoch. */
  lemma SendDoubts(c: Context, control: Control, epoch: nat, reason: string)
    ensures reason in SendChecks(c, control, epoch).invalidations <==>
              || reason in c.invalidations
              || (reason == "dispatch-window-state-unverified" && !control.valid)
              || (reason == "attachment-epoch-changed" && (epoch == 0 || epoch != c.epochAtStart))
    ensures c.invalidations <= SendChecks(c, control, epoch).invalidations
    ensures SendChecks(c, control, epoch).(invalidations := c.invalidations) == c
  {
  }

  // ---- who is told of an attachment change ----

  /** The context asked for the tab, or a capture of it was sent there. */
  ghost predicate IsOn(c: Context, tab: int) {
    c.requested.tabId == Some(tab) || exists i :: 0 <= i < |c.attempts| && c.attempts[i].target.tabId == Some(tab)
  }

  /** The ids of the contexts on the tab, from the k-th on, in order. */
  ghost function IdsOn(contexts: seq<Context>, tab: int, k: nat): seq<string>
    requires k <= |contexts|
    decreases |contexts| - k
  {
    if k == |contexts| then []
    else IdOn(contexts[k], tab) + IdsOn(contexts, tab, k + 1)
  }

  /** The contexts on the tab from the k-th on, and no other, are doubted. */
  ghost predicate DoubtedFrom(a: seq<Context>, b: seq<Context>, tab: int, reason: string, k: nat) {
    && |a| == |b|
    && forall j :: 0 <= j < |a| ==> if k <= j && IsOn(a[j], tab) then DoubtedFor(a[j], b[j], reason) else b[j] == a[j]
  }

  /** What was emitted in between: the same body for each of the operations, in order. */
  ghost predicate ToldOf(a: seq<Event>, b: seq<Event>, ids: seq<string>, body: Body) {
    && a <= b && |b| == |a| + |ids|
    && forall n :: 0 <= n < |ids| ==> b[|a| + n].operationId == ids[n] && b[|a| + n].body == body
  }

  /** The contexts on the tab from the k-th on, and no other, are doubted and told, in order, in the given epoch. */
  ghost predicate Told(w: Worker, w': Worker, tab: int, target: Target, reason: string, epoch: nat, k: nat)
    requires k <= |w.contexts|
  {
    && DoubtedFrom(w.contexts, w'.contexts, tab, reason, k)
    && ToldOf(w.emitted, w'.emitted, IdsOn(w.contexts, tab, k), AttachmentChange(target, reason, epoch))
  }

  ghost predicate DoubtedFor(a: Context, b: Context, reason: string) {
    && b.(invalidations := a.invalidations) == a && a.invalidations <= b.invalidations
    && forall r :: r in b.invalidations <==> r in a.invalidations || r == reason
  }

  lemma SameIdsOn(a: seq<Context>, b: seq<Context>, tab: int, k: nat)
    requires |a| == |b| && k <= |a|
    requires forall j :: k <= j < |a| ==> a[j] == b[j]
    ensures IdsOn(a, tab, k) == IdsOn(b, tab, k)
    decreases |a| - k
  {
    if k < |a| {
      SameIdsOn(a, b, tab, k + 1);
    }
  }

  ghost function IdOn(c: Context, tab: int): seq<string> { if IsOn(c, tab) then [c.id] else [] }

  lemma OneIsTold(clock: Clock, w: Worker, k: nat, tab: int, target: Target, reason: string)
    requires k < |w.contexts|
    ensures var w' := NotifyOne(clock, w, k, tab, target, reason);
      && |w'.contexts| == |w.contexts| && w'.epochs == w.epochs
      && (forall j :: 0 <= j < |w.contexts| && j != k ==> w'.contexts[j] == w.contexts[j])
      && (if IsOn(w.contexts[k], tab) then DoubtedFor(w.contexts[k], w'.contexts[k], reason)
          else w'.contexts[k] == w.contexts[k])
      && ToldOf(w.emitted, w'.emitted, IdOn(w.contexts[k], tab),
                AttachmentChange(target, reason, EpochOf(w.epochs, Some(tab))))
  {
    hide EpochOf;
    var c := w.contexts[k];
    if a :| a in c.attempts && a.target.tabId == Some(tab) {
      var i :| 0 <= i < |c.attempts| && c.attempts[i] == a;
    }
  }

  lemma ToldCompose(a: seq<Event>, b: seq<Event>, c: seq<Event>, first: seq<string>, rest: seq<string>, body: Body)
    requires ToldOf(a, b, first, body) && ToldOf(b, c, rest, body)
    ensures ToldOf(a, c, first + rest, body)
  {
    var ids := first + rest;
    forall n | 0 <= n < |ids|
      ensures c[|a| + n].operationId == ids[n] && c[|a| + n].body == body
    {
      if n < |first| {
        assert c[|a| + n] == b[|a| + n];
      } else {
        assert c[|b| + (n - |first|)].operationId == rest[n - |first|];
      }
    }
  }

  lemma DoubtedCompose(a: seq<Context>, b: seq<Context>, c: seq<Context>, tab: int, reason: string, k: nat)
    requires k < |a| == |b| && forall j :: 0 <= j < |a| && j != k ==> b[j] == a[j]
    requires if IsOn(a[k], tab) then DoubtedFor(a[k], b[k], reason) else b[k] == a[k]
    requires DoubtedFrom(b, c, tab, reason, k + 1)
    ensures DoubtedFrom(a, c, tab, reason, k)
  {
    hide IsOn, DoubtedFor;
  }

  lemma {:induction false} AllAreTold(clock: Clock, w: Worker, k: nat, tab: int, target: Target, reason: string)
    requires k <= |w.contexts|
    ensures Told(w, Notify(clock, w, k, tab, target, reason), tab, target, reason, EpochOf(w.epochs, Some(tab)), k)
    ensures Notify(clock, w, k, tab, target, reason).epochs == w.epochs
    decreases |w.contexts| - k
  {
    if k < |w.contexts| {
      hide EpochOf, IsOn, DoubtedFor, DoubtedFrom, ToldOf, NotifyOne;
      var mid, w' := NotifyOne(clock, w, k, tab, target, reason), Notify(clock, w, k, tab, target, reason);
      OneIsTold(clock, w, k, tab, target, reason);
      NotifyNext(clock, w, k, tab, target, reason);
      AllAreTold(clock, mid, k + 1, tab, target, reason);
      SameIdsOn(mid.contexts, w.contexts, tab, k + 1);
      var body := AttachmentChange(target, reason, EpochOf(w.epochs, Some(tab)));
      DoubtedCompose(w.contexts, mid.contexts, w'.contexts, tab, reason, k);
      ToldCompose(w.emitted, mid.emitted, w'.emitted, IdOn(w.contexts[k], tab), IdsOn(w.contexts, tab, k + 1), body);
    } else {
      NotifyEnds(clock, w, tab, target, reason);
    }
  }

  /**
   An attachment change on a tab tells exactly the contexts that asked for the tab or sent a capture
   there, in order, and puts exactly these in doubt. The epoch told is the tab's, one higher if the
   change advances it; no other tab's epoch moves.
   */
  lemma ChangeIsTold(clock: Clock, w: Worker, target: Target, reason: string, advance: bool)
    requires target.tabId.Some?
    ensures var tab, w' := target.tabId.value, ChangeAttachment(clock, w, target, reason, advance);
      var before := if tab in w.epochs then w.epochs[tab] else 0;
      var epoch := if advance then before + 1 else before;
      && Told(w, w', tab, target, reason, epoch, 0)
      && (forall t :: EpochOf(w'.epochs, Some(t)) == if t == tab then epoch else EpochOf(w.epochs, Some(t)))
  {
    var tab := target.tabId.value;
    var r := RecordChange(clock, w, tab, reason, advance);
    AllAreTold(clock, r, 0, tab, target, reason);
  }
}
