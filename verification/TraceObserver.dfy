/**
 The worker half of the capture-evidence protocol
 (bench/windows-capture-798/relay-observer.js).

 Each stretch of the observer between two awaits is one atomic transition, written as a
 function on `Worker`; the class `Observer` performs the same transitions in place.
 Every time stamp is a reading of the worker clock: `clock(n)` is its n-th reading.
*/
module TraceObserver {
  import opened Common

  const HISTORY_LIMIT: nat := 128
  const TEARDOWN: string := "teardown"

  datatype Target = Target(tabId: Option<int>, sessionId: Option<string>)

  /** One attach or detach as kept in the per-tab history. */
  datatype Mark = Mark(atMs: real, reason: string, epoch: nat)

  datatype Attempt = Attempt(id: string, target: Target, epoch: nat)

  datatype Context = Context(
    id: string, requested: Target, epochAtStart: nat, startedMs: real, wrapperPending: bool,
    attempts: seq<Attempt>, invalidations: seq<string>, path: string)

  /** What the fixture's window control answered before a native send. */
  datatype Control = Control(valid: bool, windowOk: bool, elapsedMs: real)

  datatype Body =
    | OperationStart(requested: Target, epoch: nat, path: string)
    | NativeSend(captureId: string, target: Target, epoch: nat, control: Control,
                 attachmentHistory: seq<Mark>, historyLost: bool)
    | WrapperEnd(answered: bool, epoch: nat, invalidations: seq<string>, attempts: seq<Attempt>)
    | AttachmentChange(target: Target, reason: string, epoch: nat)
    | TeardownStart(traceComplete: bool, operations: seq<string>)
    | Other(kind: string)

  datatype Event = Event(operationId: string, body: Body, atMs: real)

  /** The acknowledgment of one post: `Answered(true)` is a reply with an ok status. */
  datatype Ack = Pending | Answered(ok: bool)

  datatype Worker = Worker(
    epochs: map<int, nat>, contexts: seq<Context>, history: map<int, seq<Mark>>, lost: set<int>,
    emitted: seq<Event>, acks: seq<Ack>, ticks: nat)

  type Clock = nat -> real

  const FRESH := Worker(map[], [], map[], {}, [], [], 0)

  function EpochOf(epochs: map<int, nat>, tab: Option<int>): nat {
    if tab.Some? && tab.value in epochs then epochs[tab.value] else 0
  }

  function HistoryOf(history: map<int, seq<Mark>>, tab: Option<int>): seq<Mark> {
    if tab.Some? && tab.value in history then history[tab.value] else []
  }

  function Invalidate(c: Context, reason: string): Context {
    if reason in c.invalidations then c else c.(invalidations := c.invalidations + [reason])
  }

  predicate Concerns(c: Context, tab: int) {
    c.requested.tabId == Some(tab) || exists a :: a in c.attempts && a.target.tabId == Some(tab)
  }

  function Emit(clock: Clock, w: Worker, op: string, body: Body): Worker {
    w.(emitted := w.emitted + [Event(op, body, clock(w.ticks))], acks := w.acks + [Pending], ticks := w.ticks + 1)
  }

  function InvalidateAt(w: Worker, k: nat, reason: string): Worker
    requires k < |w.contexts|
  {
    w.(contexts := w.contexts[k := Invalidate(w.contexts[k], reason)])
  }

  /** `history.push`, then `shift` once the list is over the limit. */
  function PushMark(h: seq<Mark>, m: Mark): seq<Mark> {
    if |h| + 1 > HISTORY_LIMIT then (h + [m])[1..] else h + [m]
  }

  /** The part of an attachment change that touches the tab's epoch and history. */
  function RecordChange(clock: Clock, w: Worker, tab: int, reason: string, advance: bool): Worker {
    var epochs := if advance then w.epochs[tab := EpochOf(w.epochs, Some(tab)) + 1] else w.epochs;
    var before := HistoryOf(w.history, Some(tab));
    w.(epochs := epochs,
       history := w.history[tab := PushMark(before, Mark(clock(w.ticks), reason, EpochOf(epochs, Some(tab))))],
       lost := if |before| + 1 > HISTORY_LIMIT then w.lost + {tab} else w.lost,
       ticks := w.ticks + 1)
  }

  /** One turn of the loop that tells the capture contexts of a change. */
  function NotifyOne(clock: Clock, w: Worker, k: nat, tab: int, target: Target, reason: string): Worker
    requires k < |w.contexts|
  {
    if Concerns(w.contexts[k], tab) then
      Emit(clock, InvalidateAt(w, k, reason), w.contexts[k].id,
           AttachmentChange(target, reason, EpochOf(w.epochs, Some(tab))))
    else w
  }

  function Notify(clock: Clock, w: Worker, k: nat, tab: int, target: Target, reason: string): Worker
    requires k <= |w.contexts|
    decreases |w.contexts| - k
  {
    if k == |w.contexts| then w
    else Notify(clock, NotifyOne(clock, w, k, tab, target, reason), k + 1, tab, target, reason)
  }

  lemma NotifyNext(clock: Clock, w: Worker, k: nat, tab: int, target: Target, reason: string)
    requires k < |w.contexts|
    ensures |NotifyOne(clock, w, k, tab, target, reason).contexts| == |w.contexts|
    ensures Notify(clock, w, k, tab, target, reason)
         == Notify(clock, NotifyOne(clock, w, k, tab, target, reason), k + 1, tab, target, reason)
  {
    hide EpochOf;
  }

  lemma NotifyEnds(clock: Clock, w: Worker, tab: int, target: Target, reason: string)
    ensures Notify(clock, w, |w.contexts|, tab, target, reason) == w
  {
  }

  function ChangeAttachment(clock: Clock, w: Worker, target: Target, reason: string, advance: bool): Worker {
    if target.tabId.None? then w
    else Notify(clock, RecordChange(clock, w, target.tabId.value, reason, advance), 0,
                target.tabId.value, target, reason)
  }

  function StartCapture(clock: Clock, w: Worker, id: string, tab: int, session: Option<string>, path: string): Worker {
    var requested := Target(Some(tab), session);
    var epoch := EpochOf(w.epochs, Some(tab));
    var c := Context(id, requested, epoch, clock(w.ticks), true, [],
                     if epoch == 0 then ["no-acknowledged-attachment"] else [], path);
    Emit(clock, w.(contexts := w.contexts + [c], ticks := w.ticks + 1), id, OperationStart(requested, epoch, path))
  }

  /** What a screenshot command does to its context before its first await. */
  function SendPrologue(c: Context, actual: Target): Context {
    var c1 := if actual != c.requested then Invalidate(c, "actual-target-changed") else c;
    if |c1.attempts| > 0 then Invalidate(c1, "capture-retried") else c1
  }

  /** The checks made between the window control's answer and the native send. */
  function SendChecks(c: Context, control: Control, epoch: nat): Context {
    var c1 := if !control.valid then Invalidate(c, "dispatch-window-state-unverified") else c;
    if epoch == 0 || epoch != c.epochAtStart then Invalidate(c1, "attachment-epoch-changed") else c1
  }

  /** The native send itself: the attempt is pushed and reported with the tab's history. */
  function SendNative(clock: Clock, w: Worker, k: nat, captureId: string, actual: Target, control: Control): Worker
    requires k < |w.contexts|
  {
    var epoch := EpochOf(w.epochs, actual.tabId);
    var c := SendChecks(w.contexts[k], control, epoch);
    var sent := c.(attempts := c.attempts + [Attempt(captureId, actual, epoch)]);
    Emit(clock, w.(contexts := w.contexts[k := sent]), c.id,
         NativeSend(captureId, actual, epoch, control, HistoryOf(w.history, actual.tabId),
                    actual.tabId.Some? && actual.tabId.value in w.lost))
  }

  function Settle(clock: Clock, w: Worker, k: nat, answered: bool): Worker
    requires k < |w.contexts|
  {
    var c := w.contexts[k];
    Emit(clock, w.(contexts := w.contexts[k := c.(wrapperPending := false)]), c.id,
         WrapperEnd(answered, EpochOf(w.epochs, c.requested.tabId), c.invalidations, c.attempts))
  }

  /** A drain of the acknowledgments on the way to a teardown fence. `awaited..drained` is the slice it waits for. */
  datatype Drain = Drain(operations: seq<string>, awaited: nat, drained: nat, complete: bool, done: bool)

  function NewDrain(operations: seq<string>): Drain {
    Drain(operations, 0, 0, true, false)
  }

  /** Ids of the contexts requested on a tab, in creation order. */
  function OperationsOn(contexts: seq<Context>, tab: int): seq<string> {
    if contexts == [] then []
    else
      var rest := OperationsOn(contexts[..|contexts| - 1], tab);
      var c := contexts[|contexts| - 1];
      if c.requested.tabId == Some(tab) then rest + [c.id] else rest
  }

  /** One pass of the drain loop up to its next await, or its exit and the fence. */
  function DrainTurn(clock: Clock, w: Worker, d: Drain, expired: bool): (Worker, Drain) {
    if d.drained < |w.acks| && !expired then (w, d.(awaited := d.drained, drained := |w.acks|))
    else
      var complete := d.complete && d.drained == |w.acks|;
      (Emit(clock, w, TEARDOWN, TeardownStart(complete, d.operations)), d.(complete := complete, done := true))
  }

  predicate AllOk(acks: seq<Ack>) { forall i :: 0 <= i < |acks| ==> acks[i] == Answered(true) }

  lemma AllOkAppend(acks: seq<Ack>, a: Ack)
    ensures AllOk(acks + [a]) <==> AllOk(acks) && a == Answered(true)
  {
    if AllOk(acks + [a]) {
      forall i | 0 <= i < |acks|
        ensures acks[i] == Answered(true)
      {
        assert (acks + [a])[i] == Answered(true);
      }
      assert (acks + [a])[|acks|] == a;
    }
  }

  /** The acknowledgments a drain waited for have all been answered. */
  function Awaited(w: Worker, d: Drain): Drain
    requires d.awaited <= d.drained <= |w.acks|
  {
    d.(complete := d.complete && AllOk(w.acks[d.awaited..d.drained]), awaited := d.drained)
  }

  /** The observer's module-level state, updated in place. */
  class Observer {
    const clock: Clock
    var epochs: map<int, nat>
    var contexts: seq<Context>
    var history: map<int, seq<Mark>>
    var lost: set<int>
    var emitted: seq<Event>
    var acks: seq<Ack>
    var ticks: nat

    function State(): Worker
      reads this
    {
      Worker(epochs, contexts, history, lost, emitted, acks, ticks)
    }

    constructor (clock: Clock)
      ensures State() == FRESH && this.clock == clock
    {
      this.clock := clock;
      epochs, contexts, history, lost := map[], [], map[], {};
      emitted, acks, ticks := [], [], 0;
    }

    method EmitEvent(op: string, body: Body)
      modifies this
      ensures State() == Emit(clock, old(State()), op, body)
    {
      emitted := emitted + [Event(op, body, clock(ticks))];
      acks := acks + [Pending];
      ticks := ticks + 1;
    }

    method InvalidateContext(k: nat, reason: string)
      requires k < |contexts|
      modifies this`contexts
      ensures State() == InvalidateAt(old(State()), k, reason)
    {
      var c := contexts[k];
      if reason !in c.invalidations {
        c := c.(invalidations := c.invalidations + [reason]);
      }
      contexts := contexts[k := c];
    }

    /** The first part of `AttachmentChanged`: the epoch and the capped history of the tab. */
    method PushChange(tab: int, reason: string, advance: bool)
      modifies this
      ensures State() == RecordChange(clock, old(State()), tab, reason, advance)
    {
      if advance {
        epochs := epochs[tab := EpochOf(epochs, Some(tab)) + 1];
      }
      var marks := HistoryOf(history, Some(tab));
      marks := marks + [Mark(clock(ticks), reason, EpochOf(epochs, Some(tab)))];
      ticks := ticks + 1;
      if |marks| > HISTORY_LIMIT {
        marks := marks[1..];
        lost := lost + {tab};
      }
      history := history[tab := marks];
    }

    method AttachmentChanged(target: Target, reason: string, advance: bool)
      modifies this
      ensures State() == ChangeAttachment(clock, old(State()), target, reason, advance)
    {
      if target.tabId.None? {
        return;
      }
      hide Notify, Concerns, EpochOf, HistoryOf, RecordChange;
      var tab := target.tabId.value;
      PushChange(tab, reason, advance);
      var k := 0;
      while k < |contexts|
        invariant k <= |contexts|
        invariant Notify(clock, State(), k, tab, target, reason)
               == ChangeAttachment(clock, old(State()), target, reason, advance)
      {
        ghost var before := State();
        NotifyNext(clock, before, k, tab, target, reason);
        if Concerns(contexts[k], tab) {
          InvalidateContext(k, reason);
          EmitEvent(contexts[k].id, AttachmentChange(target, reason, EpochOf(epochs, Some(tab))));
        }
        assert State() == NotifyOne(clock, before, k, tab, target, reason);
        k := k + 1;
      }
      NotifyEnds(clock, State(), tab, target, reason);
    }

    /**
     A capture is observed only on an owned tab that shows a page of the fixture, whose path then is
     `page`; the answer is the place of its context.
     */
    method CaptureStarted(id: string, tab: int, session: Option<string>, owned: bool, page: Option<string>)
      returns (place: Option<nat>)
      modifies this
      ensures place == if owned && page.Some? then Some(|old(contexts)|) else None
      ensures place.None? ==> State() == old(State())
      ensures place.Some? ==> State() == StartCapture(clock, old(State()), id, tab, session, page.value)
    {
      if !owned || page.None? {
        return None;
      }
      place := Some(|contexts|);
      var requested := Target(Some(tab), session);
      var epoch := EpochOf(epochs, Some(tab));
      var reasons: seq<string> := [];
      if epoch == 0 {
        reasons := ["no-acknowledged-attachment"];
      }
      contexts := contexts + [Context(id, requested, epoch, clock(ticks), true, [], reasons, page.value)];
      ticks := ticks + 1;
      EmitEvent(id, OperationStart(requested, epoch, page.value));
    }

    method ScreenshotRequested(k: nat, actual: Target)
      requires k < |contexts|
      modifies this`contexts
      ensures State() == old(State()).(contexts := old(contexts)[k := SendPrologue(old(contexts)[k], actual)])
    {
      if actual != contexts[k].requested {
        InvalidateContext(k, "actual-target-changed");
      }
      if |contexts[k].attempts| > 0 {
        InvalidateContext(k, "capture-retried");
      }
    }

    method NativeSent(k: nat, captureId: string, actual: Target, control: Control)
      requires k < |contexts|
      modifies this
      ensures State() == SendNative(clock, old(State()), k, captureId, actual, control)
    {
      if !control.valid {
        InvalidateContext(k, "dispatch-window-state-unverified");
      }
      var epoch := EpochOf(epochs, actual.tabId);
      if epoch == 0 || epoch != contexts[k].epochAtStart {
        InvalidateContext(k, "attachment-epoch-changed");
      }
      var c := contexts[k];
      contexts := contexts[k := c.(attempts := c.attempts + [Attempt(captureId, actual, epoch)])];
      EmitEvent(c.id, NativeSend(captureId, actual, epoch, control, HistoryOf(history, actual.tabId),
                                 actual.tabId.Some? && actual.tabId.value in lost));
    }

    method WrapperSettled(k: nat, answered: bool)
      requires k < |contexts|
      modifies this
      ensures State() == Settle(clock, old(State()), k, answered)
    {
      var c := contexts[k];
      contexts := contexts[k := c.(wrapperPending := false)];
      EmitEvent(c.id, WrapperEnd(answered, EpochOf(epochs, c.requested.tabId), c.invalidations, c.attempts));
    }

    /** A tab is about to be closed: the first turn of its drain, when captures were made on it. */
    method TeardownRequested(tab: int, expired: bool) returns (next: Option<Drain>)
      modifies this
      ensures next.None? <==> OperationsOn(old(contexts), tab) == []
      ensures next.None? ==> State() == old(State())
      ensures next.Some? ==>
        (State(), next.value) == DrainTurn(clock, old(State()), NewDrain(OperationsOn(old(contexts), tab)), expired)
    {
      var operations: seq<string> := [];
      for i := 0 to |contexts|
        invariant State() == old(State())
        invariant operations == OperationsOn(contexts[..i], tab)
      {
        assert contexts[..i + 1][..i] == contexts[..i];
        if contexts[i].requested.tabId == Some(tab) {
          operations := operations + [contexts[i].id];
        }
      }
      assert contexts[..|contexts|] == contexts;
      if operations == [] {
        return None;
      }
      var d := DrainStep(NewDrain(operations), expired);
      next := Some(d);
    }

    /** `Promise.all` came back: take its verdict and run the loop to its next await. */
    method DrainStep(d: Drain, expired: bool) returns (next: Drain)
      requires d.awaited <= d.drained <= |acks|
      modifies this
      ensures (State(), next) == DrainTurn(clock, old(State()), Awaited(old(State()), d), expired)
    {
      next := d.(awaited := d.drained);
      for i := d.awaited to d.drained
        invariant State() == old(State())
        invariant next == d.(awaited := d.drained, complete := d.complete && AllOk(acks[d.awaited..i]))
      {
        AllOkAppend(acks[d.awaited..i], acks[i]);
        assert acks[d.awaited..i + 1] == acks[d.awaited..i] + [acks[i]];
        if acks[i] != Answered(true) {
          next := next.(complete := false);
        }
      }
      if next.drained < |acks| && !expired {
        next := next.(drained := |acks|);
      } else {
        if next.drained != |acks| {
          next := next.(complete := false);
        }
        next := next.(done := true);
        EmitEvent(TEARDOWN, TeardownStart(next.complete, next.operations));
      }
    }
  }
}
