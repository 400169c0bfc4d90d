/**
 Worker, network and trace server as one step system. Posts are delivered at most once, in
 any order, and acknowledged, refused or lost at any moment.
*/
module TraceProtocol {
  import opened Common
  import opened TraceObserver

  /** One trace event as the server stores it. */
  datatype Post = Post(caseId: string, event: Event)

  /** An attach or detach that happened: its time and the next worker time after its reports. */
  datatype Change = Change(tab: int, mark: Mark, till: real)

  datatype Config = Config(clock: Clock, caseId: string)

  /** `arrivals` and `changes` are history variables: nothing in the protocol reads them. */
  datatype System = System(
    worker: Worker, drains: seq<Drain>, traces: seq<Post>, arrivals: seq<nat>, changes: seq<Change>)

  datatype Step =
    | Capture(id: string, tab: int, session: Option<string>, path: string)
    | Prologue(k: nat, actual: Target)
    | Doubt(k: nat, reason: string)
    | Send(k: nat, captureId: string, actual: Target, control: Control)
    | Report(k: nat, kind: string)
    | WrapperSettles(k: nat, answered: bool)
    | Attachment(target: Target, reason: string, advance: bool)
    | Teardown(tab: int, expired: bool)
    | Resume(d: nat, expired: bool)
    | Deliver(i: nat)
    | Acknowledge(i: nat, ok: bool)
    | OtherCase(post: Post)

  predicate Enabled(cfg: Config, s: System, step: Step) {
    var w := s.worker;
    match step
    case Capture(id, _, _, _) => id != "" && id != TEARDOWN && forall c :: c in w.contexts ==> c.id != id
    case Prologue(k, _) => k < |w.contexts|
    case Doubt(k, _) => k < |w.contexts|
    case Send(k, _, _, _) => k < |w.contexts|
    case Report(k, _) => k < |w.contexts|
    case WrapperSettles(k, _) => k < |w.contexts| && w.contexts[k].wrapperPending
    case Attachment(_, _, _) => true
    case Teardown(tab, _) => OperationsOn(w.contexts, tab) != []
    case Resume(d, _) =>
      d < |s.drains| && !s.drains[d].done && s.drains[d].awaited <= s.drains[d].drained <= |w.acks|
      && Pending !in w.acks[s.drains[d].awaited..s.drains[d].drained]
    case Deliver(i) => i < |w.emitted| && i !in s.arrivals
    case Acknowledge(i, ok) => i < |w.acks| && w.acks[i].Pending? && (ok ==> i in s.arrivals)
    case OtherCase(post) => post.caseId != cfg.caseId
  }

  function Perform(cfg: Config, s: System, step: Step): System
    requires Enabled(cfg, s, step)
  {
    var w := s.worker;
    match step
    case Capture(id, tab, session, path) => s.(worker := StartCapture(cfg.clock, w, id, tab, session, path))
    case Prologue(k, actual) =>
      s.(worker := w.(contexts := w.contexts[k := SendPrologue(w.contexts[k], actual)]))
    case Doubt(k, reason) => s.(worker := InvalidateAt(w, k, reason))
    case Send(k, captureId, actual, control) => s.(worker := SendNative(cfg.clock, w, k, captureId, actual, control))
    case Report(k, kind) => s.(worker := Emit(cfg.clock, w, w.contexts[k].id, Other(kind)))
    case WrapperSettles(k, answered) => s.(worker := Settle(cfg.clock, w, k, answered))
    case Attachment(target, reason, advance) =>
      var w' := ChangeAttachment(cfg.clock, w, target, reason, advance);
      if target.tabId.None? then s.(worker := w')
      else
        var tab := target.tabId.value;
        var epoch := EpochOf(w.epochs, Some(tab)) + (if advance then 1 else 0);
        s.(worker := w', changes := s.changes
             + [Change(tab, Mark(cfg.clock(w.ticks), reason, epoch), cfg.clock(w'.ticks))])
    case Teardown(tab, expired) =>
      var (w', d) := DrainTurn(cfg.clock, w, NewDrain(OperationsOn(w.contexts, tab)), expired);
      s.(worker := w', drains := s.drains + [d])
    case Resume(d, expired) =>
      var (w', d') := DrainTurn(cfg.clock, w, Awaited(w, s.drains[d]), expired);
      s.(worker := w', drains := s.drains[d := d'])
    case Deliver(i) =>
      s.(traces := s.traces + [Post(cfg.caseId, w.emitted[i])], arrivals := s.arrivals + [i])
    case Acknowledge(i, ok) => s.(worker := w.(acks := w.acks[i := Answered(ok)]))
    case OtherCase(post) => s.(traces := s.traces + [post])
  }

  /** A step that is not enabled does nothing, so every sequence of steps is a run. */
  function Next(cfg: Config, s: System, step: Step): System {
    if Enabled(cfg, s, step) then Perform(cfg, s, step) else s
  }

  const INITIAL := System(FRESH, [], [], [], [])

  /** The state after a run. */
  function Run(cfg: Config, steps: seq<Step>): System {
    if steps == [] then INITIAL
    else Next(cfg, Run(cfg, steps[..|steps| - 1]), steps[|steps| - 1])
  }

  /** `Fixture.events`: the stored events of one case, in arrival order. */
  function EventsOf(traces: seq<Post>, caseId: string): seq<Event> {
    if traces == [] then []
    else
      var rest := EventsOf(traces[..|traces| - 1], caseId);
      var p := traces[|traces| - 1];
      if p.caseId == caseId then rest + [p.event] else rest
  }

  ghost predicate Strict(clock: Clock) {
    forall i: nat, j: nat :: i < j ==> clock(i) < clock(j)
  }
}
