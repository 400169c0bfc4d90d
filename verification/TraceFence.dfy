/** When a drain fences, and when its fence is complete, over every run (relay-observer.js, `fixtureEmitTeardown`). */
module TraceFence {
  import opened Common
  import opened TraceObserver
  import opened TraceProtocol
  import opened TraceInvariants
  import opened TraceSteps
  import opened TraceAcceptance

  /** What was awaited has been answered, and the drain is complete so far exactly if all of it was answered ok. */
  ghost predicate DrainExact(acks: seq<Ack>, d: Drain) {
    d.done
    || (d.awaited <= d.drained <= |acks|
        && (forall i :: 0 <= i < d.awaited ==> !acks[i].Pending?)
        && (d.complete <==> forall i :: 0 <= i < d.awaited ==> acks[i] == Answered(true)))
  }

  ghost predicate DrainsExact(s: System) {
    forall d :: 0 <= d < |s.drains| ==> DrainExact(s.worker.acks, s.drains[d])
  }

  /** More posts are awaiting an answer, or some that did have one now. */
  ghost predicate AcksMove(acks: seq<Ack>, acks': seq<Ack>) {
    |acks| <= |acks'| && forall i :: 0 <= i < |acks| && !acks[i].Pending? ==> acks'[i] == acks[i]
  }

  lemma ExactStays(acks: seq<Ack>, acks': seq<Ack>, d: Drain)
    requires DrainExact(acks, d) && AcksMove(acks, acks')
    ensures DrainExact(acks', d)
  {
  }

  lemma StepMovesAcks(cfg: Config, s: System, step: Step)
    requires Strict(cfg.clock) && Stamped(cfg, s.worker) && Enabled(cfg, s, step)
    ensures AcksMove(s.worker.acks, Perform(cfg, s, step).worker.acks)
  {
    if step.Attachment? && step.target.tabId.Some? {
      ChangeExtends(cfg, s.worker, step.target, step.reason, step.advance);
    }
  }

  lemma AwaitedIsExact(w: Worker, d: Drain)
    requires !d.done && DrainExact(w.acks, d) && Pending !in w.acks[d.awaited..d.drained]
    ensures DrainExact(w.acks, Awaited(w, d)) && Awaited(w, d).awaited == Awaited(w, d).drained == d.drained
    ensures Awaited(w, d).operations == d.operations && !Awaited(w, d).done
  {
    var slice := w.acks[d.awaited..d.drained];
    forall i | d.awaited <= i < d.drained
      ensures !w.acks[i].Pending? && w.acks[i] == slice[i - d.awaited]
    {
      assert slice[i - d.awaited] in slice;
    }
  }

  /** A drain whose awaited posts were all answered: it waits for newer posts, or fences. */
  ghost predicate TurnTells(w: Worker, d: Drain, expired: bool, w': Worker, d': Drain) {
    if d.drained < |w.acks| && !expired then
      w' == w && !d'.done && d'.operations == d.operations && d'.drained == |w.acks|
    else
      && |w'.emitted| == |w.emitted| + 1 && w.emitted <= w'.emitted && d'.done && d'.operations == d.operations
      && var fence := w'.emitted[|w.emitted|];
         && fence.operationId == TEARDOWN && fence.body.TeardownStart? && fence.body.operations == d.operations
         && (fence.body.traceComplete <==>
               d.drained == |w.acks| && forall i :: 0 <= i < |w.acks| ==> w.acks[i] == Answered(true))
  }

  lemma TurnIsExact(clock: Clock, w: Worker, d: Drain, expired: bool)
    requires !d.done && DrainExact(w.acks, d) && d.awaited == d.drained
    ensures var (w', d') := DrainTurn(clock, w, d, expired);
      DrainExact(w'.acks, d') && TurnTells(w, d, expired, w', d')
  {
  }

  lemma NextIsExact(cfg: Config, s: System, step: Step)
    requires Strict(cfg.clock) && Stamped(cfg, s.worker) && DrainsExact(s) && Enabled(cfg, s, step)
    ensures DrainsExact(Perform(cfg, s, step))
  {
    hide DrainExact, AcksMove, DrainTurn, Awaited;
    var s' := Perform(cfg, s, step);
    StepMovesAcks(cfg, s, step);
    if step.Teardown? {
      var d := NewDrain(OperationsOn(s.worker.contexts, step.tab));
      FreshIsExact(s.worker.acks, d.operations);
      TurnIsExact(cfg.clock, s.worker, d, step.expired);
    } else if step.Resume? {
      AwaitedIsExact(s.worker, s.drains[step.d]);
      TurnIsExact(cfg.clock, s.worker, Awaited(s.worker, s.drains[step.d]), step.expired);
    }
    forall d | 0 <= d < |s'.drains|
      ensures DrainExact(s'.worker.acks, s'.drains[d])
    {
      if d < |s.drains| {
        ExactStays(s.worker.acks, s'.worker.acks, s.drains[d]);
      }
    }
  }

  lemma FreshIsExact(acks: seq<Ack>, operations: seq<string>)
    ensures DrainExact(acks, NewDrain(operations))
  {
  }

  lemma {:induction false} RunIsExact(cfg: Config, steps: seq<Step>)
    requires Strict(cfg.clock)
    ensures DrainsExact(Run(cfg, steps))
  {
    if steps != [] {
      var prefix := steps[..|steps| - 1];
      RunIsExact(cfg, prefix);
      RunKeeps(cfg, prefix);
      hide DrainsExact, Perform, Enabled;
      if Enabled(cfg, Run(cfg, prefix), steps[|steps| - 1]) {
        NextIsExact(cfg, Run(cfg, prefix), steps[|steps| - 1]);
      }
    } else {
      assert Run(cfg, []) == INITIAL;
    }
  }

  /**
   When the drain fences: over every run, a drain whose awaited posts are answered waits on if there
   are newer posts and time is left, and else fences for its operations. The fence is complete
   exactly if no post is newer and every post was answered ok.
   */
  lemma DrainFences(cfg: Config, steps: seq<Step>, d: nat, expired: bool)
    requires Strict(cfg.clock) && Enabled(cfg, Run(cfg, steps), Resume(d, expired))
    ensures var s := Run(cfg, steps);
      var s' := Run(cfg, steps + [Resume(d, expired)]);
      |s'.drains| == |s.drains| && TurnTells(s.worker, s.drains[d], expired, s'.worker, s'.drains[d])
  {
    hide DrainExact, DrainTurn, TurnTells;
    var s := Run(cfg, steps);
    RunIsExact(cfg, steps);
    RunMore(cfg, steps, Resume(d, expired));
    AwaitedIsExact(s.worker, s.drains[d]);
    TurnIsExact(cfg.clock, s.worker, Awaited(s.worker, s.drains[d]), expired);
    SameTurn(s.worker, s.drains[d], Awaited(s.worker, s.drains[d]), expired);
  }

  lemma SameTurn(w: Worker, d: Drain, e: Drain, expired: bool)
    requires e.drained == d.drained && e.operations == d.operations
    ensures forall w', d' :: TurnTells(w, d, expired, w', d') <==> TurnTells(w, e, expired, w', d')
  {
  }

  lemma RunMore(cfg: Config, steps: seq<Step>, step: Step)
    ensures Run(cfg, steps + [step]) == Next(cfg, Run(cfg, steps), step)
  {
    assert (steps + [step])[..|steps|] == steps;
  }

  /**
   How a drain begins: it is of the tab's operations and waits for every post so far; out of time at
   once, it fences, and not as complete.
   */
  lemma TeardownBegins(cfg: Config, steps: seq<Step>, tab: int, expired: bool)
    requires Strict(cfg.clock) && Enabled(cfg, Run(cfg, steps), Teardown(tab, expired))
    ensures var s := Run(cfg, steps);
      var s' := Run(cfg, steps + [Teardown(tab, expired)]);
      && |s'.drains| == |s.drains| + 1
      && var d := s'.drains[|s.drains|];
         && (forall id :: id in d.operations <==>
               exists k :: 0 <= k < |s.worker.contexts| && s.worker.contexts[k].id == id
                 && s.worker.contexts[k].requested.tabId == Some(tab))
         && (if expired then
               && d.done && |s'.worker.emitted| == |s.worker.emitted| + 1
               && s'.worker.emitted[|s.worker.emitted|].body == TeardownStart(false, d.operations)
             else !d.done && s'.worker == s.worker && d.drained == |s.worker.emitted| > 0)
  {
    var s := Run(cfg, steps);
    RunKeeps(cfg, steps);
    RunAnnounces(cfg, steps);
    RunMore(cfg, steps, Teardown(tab, expired));
    OperationsAreOfTab(s.worker.contexts, tab);
    assert StartedBefore(s.worker.emitted, s.worker.contexts[0].id, |s.worker.emitted|);
  }

  lemma {:induction false} OperationsAreOfTab(contexts: seq<Context>, tab: int)
    ensures forall id :: id in OperationsOn(contexts, tab) <==>
              exists k :: 0 <= k < |contexts| && contexts[k].id == id && contexts[k].requested.tabId == Some(tab)
  {
    if contexts != [] {
      var rest, last := contexts[..|contexts| - 1], contexts[|contexts| - 1];
      OperationsAreOfTab(rest, tab);
      forall id
        ensures id in OperationsOn(contexts, tab) <==>
                exists k :: 0 <= k < |contexts| && contexts[k].id == id && contexts[k].requested.tabId == Some(tab)
      {
        if k :| 0 <= k < |contexts| && contexts[k].id == id && contexts[k].requested.tabId == Some(tab) {
          assert k < |rest| ==> rest[k] == contexts[k];
        }
        if id in OperationsOn(rest, tab) {
          var k :| 0 <= k < |rest| && rest[k].id == id && rest[k].requested.tabId == Some(tab);
          assert contexts[k] == rest[k];
        }
      }
    }
  }
}
