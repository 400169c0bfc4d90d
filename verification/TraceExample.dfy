/** A run whose capture the probe accepts: the conditions of acceptance can be met. */
module TraceExample {
  import opened Common
  import opened TraceObserver
  import opened TraceChecker
  import opened TraceProtocol
  import opened TraceTheorems
  import opened TraceAcceptance
  import opened TraceCapture

  const TAB := Target(Some(1), None)
  const PROPER := Control(true, true, 1.0)

  /** One tab was attached once, and nothing else was ever attached. */
  ghost predicate Attached(w: Worker) {
    w.epochs == map[1 := 1] && 1 in w.history && w.lost == {}
  }

  lemma OneStepMore(cfg: Config, steps: seq<Step>, step: Step)
    requires Enabled(cfg, Run(cfg, steps), step)
    ensures Run(cfg, steps + [step]) == Perform(cfg, Run(cfg, steps), step)
  {
    assert (steps + [step])[..|steps|] == steps;
  }

  // ---- one undisturbed capture ----

  ghost function Started(cfg: Config, w: Worker, id: string, path: string): Worker {
    w.(contexts := w.contexts + [Context(id, TAB, 1, cfg.clock(w.ticks), true, [], [], path)],
       emitted := w.emitted + [Event(id, OperationStart(TAB, 1, path), cfg.clock(w.ticks + 1))],
       acks := w.acks + [Pending], ticks := w.ticks + 2)
  }

  lemma StartIs(cfg: Config, w: Worker, id: string, path: string)
    requires Attached(w)
    ensures StartCapture(cfg.clock, w, id, 1, None, path) == Started(cfg, w, id, path)
  {
  }

  ghost function Sent(cfg: Config, w: Worker, k: nat, captureId: string): Worker
    requires k < |w.contexts| && 1 in w.history
  {
    var c := w.contexts[k];
    w.(contexts := w.contexts[k := c.(attempts := [Attempt(captureId, TAB, 1)])],
       emitted := w.emitted
         + [Event(c.id, NativeSend(captureId, TAB, 1, PROPER, w.history[1], false), cfg.clock(w.ticks))],
       acks := w.acks + [Pending], ticks := w.ticks + 1)
  }

  lemma SendIs(cfg: Config, w: Worker, k: nat, captureId: string)
    requires Attached(w) && k < |w.contexts| && w.contexts[k].epochAtStart == 1 && w.contexts[k].attempts == []
    ensures SendNative(cfg.clock, w, k, captureId, TAB, PROPER) == Sent(cfg, w, k, captureId)
  {
    assert SendChecks(w.contexts[k], PROPER, 1) == w.contexts[k];
    assert [] + [Attempt(captureId, TAB, 1)] == [Attempt(captureId, TAB, 1)];
  }

  ghost function Settled(cfg: Config, w: Worker, k: nat): Worker
    requires k < |w.contexts|
  {
    var c := w.contexts[k];
    w.(contexts := w.contexts[k := c.(wrapperPending := false)],
       emitted := w.emitted + [Event(c.id, WrapperEnd(true, 1, c.invalidations, c.attempts), cfg.clock(w.ticks))],
       acks := w.acks + [Pending], ticks := w.ticks + 1)
  }

  lemma SettleIs(cfg: Config, w: Worker, k: nat)
    requires Attached(w) && k < |w.contexts| && w.contexts[k].requested == TAB
    ensures Settle(cfg.clock, w, k, true) == Settled(cfg, w, k)
  {
  }

  ghost function Done(cfg: Config, id: string, path: string, captureId: string, tick: nat): Context {
    Context(id, TAB, 1, cfg.clock(tick), false, [Attempt(captureId, TAB, 1)], [], path)
  }

  /** The three events of a capture. */
  ghost function Three(cfg: Config, id: string, path: string, captureId: string, marks: seq<Mark>, tick: nat)
    : seq<Event>
  {
    [Event(id, OperationStart(TAB, 1, path), cfg.clock(tick + 1)),
     Event(id, NativeSend(captureId, TAB, 1, PROPER, marks, false), cfg.clock(tick + 2)),
     Event(id, WrapperEnd(true, 1, [], [Attempt(captureId, TAB, 1)]), cfg.clock(tick + 3))]
  }

  ghost function Captured(cfg: Config, w: Worker, id: string, path: string, captureId: string): Worker
    requires 1 in w.history
  {
    w.(contexts := w.contexts + [Done(cfg, id, path, captureId, w.ticks)],
       emitted := w.emitted + Three(cfg, id, path, captureId, w.history[1], w.ticks),
       acks := w.acks + [Pending, Pending, Pending], ticks := w.ticks + 4)
  }

  ghost function CaptureSteps(k: nat, id: string, path: string, captureId: string): seq<Step> {
    [Capture(id, 1, None, path), Send(k, captureId, TAB, PROPER), WrapperSettles(k, true)]
  }

  lemma CapturedIs(cfg: Config, w: Worker, id: string, path: string, captureId: string)
    requires Attached(w)
    ensures var a := Started(cfg, w, id, path);
      Settled(cfg, Sent(cfg, a, |w.contexts|, captureId), |w.contexts|) == Captured(cfg, w, id, path, captureId)
  {
  }

  lemma CaptureRuns(cfg: Config, steps: seq<Step>, s: System, id: string, path: string, captureId: string)
    requires Run(cfg, steps) == s && Attached(s.worker)
    requires id != "" && id != TEARDOWN && forall c :: c in s.worker.contexts ==> c.id != id
    ensures Run(cfg, steps + CaptureSteps(|s.worker.contexts|, id, path, captureId))
         == s.(worker := Captured(cfg, s.worker, id, path, captureId))
  {
    var k := |s.worker.contexts|;
    var three := CaptureSteps(k, id, path, captureId);
    var a := Started(cfg, s.worker, id, path);
    var b := Sent(cfg, a, k, captureId);
    hide Run, StartCapture, SendNative, Settle;
    StartIs(cfg, s.worker, id, path);
    OneStepMore(cfg, steps, three[0]);
    SendIs(cfg, a, k, captureId);
    OneStepMore(cfg, steps + [three[0]], three[1]);
    SettleIs(cfg, b, k);
    OneStepMore(cfg, steps + [three[0]] + [three[1]], three[2]);
    CapturedIs(cfg, s.worker, id, path, captureId);
    assert steps + three == steps + [three[0]] + [three[1]] + [three[2]];
  }

  // ---- the whole run ----

  ghost function Attach(cfg: Config): System {
    var mark := Mark(cfg.clock(0), "attached", 1);
    INITIAL.(worker := FRESH.(epochs := map[1 := 1], history := map[1 := [mark]], ticks := 1),
             changes := [Change(1, mark, cfg.clock(1))])
  }

  lemma AttachRuns(cfg: Config)
    ensures Run(cfg, [Attachment(TAB, "attached", true)]) == Attach(cfg)
  {
    var step := Attachment(TAB, "attached", true);
    assert [step][..0] == [];
    OneStepMore(cfg, [], step);
    assert Run(cfg, []) == INITIAL;
    assert [] + [step] == [step];
    var r := RecordChange(cfg.clock, FRESH, 1, "attached", true);
    NotifyEnds(cfg.clock, r, 1, TAB, "attached");
    FirstMark(cfg);
    assert [] + [Change(1, Mark(cfg.clock(0), "attached", 1), cfg.clock(1))] == Attach(cfg).changes;
  }

  lemma FirstMark(cfg: Config)
    ensures RecordChange(cfg.clock, FRESH, 1, "attached", true) == Attach(cfg).worker
  {
    var mark := Mark(cfg.clock(0), "attached", 1);
    var nothing: seq<Mark> := [];
    assert nothing + [mark] == [mark];
    var noEpochs: map<int, nat>, noHistory: map<int, seq<Mark>> := map[], map[];
    assert noEpochs[1 := 1] == map[1 := 1] && noHistory[1 := [mark]] == map[1 := [mark]];
  }

  ghost function Deliveries(n: nat): seq<Step> { if n == 0 then [] else Deliveries(n - 1) + [Deliver(n - 1)] }

  ghost function Places(n: nat): (r: seq<nat>)
    ensures |r| == n && forall i :: 0 <= i < n ==> r[i] == i
  {
    if n == 0 then [] else Places(n - 1) + [n - 1]
  }

  ghost function Posts(cfg: Config, emitted: seq<Event>, n: nat): seq<Post>
    requires n <= |emitted|
  {
    if n == 0 then [] else Posts(cfg, emitted, n - 1) + [Post(cfg.caseId, emitted[n - 1])]
  }

  lemma {:induction false} DeliveriesRun(cfg: Config, steps: seq<Step>, s: System, n: nat)
    requires Run(cfg, steps) == s && s.traces == [] && s.arrivals == [] && n <= |s.worker.emitted|
    ensures Run(cfg, steps + Deliveries(n)) == s.(traces := Posts(cfg, s.worker.emitted, n), arrivals := Places(n))
  {
    if n == 0 {
      assert steps + [] == steps;
    } else {
      DeliveriesRun(cfg, steps, s, n - 1);
      hide Run;
      Regroup(steps, Deliveries(n - 1), [Deliver(n - 1)]);
      OneStepMore(cfg, steps + Deliveries(n - 1), Deliver(n - 1));
    }
  }

  ghost function Answers(n: nat): seq<Step> { if n == 0 then [] else Answers(n - 1) + [Acknowledge(n - 1, true)] }

  ghost function Acked(acks: seq<Ack>, n: nat): (r: seq<Ack>)
    requires n <= |acks|
    ensures |r| == |acks| && forall i :: 0 <= i < |acks| ==> r[i] == if i < n then Answered(true) else acks[i]
  {
    if n == 0 then acks else Acked(acks, n - 1)[n - 1 := Answered(true)]
  }

  lemma AnswerIs(cfg: Config, s: System, i: nat)
    requires i < |s.worker.acks| && s.worker.acks[i].Pending? && i in s.arrivals
    ensures Enabled(cfg, s, Acknowledge(i, true))
    ensures Perform(cfg, s, Acknowledge(i, true))
         == s.(worker := s.worker.(acks := s.worker.acks[i := Answered(true)]))
  {
  }

  lemma AckedNext(acks: seq<Ack>, n: nat)
    requires 0 < n <= |acks|
    ensures Acked(acks, n) == Acked(acks, n - 1)[n - 1 := Answered(true)]
  {
  }

  ghost function AllAnswered(s: System, n: nat): System
    requires n <= |s.worker.acks|
  {
    s.(worker := s.worker.(acks := Acked(s.worker.acks, n)))
  }

  lemma AnswersNext(cfg: Config, steps: seq<Step>, s: System, n: nat)
    requires n < |s.worker.acks| && s.worker.acks[n].Pending? && n in s.arrivals && Run(cfg, steps) == AllAnswered(s, n)
    ensures Run(cfg, steps + [Acknowledge(n, true)]) == AllAnswered(s, n + 1)
  {
    hide Run, Perform, Enabled, Acked;
    AckedNext(s.worker.acks, n + 1);
    AnswerIs(cfg, AllAnswered(s, n), n);
    OneStepMore(cfg, steps, Acknowledge(n, true));
  }

  lemma {:induction false} AnswersRun(cfg: Config, steps: seq<Step>, s: System, n: nat)
    requires Run(cfg, steps) == s && n <= |s.worker.acks| && s.arrivals == Places(|s.worker.acks|)
    requires forall i :: 0 <= i < |s.worker.acks| ==> s.worker.acks[i].Pending?
    ensures Run(cfg, steps + Answers(n)) == AllAnswered(s, n)
  {
    if n == 0 {
      assert steps + [] == steps;
    } else {
      AnswersRun(cfg, steps, s, n - 1);
      hide Run, Places, AllAnswered;
      Regroup(steps, Answers(n - 1), [Acknowledge(n - 1, true)]);
      assert s.arrivals[n - 1] == n - 1;
      AnswersNext(cfg, steps + Answers(n - 1), s, n - 1);
    }
  }

  /** The worker after both captures. */
  ghost function Both(cfg: Config): Worker {
    Captured(cfg, Captured(cfg, Attach(cfg).worker, "w", "/warmup", "a"), "r", "/report", "b")
  }

  ghost function BothSteps(): seq<Step> {
    [Attachment(TAB, "attached", true)] + CaptureSteps(0, "w", "/warmup", "a") + CaptureSteps(1, "r", "/report", "b")
  }

  lemma BothRun(cfg: Config)
    ensures Run(cfg, BothSteps()) == Attach(cfg).(worker := Both(cfg))
  {
    var first := [Attachment(TAB, "attached", true)];
    AttachRuns(cfg);
    hide Run, CaptureSteps;
    CaptureRuns(cfg, first, Attach(cfg), "w", "/warmup", "a");
    var s := Attach(cfg).(worker := Captured(cfg, Attach(cfg).worker, "w", "/warmup", "a"));
    CaptureRuns(cfg, first + CaptureSteps(0, "w", "/warmup", "a"), s, "r", "/report", "b");
  }

  lemma BothIs(cfg: Config)
    ensures var w, marks := Both(cfg), [Mark(cfg.clock(0), "attached", 1)];
      && w.emitted == Three(cfg, "w", "/warmup", "a", marks, 1) + Three(cfg, "r", "/report", "b", marks, 5)
      && w.contexts == [Done(cfg, "w", "/warmup", "a", 1), Done(cfg, "r", "/report", "b", 5)]
      && w.acks == [Pending, Pending, Pending, Pending, Pending, Pending] && w.ticks == 9
  {
  }

  lemma OneMoreOnTab(contexts: seq<Context>, c: Context)
    requires c.requested == TAB
    ensures OperationsOn(contexts + [c], 1) == OperationsOn(contexts, 1) + [c.id]
  {
    assert (contexts + [c])[..|contexts|] == contexts;
  }

  lemma BothOnTab(cfg: Config)
    ensures OperationsOn(Both(cfg).contexts, 1) == ["w", "r"]
  {
    BothIs(cfg);
    var w, r := Done(cfg, "w", "/warmup", "a", 1), Done(cfg, "r", "/report", "b", 5);
    assert OperationsOn([], 1) == [];
    hide Both, OperationsOn;
    OneMoreOnTab([], w);
    OneMoreOnTab([w], r);
    assert [] + [w] == [w] && [w] + [r] == [w, r];
    assert [] + ["w"] + ["r"] == ["w", "r"];
  }

  /** All six events are delivered and acknowledged. */
  ghost function Quiet(cfg: Config): System
    requires |Both(cfg).emitted| == |Both(cfg).acks| == 6
  {
    Attach(cfg).(worker := Both(cfg).(acks := Acked(Both(cfg).acks, 6)),
                 traces := Posts(cfg, Both(cfg).emitted, 6), arrivals := Places(6))
  }

  ghost function QuietSteps(): seq<Step> { BothSteps() + Deliveries(6) + Answers(6) }

  lemma QuietRuns(cfg: Config)
    ensures |Both(cfg).emitted| == |Both(cfg).acks| == 6
    ensures Run(cfg, QuietSteps()) == Quiet(cfg)
  {
    BothIs(cfg);
    BothRun(cfg);
    hide Run, Both, BothSteps, Deliveries, Answers, Posts, Places, Acked;
    var s := Attach(cfg).(worker := Both(cfg));
    DeliveriesRun(cfg, BothSteps(), s, 6);
    var delivered := s.(traces := Posts(cfg, Both(cfg).emitted, 6), arrivals := Places(6));
    AnswersRun(cfg, BothSteps() + Deliveries(6), delivered, 6);
    assert AllAnswered(delivered, 6) == Quiet(cfg);
  }

  ghost function Fence(cfg: Config): Event { Event(TEARDOWN, TeardownStart(true, ["w", "r"]), cfg.clock(9)) }

  ghost function FencedSteps(): seq<Step> { QuietSteps() + [Teardown(1, false)] + [Resume(0, false)] + [Deliver(6)] }

  ghost predicate IsFenced(cfg: Config, s: System) {
    && |Both(cfg).emitted| == 6
    && s.worker.emitted == Both(cfg).emitted + [Fence(cfg)]
    && s.arrivals == Places(6) + [6]
  }

  lemma FencedRuns(cfg: Config)
    ensures IsFenced(cfg, Run(cfg, FencedSteps()))
  {
    QuietRuns(cfg);
    BothIs(cfg);
    BothOnTab(cfg);
    hide Run, QuietSteps, Posts, Places, Both, Acked, OperationsOn, Three;
    var s := Quiet(cfg);
    var d := Drain(["w", "r"], 0, 6, true, false);
    var waiting := s.(drains := [d]);
    OneStepMore(cfg, QuietSteps(), Teardown(1, false));
    assert [] + [d] == [d];
    assert Perform(cfg, s, Teardown(1, false)) == waiting;
    var before := QuietSteps() + [Teardown(1, false)];
    assert s.worker.acks[0..6] == s.worker.acks;
    OneStepMore(cfg, before, Resume(0, false));
    var fenced := Perform(cfg, waiting, Resume(0, false));
    assert fenced.worker.emitted == Both(cfg).emitted + [Fence(cfg)] && fenced.arrivals == Places(6);
    OneStepMore(cfg, before + [Resume(0, false)], Deliver(6));
  }

  ghost function Shown(e: seq<Event>): Evidence
    requires |e| >= 6
  {
    Evidence(e[3], e[4], e[5], e[0], e[1], e[2])
  }

  lemma FencedIsAcceptable(cfg: Config, s: System)
    requires IsFenced(cfg, s)
    ensures Acceptable(s, 6)
  {
    BothIs(cfg);
    hide Both;
    assert s.arrivals[6] == 6;
  }

  lemma SixBefore(cfg: Config, s: System, e: Event)
    requires IsFenced(cfg, s)
    ensures Before(s, 6, e) <==> e in s.worker.emitted[..6]
  {
    BothIs(cfg);
    hide Both;
    var log := s.worker.emitted;
    assert log[6] == Fence(cfg) && log[..6] == Both(cfg).emitted;
    if e in log[..6] {
      var i :| 0 <= i < 6 && log[..6][i] == e;
      assert log[i] == e;
    }
  }

  lemma SixAre(cfg: Config, s: System, e: Event)
    requires IsFenced(cfg, s)
    ensures var log := s.worker.emitted;
      && |log| == 7
      && (Before(s, 6, e) <==>
            e == log[0] || e == log[1] || e == log[2] || e == log[3] || e == log[4] || e == log[5])
  {
    SixBefore(cfg, s, e);
    hide Both, Before;
  }

  lemma FencedIsShown(cfg: Config, s: System)
    requires IsFenced(cfg, s)
    ensures |s.worker.emitted| == 7
    ensures OneReport(s, 6, Shown(s.worker.emitted)) && OneWarmUp(s, 6, Shown(s.worker.emitted))
  {
    BothIs(cfg);
    var log := s.worker.emitted;
    hide Both, Before;
    assert |log| == 7;
    forall e
      ensures Before(s, 6, e) <==>
        e == log[0] || e == log[1] || e == log[2] || e == log[3] || e == log[4] || e == log[5]
    {
      SixAre(cfg, s, e);
    }
    assert log[0] == Both(cfg).emitted[0] && log[1] == Both(cfg).emitted[1] && log[2] == Both(cfg).emitted[2];
    assert log[3] == Both(cfg).emitted[3] && log[4] == Both(cfg).emitted[4] && log[5] == Both(cfg).emitted[5];
  }

  lemma FencedFits(cfg: Config, s: System)
    requires Strict(cfg.clock) && IsFenced(cfg, s)
    ensures |s.worker.emitted| == 7
    ensures var c := Shown(s.worker.emitted);
      ReportFits(c.start, c.sent, c.end) && WarmUpFits(c.sent, c.warmSent, c.warmEnd)
  {
    BothIs(cfg);
    hide Both;
  }

  /** Such a run exists under every clock: the probe can accept a capture. */
  lemma AcceptedRun(cfg: Config)
    requires Strict(cfg.clock)
    ensures CaptureContext(EventsOf(Run(cfg, FencedSteps()).traces, cfg.caseId)).Some?
  {
    hide Run, FencedSteps, IsFenced, Acceptable, OneReport, OneWarmUp, ReportFits, WarmUpFits;
    var s := Run(cfg, FencedSteps());
    FencedRuns(cfg);
    FencedIsAcceptable(cfg, s);
    FencedIsShown(cfg, s);
    FencedFits(cfg, s);
    assert Convincing(s, 6, Shown(s.worker.emitted));
    CaptureAcceptance(cfg, FencedSteps());
  }
}
