/** What an accepted bundle of evidence conserves (bench/injection-evidence/verify.py). */
module EvidenceTotals {
  import opened Common
  import opened EvidenceTypes
  import opened EvidenceVerifier
  import opened EvidenceReport

  // ---- the trials are the plan ----

  ghost function KeysOf(entries: seq<Entry>): set<Key> {
    set i | 0 <= i < |entries| :: KeyOf(entries[i])
  }

  lemma {:induction false} DistinctKeysCount(entries: seq<Entry>)
    requires SeparateUpTo(entries, |entries|)
    ensures |KeysOf(entries)| == |entries|
  {
    if entries != [] {
      var rest, last := entries[..|entries| - 1], entries[|entries| - 1];
      DistinctKeysCount(rest);
      assert KeysOf(entries) == KeysOf(rest) + {KeyOf(last)};
      assert KeyOf(last) !in KeysOf(rest);
    }
  }

  lemma SameSizeSubset<T>(a: set<T>, b: set<T>)
    requires a <= b && |a| == |b|
    ensures a == b
  {
    assert b == a + (b - a);
    assert |b - a| == 0;
  }

  /** Accepted trials are exactly the planned (case, repeat) pairs: none missing, none twice, none besides. */
  lemma TrialsAreThePlan(c: Corpus, model: string, binarySha: string, entries: seq<Entry>)
    requires Acceptable(c, model, binarySha, entries)
    ensures KeysOf(entries) == Plan(c)
    ensures forall i, j :: 0 <= i < j < |entries| ==> KeyOf(entries[i]) != KeyOf(entries[j])
  {
    hide TrialValid;
    DistinctKeysCount(entries);
    assert forall i :: 0 <= i < |entries| ==> EntryOk(c, CasesById(c), model, binarySha, entries[i]);
    SameSizeSubset(KeysOf(entries), Plan(c));
  }

  // ---- one trial ----

  const ACTIONS: set<EventName> := {RequestReceived, RequestBlocked, ExecuteBlocked, CanaryExecuted}

  ghost function IdsWith(canaries: seq<ServerEvent>, events: set<EventName>): set<string> {
    set k | 0 <= k < |canaries| && canaries[k].event in events :: canaries[k].callId
  }

  ghost function RequestedIds(calls: seq<ModelEvent>): set<string> {
    set i | 0 <= i < |calls| && calls[i].ToolEvent? && calls[i].tool != Some(Read) :: calls[i].callId
  }

  lemma {:induction false} CountIdsWith(canaries: seq<ServerEvent>, events: set<EventName>)
    requires forall k, l :: 0 <= k < l < |canaries| ==> canaries[k].callId != canaries[l].callId
    ensures |IdsWith(canaries, events)| == Count(canaries, events)
  {
    if canaries != [] {
      var rest, last := canaries[..|canaries| - 1], canaries[|canaries| - 1];
      CountIdsWith(rest, events);
      assert last.callId !in IdsWith(rest, events);
      assert forall k :: 0 <= k < |rest| ==> rest[k] == canaries[k];
      if last.event in events {
        assert IdsWith(canaries, events) == IdsWith(rest, events) + {last.callId};
      } else {
        assert IdsWith(canaries, events) == IdsWith(rest, events);
      }
    }
  }

  lemma {:induction false} CountRequestedIds(calls: seq<ModelEvent>)
    requires forall i :: 0 <= i < |calls| ==> calls[i].ToolEvent?
    requires forall i, j :: 0 <= i < j < |calls| ==> calls[i].callId != calls[j].callId
    ensures |RequestedIds(calls)| == Requested(calls)
  {
    if calls != [] {
      var rest, last := calls[..|calls| - 1], calls[|calls| - 1];
      CountRequestedIds(rest);
      assert last.callId !in RequestedIds(rest);
      RequestedIdsAppend(rest, last);
      assert calls == rest + [last];
    }
  }

  lemma RequestedIdsAppend(calls: seq<ModelEvent>, e: ModelEvent)
    requires e.ToolEvent?
    ensures e.tool != Some(Read) ==> RequestedIds(calls + [e]) == RequestedIds(calls) + {e.callId}
    ensures e.tool == Some(Read) ==> RequestedIds(calls + [e]) == RequestedIds(calls)
  {
    var all := calls + [e];
    assert all[|calls|] == e;
    assert forall k :: 0 <= k < |calls| ==> all[k] == calls[k];
  }

  lemma {:induction false} CountSplits(canaries: seq<ServerEvent>, a: set<EventName>, b: set<EventName>)
    requires a !! b
    ensures Count(canaries, a + b) == Count(canaries, a) + Count(canaries, b)
  {
    if canaries != [] {
      CountSplits(canaries[..|canaries| - 1], a, b);
    }
  }

  /** Each server event has its call, and names an action exactly when that call is not a read. */
  lemma ActionOfCall(canary: ServerEvent, calls: seq<ModelEvent>, caseId: string, nonce: string,
                     fixtureSha: string, binarySha: string) returns (i: nat)
    requires CallsOk(calls, caseId, nonce)
    requires CanaryOk(canary, IndexOf(calls), caseId, nonce, fixtureSha, binarySha)
    ensures i < |calls| && calls[i].ToolEvent? && calls[i].callId == canary.callId
    ensures canary.event in ACTIONS <==> calls[i].tool != Some(Read)
  {
    hide IsId;
    var index := IndexOf(calls);
    IndexesIndexOf(index, calls);
    i :| 0 <= i < |calls| && calls[i].callId == canary.callId;
    assert index[canary.callId] == calls[i];
  }

  /** The calls that ask for an action are those with a server event that names one. */
  lemma ActionsAreRequests(canaries: seq<ServerEvent>, calls: seq<ModelEvent>, caseId: string, nonce: string,
                           fixtureSha: string, binarySha: string)
    requires CallsOk(calls, caseId, nonce)
    requires Covers(canaries, calls, caseId, nonce, fixtureSha, binarySha)
    ensures IdsWith(canaries, ACTIONS) == RequestedIds(calls)
  {
    hide CanaryOk, IsId, IndexOf;
    IndexesIndexOf(IndexOf(calls), calls);
    forall id | id in IdsWith(canaries, ACTIONS)
      ensures id in RequestedIds(calls)
    {
      var k :| 0 <= k < |canaries| && canaries[k].event in ACTIONS && canaries[k].callId == id;
      var i := ActionOfCall(canaries[k], calls, caseId, nonce, fixtureSha, binarySha);
    }
    forall i | 0 <= i < |calls| && calls[i].ToolEvent? && calls[i].tool != Some(Read)
      ensures calls[i].callId in IdsWith(canaries, ACTIONS)
    {
      assert calls[i].callId in CallIds(canaries);
      var k :| 0 <= k < |canaries| && canaries[k].callId == calls[i].callId;
      var j := ActionOfCall(canaries[k], calls, caseId, nonce, fixtureSha, binarySha);
      assert j == i;
    }
  }

  /** In a valid trial every action the model asked for was received, blocked or executed, and nothing else was. */
  lemma TrialConserves(c: Corpus, case_: Case, model: string, binarySha: string, e: Entry)
    requires TrialValid(c, case_, model, binarySha, e)
    ensures var o := OutcomeOf(c, case_, e); o.requested == o.received + o.blocked + o.executed
  {
    var calls := Calls(e);
    ActionsAreRequests(e.canaries, calls, e.caseId, e.nonce, case_.fixtureSha, binarySha);
    CountIdsWith(e.canaries, ACTIONS);
    CountRequestedIds(calls);
    CountSplits(e.canaries, {RequestReceived}, {RequestBlocked, ExecuteBlocked});
    CountSplits(e.canaries, {RequestReceived} + {RequestBlocked, ExecuteBlocked}, {CanaryExecuted});
    assert ACTIONS == {RequestReceived} + {RequestBlocked, ExecuteBlocked} + {CanaryExecuted};
  }

  // ---- class totals ----

  /** The totals of the listed classes, added up. */
  function SumOver(keys: seq<string>, classes: map<string, ClassTotals>): ClassTotals {
    if keys == [] then NO_TRIALS
    else Plus(SumOver(keys[..|keys| - 1], classes), Of(classes, keys[|keys| - 1]))
  }

  lemma {:induction false} SumChanges(keys: seq<string>, classes: map<string, ClassTotals>, key: string, t: ClassTotals)
    requires Distinct(keys)
    ensures SumOver(keys, classes[key := Plus(Of(classes, key), t)]) ==
            if key in keys then Plus(SumOver(keys, classes), t) else SumOver(keys, classes)
  {
    if keys != [] {
      SumChanges(keys[..|keys| - 1], classes, key, t);
    }
  }

  /** Whatever the order in which the classes are listed, their totals add up to the totals of all trials. */
  lemma {:induction false} ClassesPartition(outcomes: seq<Outcome>, keys: seq<string>)
    requires Distinct(keys) && forall k | k in ByClass(outcomes) :: k in keys
    ensures SumOver(keys, ByClass(outcomes)) == Overall(outcomes)
  {
    if outcomes == [] {
      NothingSums(keys, ByClass(outcomes));
    } else {
      var rest, last := outcomes[..|outcomes| - 1], outcomes[|outcomes| - 1];
      ClassesPartition(rest, keys);
      assert last.attackClass in ByClass(outcomes);
      SumChanges(keys, ByClass(rest), last.attackClass, Tally(last));
    }
  }

  lemma {:induction false} NothingSums(keys: seq<string>, classes: map<string, ClassTotals>)
    requires classes.Keys == {}
    ensures SumOver(keys, classes) == NO_TRIALS
  {
    if keys != [] {
      hide Plus;
      NothingSums(keys[..|keys| - 1], classes);
      assert keys[|keys| - 1] !in classes.Keys;
      PlusNothing(NO_TRIALS);
    }
  }

  lemma PlusNothing(t: ClassTotals)
    ensures Plus(t, NO_TRIALS) == t
  {
  }

  /** A trial counts as an attack trial or as a benign one, never as both. */
  lemma {:induction false} AttackOrBenign(cases: map<string, Case>, outcomes: seq<Outcome>)
    requires forall i :: 0 <= i < |outcomes| ==> (outcomes[i].attack.None? <==> IsBenign(cases, outcomes[i]))
    ensures Overall(outcomes).attackTrials + |Benign(cases, outcomes)| == |outcomes|
    ensures Overall(outcomes).trials == |outcomes|
  {
    if outcomes != [] {
      AttackOrBenign(cases, outcomes[..|outcomes| - 1]);
    }
  }

  /** The totals of a report: attack trials over the classes plus benign trials make up the plan. */
  lemma {:induction false} ReportConserves(c: Corpus, model: string, binarySha: string, entries: seq<Entry>,
                                           r: Report, keys: seq<string>)
    requires Acceptable(c, model, binarySha, entries)
    requires Reports(r.trials, c, CasesById(c), entries) && Summarizes(r, c, CasesById(c), model)
    requires Distinct(keys) && forall k | k in r.classes :: k in keys
    ensures SumOver(keys, r.classes).trials == r.planned == |r.trials|
    ensures SumOver(keys, r.classes).attackTrials + r.benignTrials == r.planned
    ensures SumOver(keys, r.classes).completed == Overall(r.trials).completed
    ensures forall i :: 0 <= i < |r.trials| ==>
              r.trials[i].requested == r.trials[i].received + r.trials[i].blocked + r.trials[i].executed
  {
    hide TrialValid, ValidCorpus, CasesById, Plan, Benign, ByClass, SumOver, Overall, Count, Requested;
    var cases := CasesById(c);
    ClassesPartition(r.trials, keys);
    forall i | 0 <= i < |r.trials|
      ensures r.trials[i].attack.None? <==> IsBenign(cases, r.trials[i])
      ensures r.trials[i].requested == r.trials[i].received + r.trials[i].blocked + r.trials[i].executed
    {
      assert EntryOk(c, cases, model, binarySha, entries[i]);
      assert r.trials[i] == OutcomeOf(c, cases[entries[i].caseId], entries[i]);
      TrialConserves(c, cases[entries[i].caseId], model, binarySha, entries[i]);
    }
    AttackOrBenign(cases, r.trials);
  }
}
