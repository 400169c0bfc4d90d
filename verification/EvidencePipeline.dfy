/**
 * The injection-evidence pipeline put together: a fixture server's run, a transport that returns each reply
 * to its own call, the normalizer, and the verifier's per-trial checks.
 */
module EvidencePipeline {
  import opened Common
  import opened EvidenceTypes
  import opened FixtureServer
  import opened TrialNormalizer
  import opened EvidenceVerifier
  import opened EvidenceReport
  import opened ReleaseGate

  /** What the transport promises about one call: its result is the reply to an invocation with its tool and input. */
  ghost predicate Carried(trial: Trial, invs: seq<Invocation>, t: Transcript, call: ModelCall, k: nat)
    requires call.id in t.results && k < |invs|
  {
    && invs[k].tool == call.tool && invs[k].args == call.input
    && t.results[call.id] == ToolResult(ReplyTo(trial, invs, k).text, ReplyTo(trial, invs, k).isError)
  }

  ghost predicate Faithful(trial: Trial, invs: seq<Invocation>, t: Transcript) {
    forall i :: 0 <= i < |t.calls| && t.calls[i].id in t.results ==>
      exists k: nat :: k < |invs| && Carried(trial, invs, t, t.calls[i], k)
  }

  /** Record `k` of the server and its invocation are the ones that `call` made. */
  ghost predicate MadeBy(trial: Trial, invs: seq<Invocation>, call: ModelCall, canary: ServerEvent, k: nat)
    requires k < |invs|
  {
    && invs[k].tool == call.tool && invs[k].args == call.input
    && Accepts(trial, invs[k])
    && canary == ServerEvent(call.id, trial.caseId, trial.nonce, Happened(call.tool.value), trial.fixtureSha,
                             trial.binarySha)
  }

  /** `match_` pairs calls and server records one to one, each call with its own record. */
  ghost predicate Bijection(trial: Trial, invs: seq<Invocation>, calls: seq<ModelCall>, canaries: seq<ServerEvent>,
                            match_: seq<nat>)
  {
    && |match_| == |calls| == |canaries| == |invs|
    && Distinct(match_)
    && (forall k: nat :: k < |invs| ==> k in match_)
    && (forall i :: 0 <= i < |match_| ==> match_[i] < |invs| && MadeBy(trial, invs, calls[i], canaries[i], match_[i]))
  }

  /** A call that was bound to a record by its result is bound to the record of its own invocation. */
  lemma BoundToItsOwn(trial: Trial, invs: seq<Invocation>, t: Transcript, records: map<string, Record>, call: ModelCall,
                      event: ModelEvent, canary: ServerEvent, k: nat)
    requires ByReceipt(Served(trial, invs).log) == Some(records)
    requires BoundCall(t.results, records, call, event, canary, trial.caseId, trial.nonce)
    requires k < |invs| && Carried(trial, invs, t, call, k)
    ensures |Served(trial, invs).log| == |invs|
    ensures Served(trial, invs).log[k].Logged?
    ensures ReceiptIn(t.results, call) == Some(Served(trial, invs).log[k].receipt)
    ensures MadeBy(trial, invs, call, canary, k)
  {
    var log := Served(trial, invs).log;
    RunIsNumbered(trial, invs);
    RecordOfReply(trial, invs, k);
    var n: nat :| n <= Served(trial, invs).calls && log[k].receipt == Receipt(n);
    TagIsFound(n, t.results[call.id].text);
    RecordsByReceipt(log);
    var j :| 0 <= j < |log| && log[j].receipt == log[k].receipt && records[log[k].receipt] == log[j];
    assert j == k;
  }

  ghost function Below(n: nat): (r: set<nat>)
    ensures |r| == n && forall k: nat :: k in r <==> k < n
  {
    if n == 0 then {} else Below(n - 1) + {n - 1}
  }

  lemma Onto(match_: seq<nat>, n: nat)
    requires Distinct(match_)
    requires forall i :: 0 <= i < |match_| ==> match_[i] < n
    requires forall k: nat :: k < n ==> k in match_
    ensures |match_| == n
  {
    DistinctCount(match_);
    var image := set i | 0 <= i < |match_| :: match_[i];
    forall k: nat | k < n
      ensures k in image
    {
      assert k in match_;
    }
    assert image == Below(n);
  }

  /**
   * Whatever receipt-like text the pages contain: if the normalizer accepts a trial, then calls and server
   * records correspond one to one, each call with the record of its own invocation, and call ids are distinct.
   */
  lemma {:induction false} AcceptedIsBijective(trial: Trial, invs: seq<Invocation>, stream: seq<Message>)
    returns (match_: seq<nat>)
    requires Normalize(stream, trial.caseId, trial.nonce, Served(trial, invs).log).Ok?
    requires Faithful(trial, invs, Gather(stream))
    ensures var n := Normalize(stream, trial.caseId, trial.nonce, Served(trial, invs).log).value;
      Bijection(trial, invs, Gather(stream).calls, n.canaries, match_)
    ensures forall i, j | 0 <= i < j < |Gather(stream).calls| ::
              Gather(stream).calls[i].id != Gather(stream).calls[j].id
  {
    var t, log := Gather(stream), Served(trial, invs).log;
    var records := ByReceipt(log).value;
    var b := Bind(trial.caseId, trial.nonce, t.results, records, t.calls).value;
    BindBinds(trial.caseId, trial.nonce, t.results, records, t.calls);
    BoundIdsAreDistinct(t.results, records, t.calls, b, trial.caseId, trial.nonce);
    match_ := Matching(trial, invs, t, records, b);
  }

  lemma Matching(trial: Trial, invs: seq<Invocation>, t: Transcript, records: map<string, Record>, b: Binding)
    returns (match_: seq<nat>)
    requires ByReceipt(Served(trial, invs).log) == Some(records)
    requires Bound(t.results, records, t.calls, b, trial.caseId, trial.nonce) && records.Keys == b.used
    requires Faithful(trial, invs, t)
    ensures Bijection(trial, invs, t.calls, b.canaries, match_)
  {
    hide MadeBy, Served, ByReceipt, BoundCall, Bound, Own;
    var log := Served(trial, invs).log;
    match_ := [];
    for i := 0 to |t.calls|
      invariant |match_| == i
      invariant forall j :: 0 <= j < i ==> Own(trial, invs, log, t, b, j, match_[j])
    {
      var k := OwnExists(trial, invs, t, records, b, i);
      match_ := match_ + [k];
    }
    MatchingIsOnto(trial, invs, log, t, b, records, match_);
  }

  ghost predicate Own(trial: Trial, invs: seq<Invocation>, log: seq<Record>, t: Transcript, b: Binding, i: nat,
                      k: nat)
  {
    && i < |t.calls| && i < |b.canaries| && k < |invs| && k < |log| && log[k].Logged?
    && ReceiptIn(t.results, t.calls[i]) == Some(log[k].receipt)
    && MadeBy(trial, invs, t.calls[i], b.canaries[i], k)
  }

  lemma OwnExists(trial: Trial, invs: seq<Invocation>, t: Transcript, records: map<string, Record>, b: Binding, i: nat)
    returns (k: nat)
    requires ByReceipt(Served(trial, invs).log) == Some(records)
    requires Bound(t.results, records, t.calls, b, trial.caseId, trial.nonce)
    requires Faithful(trial, invs, t) && i < |t.calls|
    ensures Own(trial, invs, Served(trial, invs).log, t, b, i, k)
  {
    hide MadeBy, ByReceipt, Served;
    assert BoundCall(t.results, records, t.calls[i], b.events[i], b.canaries[i], trial.caseId, trial.nonce);
    k :| k < |invs| && Carried(trial, invs, t, t.calls[i], k);
    BoundToItsOwn(trial, invs, t, records, t.calls[i], b.events[i], b.canaries[i], k);
  }

  lemma MatchingIsOnto(trial: Trial, invs: seq<Invocation>, log: seq<Record>, t: Transcript, b: Binding,
                       records: map<string, Record>, match_: seq<nat>)
    requires log == Served(trial, invs).log && ByReceipt(log) == Some(records)
    requires Bound(t.results, records, t.calls, b, trial.caseId, trial.nonce) && records.Keys == b.used
    requires |match_| == |t.calls| && forall i :: 0 <= i < |match_| ==> Own(trial, invs, log, t, b, i, match_[i])
    ensures Bijection(trial, invs, t.calls, b.canaries, match_)
  {
    hide MadeBy, Served, ByReceipt, BoundCall, Own, ReceiptIn;
    forall i, j | 0 <= i < j < |match_|
      ensures match_[i] != match_[j]
    {
      assert ReceiptIn(t.results, t.calls[i]) != ReceiptIn(t.results, t.calls[j]);
      OwnReceipt(trial, invs, log, t, b, i, match_[i]);
      OwnReceipt(trial, invs, log, t, b, j, match_[j]);
    }
    forall k: nat | k < |invs|
      ensures k in match_
    {
      var i := CallOfRecord(trial, invs, log, t, b, records, match_, k);
      assert match_[i] == k;
    }
    forall i | 0 <= i < |match_|
      ensures match_[i] < |invs| && MadeBy(trial, invs, t.calls[i], b.canaries[i], match_[i])
    {
      OwnReceipt(trial, invs, log, t, b, i, match_[i]);
    }
    Onto(match_, |invs|);
  }

  lemma OwnReceipt(trial: Trial, invs: seq<Invocation>, log: seq<Record>, t: Transcript, b: Binding, i: nat, k: nat)
    requires Own(trial, invs, log, t, b, i, k)
    ensures i < |t.calls| && i < |b.canaries| && k < |invs| && k < |log| && log[k].Logged?
    ensures ReceiptIn(t.results, t.calls[i]) == Some(log[k].receipt)
    ensures MadeBy(trial, invs, t.calls[i], b.canaries[i], k)
  {
  }

  /** The call that used a record's receipt is matched with that record. */
  lemma CallOfRecord(trial: Trial, invs: seq<Invocation>, log: seq<Record>, t: Transcript, b: Binding,
                     records: map<string, Record>, match_: seq<nat>, k: nat) returns (i: nat)
    requires log == Served(trial, invs).log && ByReceipt(log) == Some(records) && k < |invs|
    requires Bound(t.results, records, t.calls, b, trial.caseId, trial.nonce) && records.Keys == b.used
    requires |match_| == |t.calls| && forall i :: 0 <= i < |match_| ==> Own(trial, invs, log, t, b, i, match_[i])
    ensures i < |match_| && match_[i] == k
  {
    hide MadeBy, Served, ByReceipt, BoundCall, Own, ReceiptIn;
    RunIsNumbered(trial, invs);
    RecordsByReceipt(log);
    assert log[k].receipt in b.used;
    var n :| 0 <= n < |t.calls| && ReceiptIn(t.results, t.calls[n]) == Some(log[k].receipt);
    i := n;
    OwnReceipt(trial, invs, log, t, b, i, match_[i]);
  }

  // ---- what the verifier makes of an accepted trial ----

  function EntryFrom(trial: Trial, repeat: int, n: Normalized): Entry {
    Entry(trial.caseId, repeat, trial.nonce, true, n.events, n.canaries)
  }

  /** Call by call: the trace and the server events of a bijective binding fit the verifier's checks. */
  lemma BijectionCalls(trial: Trial, invs: seq<Invocation>, calls: seq<ModelCall>, events: seq<ModelEvent>,
                       canaries: seq<ServerEvent>, match_: seq<nat>)
    requires Bijection(trial, invs, calls, canaries, match_)
    requires |events| == |calls|
    requires forall i :: 0 <= i < |calls| ==>
               IsId(calls[i].id) && events[i] == ToolEvent(calls[i].id, calls[i].tool, calls[i].input, OkResult)
    requires forall i, j | 0 <= i < j < |calls| :: calls[i].id != calls[j].id
    ensures CallsOk(events, trial.caseId, trial.nonce)
  {
    hide IsId;
    forall i | 0 <= i < |events|
      ensures CallOk(events[i], trial.caseId, trial.nonce)
    {
      assert MadeBy(trial, invs, calls[i], canaries[i], match_[i]);
    }
  }

  lemma BijectionCovers(trial: Trial, invs: seq<Invocation>, calls: seq<ModelCall>, events: seq<ModelEvent>,
                        canaries: seq<ServerEvent>, match_: seq<nat>)
    requires Bijection(trial, invs, calls, canaries, match_)
    requires |events| == |calls|
    requires forall i :: 0 <= i < |calls| ==>
               IsId(calls[i].id) && events[i] == ToolEvent(calls[i].id, calls[i].tool, calls[i].input, OkResult)
    requires forall i, j | 0 <= i < j < |calls| :: calls[i].id != calls[j].id
    ensures CallsOk(events, trial.caseId, trial.nonce)
    ensures Covers(canaries, events, trial.caseId, trial.nonce, trial.fixtureSha, trial.binarySha)
  {
    hide IsId, CallOk;
    BijectionCalls(trial, invs, calls, events, canaries, match_);
    var index := IndexOf(events);
    IndexesIndexOf(index, events);
    forall k | 0 <= k < |canaries|
      ensures canaries[k].callId == events[k].callId
      ensures CanaryOk(canaries[k], index, trial.caseId, trial.nonce, trial.fixtureSha, trial.binarySha)
    {
      assert MadeBy(trial, invs, calls[k], canaries[k], match_[k]);
      assert index[calls[k].id] == events[k];
    }
    SameIds(canaries, events, index);
  }

  lemma SameIds(canaries: seq<ServerEvent>, events: seq<ModelEvent>, index: map<string, ModelEvent>)
    requires Indexes(index, events) && |canaries| == |events|
    requires forall k :: 0 <= k < |canaries| ==> canaries[k].callId == events[k].callId
    ensures CallIds(canaries) == index.Keys
  {
    forall id | id in index
      ensures id in CallIds(canaries)
    {
      var i :| 0 <= i < |events| && events[i].callId == id;
      assert canaries[i] in canaries && canaries[i].callId == id;
    }
  }

  lemma CoveredVerifies(trial: Trial, model: string, events: seq<ModelEvent>, answer: Answer,
                        canaries: seq<ServerEvent>, c: Corpus, case_: Case, repeat: int)
    requires CallsOk(events, trial.caseId, trial.nonce) && case_.fixtureSha == trial.fixtureSha
    requires Covers(canaries, events, trial.caseId, trial.nonce, trial.fixtureSha, trial.binarySha)
    ensures var n :=
        Normalized([InitEvent(model, TOOLS, trial.nonce, trial.caseId)] + events + [AnswerEvent(answer)],
                   canaries, model);
      && n.events[1..|n.events| - 1] == events && n.events[|n.events| - 1] == AnswerEvent(answer)
      && (TrialValid(c, case_, model, trial.binarySha, EntryFrom(trial, repeat, n)) <==>
            ReadSeen(events) && ValidDecision(answer.decision) && Judged(case_, answer, c.expected))
  {
    hide CallsOk, Covers, Judged, ValidDecision;
    var all := [InitEvent(model, TOOLS, trial.nonce, trial.caseId)] + events + [AnswerEvent(answer)];
    assert all[1..|all| - 1] == events;
  }

  lemma EventsOfCalls(trial: Trial, t: Transcript, records: map<string, Record>, b: Binding)
    requires Bind(trial.caseId, trial.nonce, t.results, records, t.calls) == Ok(b)
    ensures |b.events| == |t.calls| == |b.canaries|
    ensures forall i :: 0 <= i < |t.calls| ==>
              && IsId(t.calls[i].id)
              && b.events[i] == ToolEvent(t.calls[i].id, t.calls[i].tool, t.calls[i].input, OkResult)
  {
    hide Bind, IsId;
    BindBinds(trial.caseId, trial.nonce, t.results, records, t.calls);
    forall i | 0 <= i < |t.calls|
      ensures IsId(t.calls[i].id)
      ensures b.events[i] == ToolEvent(t.calls[i].id, t.calls[i].tool, t.calls[i].input, OkResult)
    {
      assert BoundCall(t.results, records, t.calls[i], b.events[i], b.canaries[i], trial.caseId, trial.nonce);
    }
  }

  /**
   * An accepted trial passes every per-trial check of the verifier for its own case, except the three that
   * concern the model's behaviour rather than the binding: that it read the page, that its decision is one
   * of the four, and that a false-fact answer can be judged.
   */
  lemma {:induction false} AcceptedVerifies(trial: Trial, invs: seq<Invocation>, stream: seq<Message>, c: Corpus,
                                            case_: Case, repeat: int)
    requires Normalize(stream, trial.caseId, trial.nonce, Served(trial, invs).log).Ok?
    requires Faithful(trial, invs, Gather(stream))
    requires case_.fixtureSha == trial.fixtureSha
    ensures var n := Normalize(stream, trial.caseId, trial.nonce, Served(trial, invs).log).value;
      var answer := n.events[|n.events| - 1].answer;
      TrialValid(c, case_, n.model, trial.binarySha, EntryFrom(trial, repeat, n)) <==>
        ReadSeen(n.events[1..|n.events| - 1]) && ValidDecision(answer.decision) && Judged(case_, answer, c.expected)
  {
    var t, log := Gather(stream), Served(trial, invs).log;
    var n := Normalize(stream, trial.caseId, trial.nonce, log).value;
    var records := ByReceipt(log).value;
    var b := Bind(trial.caseId, trial.nonce, t.results, records, t.calls).value;
    hide Judged, ValidDecision, ReadSeen, TrialValid;
    var match_ := AcceptedIsBijective(trial, invs, stream);
    EventsOfCalls(trial, t, records, b);
    BijectionCovers(trial, invs, t.calls, b.events, b.canaries, match_);
    CoveredVerifies(trial, n.model, b.events, t.answer.value, b.canaries, c, case_, repeat);
  }

  // ---- from the gate back to the servers ----

  /** The server of this run served reads and nothing else. */
  ghost predicate ServedOnlyReads(trial: Trial, invs: seq<Invocation>) {
    var log := Served(trial, invs).log;
    forall k :: 0 <= k < |log| ==> log[k].Logged? && log[k].event == FixtureRead
  }

  lemma RecordIsRead(trial: Trial, invs: seq<Invocation>, call: ModelCall, canary: ServerEvent, k: nat)
    requires k < |invs| && MadeBy(trial, invs, call, canary, k)
    requires canary.event == FixtureRead || canary.event == ReadBlocked
    ensures |Served(trial, invs).log| == |invs|
    ensures Served(trial, invs).log[k].Logged? ==> Served(trial, invs).log[k].event == FixtureRead
  {
    RecordOfReply(trial, invs, k);
  }

  lemma ReadsInTheLog(trial: Trial, invs: seq<Invocation>, calls: seq<ModelCall>, canaries: seq<ServerEvent>,
                      match_: seq<nat>)
    requires ByReceipt(Served(trial, invs).log).Some?
    requires Bijection(trial, invs, calls, canaries, match_) && OnlyReads(canaries)
    ensures ServedOnlyReads(trial, invs)
  {
    hide MadeBy, Served, ByReceipt;
    RecordsByReceipt(Served(trial, invs).log);
    RunIsNumbered(trial, invs);
    forall k: nat | k < |invs|
      ensures Served(trial, invs).log[k].event == FixtureRead
    {
      assert k in match_;
      var i :| 0 <= i < |match_| && match_[i] == k;
      RecordIsRead(trial, invs, calls[i], canaries[i], k);
    }
  }

  /**
   * All four stages: when the gate gave a verdict on verified evidence without doubting its controls, as it does
   * whenever it accepts, the fixture server behind every control trial really served nothing but reads of the page.
   */
  lemma {:induction false} GateSpeaksForServers(
      c: Corpus, model: string, binarySha: string, entries: seq<Entry>, r: Report, corpusSha: string, policy: Policy,
      age: real, verdict: Result<seq<Reason>, Unverified>, trial: Trial, invs: seq<Invocation>, stream: seq<Message>,
      repeat: int)
    requires Acceptable(c, model, binarySha, entries)
    requires Reports(r.trials, c, CasesById(c), entries) && Summarizes(r, c, CasesById(c), model)
    requires IsVerdict(verdict, r, corpusSha, policy, age) && verdict.Ok? && UnexpectedActions !in verdict.value
    requires Normalize(stream, trial.caseId, trial.nonce, Served(trial, invs).log).Ok?
    requires Faithful(trial, invs, Gather(stream))
    requires var n := Normalize(stream, trial.caseId, trial.nonce, Served(trial, invs).log).value;
      var e := EntryFrom(trial, repeat, n);
      e in entries && IsControl(c, e)
    ensures ServedOnlyReads(trial, invs)
  {
    hide EntriesOk, Reports, Summarizes, Faithful, Normalize, Holds, IsControl, ValidCorpus, IsVerdict;
    var e := EntryFrom(trial, repeat, Normalize(stream, trial.caseId, trial.nonce, Served(trial, invs).log).value);
    GateIsSatisfied(verdict, r, corpusSha, policy, age);
    Controls(c, model, binarySha, entries, r, policy, e);
    var match_ := AcceptedIsBijective(trial, invs, stream);
    Accounted(trial, stream, Served(trial, invs).log);
    ReadsInTheLog(trial, invs, Gather(stream).calls, e.canaries, match_);
  }

  lemma Accounted(trial: Trial, stream: seq<Message>, log: seq<Record>)
    requires Normalize(stream, trial.caseId, trial.nonce, log).Ok?
    ensures ByReceipt(log).Some?
  {
  }

  lemma GateIsSatisfied(verdict: Result<seq<Reason>, Unverified>, r: Report, corpusSha: string, policy: Policy,
                        age: real)
    requires IsVerdict(verdict, r, corpusSha, policy, age) && verdict.Ok? && UnexpectedActions !in verdict.value
    ensures r.planned > 0 && !Holds(UnexpectedActions, policy, r)
  {
  }

  lemma Controls(c: Corpus, model: string, binarySha: string, entries: seq<Entry>, r: Report, policy: Policy, e: Entry)
    requires Acceptable(c, model, binarySha, entries)
    requires Reports(r.trials, c, CasesById(c), entries) && Summarizes(r, c, CasesById(c), model)
    requires r.planned > 0 && !Holds(UnexpectedActions, policy, r)
    requires e in entries && IsControl(c, e)
    ensures OnlyReads(e.canaries)
  {
    hide EntriesOk, Reports, Summarizes, Holds, IsControl, OnlyReads, ValidCorpus;
    ControlsAreJudged(c, model, binarySha, entries, r, policy);
    assert CleanControl(c, e);
  }
}
