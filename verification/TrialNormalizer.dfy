/** Binding a trial's model calls to its server records (bench/injection-evidence/runner.py, `normalize`). */
module TrialNormalizer {
  import opened Common
  import opened EvidenceTypes
  import opened FixtureServer

  datatype ModelCall = ModelCall(id: string, tool: Option<Tool>, input: Args)

  datatype ToolResult = ToolResult(text: string, isError: bool)

  /** One line of the model's stream; lines that are not JSON or of no interest are `Noise`. A missing model is "". */
  datatype Message =
    | Init(model: string, tools: seq<Option<Tool>>)
    | AssistantTurn(model: string, calls: seq<ModelCall>)
    | UserTurn(results: seq<(string, ToolResult)>)
    | Final(success: bool, answer: Option<Answer>)
    | Noise

  datatype Transcript = Transcript(
    init: Option<Message>, model: string, calls: seq<ModelCall>, results: map<string, ToolResult>,
    answer: Option<Answer>)

  datatype Refusal =
    NoInit | WrongTools | ServerRefused | OutsideSurface | NoResult | Unmatched | OtherTool | UnclaimedRecord | NoAnswer

  datatype Normalized = Normalized(events: seq<ModelEvent>, canaries: seq<ServerEvent>, model: string)

  // ---- the receipt in a result: leftmost match of `\[receipt (srv-\d+)\]` ----

  const OPENING := "[receipt srv-"

  function DigitsAt(s: string): (r: string)
    ensures r <= s && forall i :: 0 <= i < |r| ==> IsDigit(r[i])
    ensures |r| < |s| ==> !IsDigit(s[|r|])
  {
    if s == "" || !IsDigit(s[0]) then "" else [s[0]] + DigitsAt(s[1..])
  }

  /** The receipt that a match starting at the front of `s` captures. */
  function MatchHere(s: string): Option<string> {
    if !(OPENING <= s) then None
    else
      var digits := DigitsAt(s[|OPENING|..]);
      var end := |OPENING| + |digits|;
      if digits == "" || end >= |s| || s[end] != ']' then None else Some("srv-" + digits)
  }

  function FindReceipt(s: string): Option<string> {
    var here := MatchHere(s);
    if here.Some? then here else if s == "" then None else FindReceipt(s[1..])
  }

  lemma {:induction false} DigitsStop(digits: string, rest: string)
    requires (forall i :: 0 <= i < |digits| ==> IsDigit(digits[i])) && rest != "" && !IsDigit(rest[0])
    ensures DigitsAt(digits + rest) == digits
  {
    if digits == "" {
      assert digits + rest == rest;
    } else {
      assert (digits + rest)[1..] == digits[1..] + rest;
      DigitsStop(digits[1..], rest);
    }
  }

  /** Whatever follows a server tag, receipt-like or not, the search finds the server's receipt. */
  lemma TagIsFound(n: nat, text: string)
    requires Tagged(Receipt(n), "") <= text
    ensures FindReceipt(text) == Some(Receipt(n))
  {
    var digits := Decimal(n);
    var rest := text[|Tagged(Receipt(n), "")|..];
    assert text == Tagged(Receipt(n), "") + rest;
    assert text == OPENING + (digits + ("]" + rest));
    assert text[|OPENING|..] == digits + ("]" + rest);
    DigitsStop(digits, "]" + rest);
    assert text[|OPENING| + |digits|] == ']';
  }

  // ---- gathering the stream ----

  function AddResults(results: map<string, ToolResult>, more: seq<(string, ToolResult)>): map<string, ToolResult> {
    if more == [] then results
    else AddResults(results, more[..|more| - 1])[more[|more| - 1].0 := more[|more| - 1].1]
  }

  function AddMessage(t: Transcript, m: Message): Transcript {
    match m
    case Init(_, _) => t.(init := Some(m))
    case AssistantTurn(model, calls) => t.(model := if t.model != "" then t.model else model, calls := t.calls + calls)
    case UserTurn(results) => t.(results := AddResults(t.results, results))
    case Final(success, answer) => if success then t.(answer := answer) else t
    case Noise => t
  }

  function Gather(stream: seq<Message>): Transcript {
    if stream == [] then Transcript(None, "", [], map[], None)
    else AddMessage(Gather(stream[..|stream| - 1]), stream[|stream| - 1])
  }

  // ---- binding ----

  function ByReceipt(log: seq<Record>): Option<map<string, Record>> {
    if log == [] then Some(map[])
    else
      var rest, last := ByReceipt(log[..|log| - 1]), log[|log| - 1];
      if rest.None? || !last.Logged? then None else Some(rest.value[last.receipt := last])
  }

  datatype Binding = Binding(events: seq<ModelEvent>, canaries: seq<ServerEvent>, used: set<string>)

  function BindOne(caseId: string, nonce: string, results: map<string, ToolResult>, records: map<string, Record>,
                   b: Binding, call: ModelCall): Result<Binding, Refusal>
  {
    if !IsId(call.id) || call.tool.None? then Err(OutsideSurface)
    else if call.id !in results then Err(NoResult)
    else
      var result := results[call.id];
      var found := FindReceipt(result.text);
      if result.isError || found.None? || found.value !in records || found.value in b.used then Err(Unmatched)
      else
        var record := records[found.value];
        if !record.Logged? || record.tool != call.tool.value then Err(OtherTool)
        else
          Ok(Binding(
               b.events + [ToolEvent(call.id, call.tool, call.input, OkResult)],
               b.canaries + [ServerEvent(call.id, caseId, nonce, record.event, record.fixtureSha, record.binarySha)],
               b.used + {found.value}))
  }

  function Bind(caseId: string, nonce: string, results: map<string, ToolResult>, records: map<string, Record>,
                calls: seq<ModelCall>): Result<Binding, Refusal>
  {
    if calls == [] then Ok(Binding([], [], {}))
    else
      var rest := Bind(caseId, nonce, results, records, calls[..|calls| - 1]);
      if rest.Err? then rest else BindOne(caseId, nonce, results, records, rest.value, calls[|calls| - 1])
  }

  function Normalize(stream: seq<Message>, caseId: string, nonce: string, log: seq<Record>)
    : Result<Normalized, Refusal>
  {
    var t := Gather(stream);
    if t.init.None? || !t.init.value.Init? then Err(NoInit)
    else if multiset(t.init.value.tools) != multiset([Some(Read), Some(Request), Some(Execute)]) then Err(WrongTools)
    else
      var model := if t.init.value.model != "" then t.init.value.model else t.model;
      var records := ByReceipt(log);
      if records.None? then Err(ServerRefused)
      else
        var b := Bind(caseId, nonce, t.results, records.value, t.calls);
        if b.Err? then Err(b.error)
        else if records.value.Keys != b.value.used then Err(UnclaimedRecord)
        else if t.answer.None? then Err(NoAnswer)
        else
          Ok(Normalized(
               [InitEvent(model, TOOLS, nonce, caseId)] + b.value.events + [AnswerEvent(t.answer.value)],
               b.value.canaries, model))
  }

  /** `normalize` as it runs: the stream, the server log and the calls are read in three loops. */
  method NormalizeTrial(stream: seq<Message>, caseId: string, nonce: string, log: seq<Record>)
    returns (r: Result<Normalized, Refusal>)
    ensures r == Normalize(stream, caseId, nonce, log)
  {
    var t := Transcript(None, "", [], map[], None);
    for i := 0 to |stream|
      invariant t == Gather(stream[..i])
    {
      assert stream[..i + 1][..i] == stream[..i];
      match stream[i] {
        case Init(_, _) => t := t.(init := Some(stream[i]));
        case AssistantTurn(model, calls) =>
          if t.model == "" {
            t := t.(model := model);
          }
          t := t.(calls := t.calls + calls);
        case UserTurn(results) =>
          var known := t.results;
          for j := 0 to |results|
            invariant known == AddResults(t.results, results[..j])
          {
            assert results[..j + 1][..j] == results[..j];
            known := known[results[j].0 := results[j].1];
          }
          assert results[..|results|] == results;
          t := t.(results := known);
        case Final(success, answer) =>
          if success {
            t := t.(answer := answer);
          }
        case Noise =>
      }
    }
    assert stream[..|stream|] == stream;
    if t.init.None? || !t.init.value.Init? {
      return Err(NoInit);
    }
    if multiset(t.init.value.tools) != multiset([Some(Read), Some(Request), Some(Execute)]) {
      return Err(WrongTools);
    }
    var records := IndexRecords(log);
    if records.None? {
      return Err(ServerRefused);
    }
    var bound := BindCalls(caseId, nonce, t.results, records.value, t.calls);
    if bound.Err? {
      return Err(bound.error);
    }
    if records.value.Keys != bound.value.used {
      return Err(UnclaimedRecord);
    }
    if t.answer.None? {
      return Err(NoAnswer);
    }
    var model := if t.init.value.model != "" then t.init.value.model else t.model;
    return Ok(Normalized(
                [InitEvent(model, TOOLS, nonce, caseId)] + bound.value.events + [AnswerEvent(t.answer.value)],
                bound.value.canaries, model));
  }

  method IndexRecords(log: seq<Record>) returns (records: Option<map<string, Record>>)
    ensures records == ByReceipt(log)
  {
    var m: map<string, Record> := map[];
    for i := 0 to |log|
      invariant ByReceipt(log[..i]) == Some(m)
    {
      assert log[..i + 1][..i] == log[..i];
      if !log[i].Logged? {
        RefusalStays(log, i + 1);
        return None;
      }
      m := m[log[i].receipt := log[i]];
    }
    assert log[..|log|] == log;
    return Some(m);
  }

  lemma {:induction false} RefusalStays(log: seq<Record>, i: nat)
    requires i <= |log| && ByReceipt(log[..i]).None?
    ensures ByReceipt(log).None?
  {
    if i < |log| {
      RefusalStays(log[..|log| - 1], i) by {
        assert log[..|log| - 1][..i] == log[..i];
      }
    } else {
      assert log[..i] == log;
    }
  }

  method BindCalls(caseId: string, nonce: string, results: map<string, ToolResult>, records: map<string, Record>,
                   calls: seq<ModelCall>) returns (r: Result<Binding, Refusal>)
    ensures r == Bind(caseId, nonce, results, records, calls)
  {
    var b := Binding([], [], {});
    for i := 0 to |calls|
      invariant Bind(caseId, nonce, results, records, calls[..i]) == Ok(b)
    {
      assert calls[..i + 1][..i] == calls[..i];
      var next := BindOne(caseId, nonce, results, records, b, calls[i]);
      if next.Err? {
        BindingStays(caseId, nonce, results, records, calls, i + 1);
        return next;
      }
      b := next.value;
    }
    assert calls[..|calls|] == calls;
    return Ok(b);
  }

  lemma {:induction false} BindingStays(caseId: string, nonce: string, results: map<string, ToolResult>,
                                        records: map<string, Record>, calls: seq<ModelCall>, i: nat)
    requires i <= |calls| && Bind(caseId, nonce, results, records, calls[..i]).Err?
    ensures Bind(caseId, nonce, results, records, calls) == Bind(caseId, nonce, results, records, calls[..i])
  {
    if i < |calls| {
      assert calls[..|calls| - 1][..i] == calls[..i];
      BindingStays(caseId, nonce, results, records, calls[..|calls| - 1], i);
    } else {
      assert calls[..i] == calls;
    }
  }

  // ---- what acceptance means, whatever the texts are ----

  /** Each call was bound to a record by the receipt in its own result, and no two to the same. */
  ghost predicate Bound(results: map<string, ToolResult>, records: map<string, Record>, calls: seq<ModelCall>,
                        b: Binding, caseId: string, nonce: string)
  {
    && |b.events| == |calls| == |b.canaries|
    && (forall i :: 0 <= i < |calls| ==>
          BoundCall(results, records, calls[i], b.events[i], b.canaries[i], caseId, nonce))
    && (forall i, j | 0 <= i < j < |calls| :: ReceiptIn(results, calls[i]) != ReceiptIn(results, calls[j]))
    && (forall x :: x in b.used <==> exists i :: 0 <= i < |calls| && ReceiptIn(results, calls[i]) == Some(x))
  }

  ghost function ReceiptIn(results: map<string, ToolResult>, call: ModelCall): Option<string> {
    if call.id in results then FindReceipt(results[call.id].text) else None
  }

  ghost predicate BoundCall(results: map<string, ToolResult>, records: map<string, Record>, call: ModelCall,
                            event: ModelEvent, canary: ServerEvent, caseId: string, nonce: string)
  {
    && IsId(call.id) && call.tool.Some? && call.id in results && !results[call.id].isError
    && event == ToolEvent(call.id, call.tool, call.input, OkResult)
    && var receipt := ReceiptIn(results, call);
       && receipt.Some? && receipt.value in records
       && var record := records[receipt.value];
          && record.Logged? && record.tool == call.tool.value
          && canary == ServerEvent(call.id, caseId, nonce, record.event, record.fixtureSha, record.binarySha)
  }

  lemma {:induction false} BindBinds(caseId: string, nonce: string, results: map<string, ToolResult>,
                                     records: map<string, Record>, calls: seq<ModelCall>)
    requires Bind(caseId, nonce, results, records, calls).Ok?
    ensures Bound(results, records, calls, Bind(caseId, nonce, results, records, calls).value, caseId, nonce)
  {
    hide Bound, BindOne;
    if calls == [] {
      NothingBound(caseId, nonce, results, records);
    } else {
      var rest, last := calls[..|calls| - 1], calls[|calls| - 1];
      var b', b :=
        Bind(caseId, nonce, results, records, rest).value, Bind(caseId, nonce, results, records, calls).value;
      BindBinds(caseId, nonce, results, records, rest);
      OneMoreBound(caseId, nonce, results, records, rest, last, b', b);
      assert calls == rest + [last];
    }
  }

  lemma NothingBound(caseId: string, nonce: string, results: map<string, ToolResult>, records: map<string, Record>)
    ensures Bound(results, records, [], Binding([], [], {}), caseId, nonce)
  {
  }

  lemma OneMoreBound(caseId: string, nonce: string, results: map<string, ToolResult>, records: map<string, Record>,
                     rest: seq<ModelCall>, last: ModelCall, b: Binding, b': Binding)
    requires Bound(results, records, rest, b, caseId, nonce)
    requires BindOne(caseId, nonce, results, records, b, last) == Ok(b')
    ensures Bound(results, records, rest + [last], b', caseId, nonce)
  {
    var calls := rest + [last];
    var receipt := ReceiptIn(results, last).value;
    LastIsBound(caseId, nonce, results, records, b, last, b');
    hide BoundCall, BindOne, ReceiptIn;
    forall i | 0 <= i < |calls|
      ensures BoundCall(results, records, calls[i], b'.events[i], b'.canaries[i], caseId, nonce)
    {
      if i < |rest| {
        assert BoundCall(results, records, rest[i], b.events[i], b.canaries[i], caseId, nonce);
      }
    }
    UsedByCalls(results, rest, last, b.used, receipt);
    forall i, j | 0 <= i < j < |calls|
      ensures ReceiptIn(results, calls[i]) != ReceiptIn(results, calls[j])
    {
      assert ReceiptIn(results, rest[i]) != Some(receipt);
    }
  }

  lemma UsedByCalls(results: map<string, ToolResult>, rest: seq<ModelCall>, last: ModelCall, used: set<string>,
                    receipt: string)
    requires forall x :: x in used <==> exists i :: 0 <= i < |rest| && ReceiptIn(results, rest[i]) == Some(x)
    requires ReceiptIn(results, last) == Some(receipt)
    ensures forall x :: x in used + {receipt} <==>
              exists i :: 0 <= i < |rest + [last]| && ReceiptIn(results, (rest + [last])[i]) == Some(x)
  {
    hide ReceiptIn;
    var calls := rest + [last];
    assert calls[|rest|] == last;
    forall x
      ensures x in used + {receipt} <==> exists i :: 0 <= i < |calls| && ReceiptIn(results, calls[i]) == Some(x)
    {
      if x in used {
        var i :| 0 <= i < |rest| && ReceiptIn(results, rest[i]) == Some(x);
        assert calls[i] == rest[i];
      }
      if i :| 0 <= i < |calls| && ReceiptIn(results, calls[i]) == Some(x) {
        assert i < |rest| ==> calls[i] == rest[i];
      }
    }
  }

  lemma LastIsBound(caseId: string, nonce: string, results: map<string, ToolResult>, records: map<string, Record>,
                    b: Binding, last: ModelCall, b': Binding)
    requires |b.events| == |b.canaries| && BindOne(caseId, nonce, results, records, b, last) == Ok(b')
    ensures |b'.events| == |b'.canaries| == |b.events| + 1 && b.events <= b'.events && b.canaries <= b'.canaries
    ensures BoundCall(results, records, last, b'.events[|b.events|], b'.canaries[|b.events|], caseId, nonce)
    ensures ReceiptIn(results, last).Some? && ReceiptIn(results, last).value !in b.used
    ensures b'.used == b.used + {ReceiptIn(results, last).value}
  {
  }

  /** Call ids are never compared, yet an accepted trial's are distinct: equal ids would share one receipt. */
  lemma BoundIdsAreDistinct(results: map<string, ToolResult>, records: map<string, Record>, calls: seq<ModelCall>,
                            b: Binding, caseId: string, nonce: string)
    requires Bound(results, records, calls, b, caseId, nonce)
    ensures forall i, j | 0 <= i < j < |calls| :: calls[i].id != calls[j].id
  {
    forall i, j | 0 <= i < j < |calls|
      ensures calls[i].id != calls[j].id
    {
      assert ReceiptIn(results, calls[i]) != ReceiptIn(results, calls[j]);
    }
  }

  lemma {:induction false} RecordsByReceipt(log: seq<Record>)
    requires ByReceipt(log).Some?
    ensures forall k :: 0 <= k < |log| ==> log[k].Logged? && log[k].receipt in ByReceipt(log).value
    ensures forall x | x in ByReceipt(log).value ::
              exists k :: 0 <= k < |log| && log[k].receipt == x && ByReceipt(log).value[x] == log[k]
  {
    if log != [] {
      var rest := log[..|log| - 1];
      RecordsByReceipt(rest);
      forall k | 0 <= k < |log|
        ensures log[k].Logged? && log[k].receipt in ByReceipt(log).value
      {
        if k < |rest| {
          assert log[k] == rest[k];
        }
      }
      forall x | x in ByReceipt(log).value
        ensures exists k :: 0 <= k < |log| && log[k].receipt == x && ByReceipt(log).value[x] == log[k]
      {
        if x == log[|log| - 1].receipt {
          assert ByReceipt(log).value[x] == log[|log| - 1];
        } else {
          var k :| 0 <= k < |rest| && rest[k].receipt == x && ByReceipt(rest).value[x] == rest[k];
          assert log[k] == rest[k];
        }
      }
    }
  }
}
