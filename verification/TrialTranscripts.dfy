/** What the normalizer makes of a stream and a server log, by position (bench/injection-evidence/runner.py). */
module TrialTranscripts {
  import opened Common
  import opened EvidenceTypes
  import opened FixtureServer
  import opened TrialNormalizer

  // ---- the receipt in a text ----

  /** A tag with these digits stands at the place. */
  ghost predicate TagAt(s: string, i: nat, digits: string) {
    && i <= |s| && digits != "" && (forall k :: 0 <= k < |digits| ==> '0' <= digits[k] <= '9')
    && "[receipt srv-" + digits + "]" <= s[i..]
  }

  lemma TagIsMatched(s: string, digits: string)
    requires TagAt(s, 0, digits)
    ensures MatchHere(s) == Some("srv-" + digits)
  {
    var rest := s[|OPENING + digits|..];
    assert s == OPENING + (digits + rest);
    assert s[|OPENING|..] == digits + rest;
    assert rest[0] == (OPENING + digits + "]")[|OPENING + digits|];
    DigitsStop(digits, rest);
  }

  lemma MatchIsTag(s: string, digits: string)
    requires MatchHere(s) == Some("srv-" + digits)
    ensures TagAt(s, 0, digits)
  {
    var rest := s[|OPENING|..];
    var found := DigitsAt(rest);
    hide DigitsAt;
    assert ("srv-" + digits)[4..] == digits && ("srv-" + found)[4..] == found;
    assert rest[..|found|] == found && rest[|found|] == ']';
    assert rest == found + ("]" + rest[|found| + 1..]);
    assert s == OPENING + rest;
    assert s == (OPENING + found + "]") + rest[|found| + 1..];
  }

  lemma TagHere(s: string, digits: string)
    ensures TagAt(s, 0, digits) <==> MatchHere(s) == Some("srv-" + digits)
  {
    hide TagAt, MatchHere;
    if TagAt(s, 0, digits) {
      TagIsMatched(s, digits);
    } else if MatchHere(s) == Some("srv-" + digits) {
      MatchIsTag(s, digits);
    }
  }

  lemma TagLater(s: string, i: nat, digits: string)
    requires 0 < i
    ensures TagAt(s, i, digits) <==> s != "" && TagAt(s[1..], i - 1, digits)
  {
    if s != "" && i <= |s| {
      assert s[1..][i - 1..] == s[i..];
    }
  }

  /** The receipt found in a text is that of its leftmost tag, and none is found when it has no tag. */
  lemma {:induction false} FindsLeftmost(s: string)
    ensures FindReceipt(s).None? <==> forall i: nat, digits :: !TagAt(s, i, digits)
    ensures FindReceipt(s).Some? ==>
              exists i: nat, digits :: TagAt(s, i, digits) && FindReceipt(s).value == "srv-" + digits
                                       && forall j: nat, other | j < i :: !TagAt(s, j, other)
  {
    forall digits
      ensures TagAt(s, 0, digits) <==> MatchHere(s) == Some("srv-" + digits)
    {
      TagHere(s, digits);
    }
    forall i: nat, digits | 0 < i
      ensures TagAt(s, i, digits) <==> s != "" && TagAt(s[1..], i - 1, digits)
    {
      TagLater(s, i, digits);
    }
    if MatchHere(s).Some? {
      var digits := MatchHere(s).value[4..];
      assert MatchHere(s) == Some("srv-" + digits);
      assert TagAt(s, 0, digits);
    } else if s == "" {
      assert forall i: nat, digits :: !TagAt(s, i, digits);
    } else {
      FindsLeftmost(s[1..]);
      hide TagAt, MatchHere;
      if FindReceipt(s).Some? {
        var i: nat, digits :| TagAt(s[1..], i, digits) && FindReceipt(s).value == "srv-" + digits
                              && forall j: nat, other | j < i :: !TagAt(s[1..], j, other);
        assert TagAt(s, i + 1, digits);
        assert forall j: nat, other | j < i + 1 :: !TagAt(s, j, other);
      } else {
        assert forall i: nat, digits :: !TagAt(s, i, digits);
      }
    }
  }

  // ---- what is gathered from a stream ----

  ghost function CallsIn(m: Message): seq<ModelCall> { if m.AssistantTurn? then m.calls else [] }

  ghost function ResultsIn(m: Message): seq<(string, ToolResult)> { if m.UserTurn? then m.results else [] }

  /** All calls of the stream, and all its tool results, message by message from the front. */
  ghost function CallsOf(stream: seq<Message>): seq<ModelCall> {
    if stream == [] then [] else CallsIn(stream[0]) + CallsOf(stream[1..])
  }

  ghost function ResultsOf(stream: seq<Message>): seq<(string, ToolResult)> {
    if stream == [] then [] else ResultsIn(stream[0]) + ResultsOf(stream[1..])
  }

  lemma {:induction false} CallsAppend(stream: seq<Message>, m: Message)
    ensures CallsOf(stream + [m]) == CallsOf(stream) + CallsIn(m)
  {
    hide CallsIn;
    if stream == [] {
      assert [m][1..] == [] && [] + [m] == [m];
    } else {
      CallsAppend(stream[1..], m);
      assert (stream + [m])[1..] == stream[1..] + [m] && (stream + [m])[0] == stream[0];
      Regroup(CallsIn(stream[0]), CallsOf(stream[1..]), CallsIn(m));
    }
  }

  lemma {:induction false} ResultsAppend(stream: seq<Message>, m: Message)
    ensures ResultsOf(stream + [m]) == ResultsOf(stream) + ResultsIn(m)
  {
    hide ResultsIn;
    if stream == [] {
      assert [m][1..] == [] && [] + [m] == [m];
    } else {
      ResultsAppend(stream[1..], m);
      assert (stream + [m])[1..] == stream[1..] + [m] && (stream + [m])[0] == stream[0];
      Regroup(ResultsIn(stream[0]), ResultsOf(stream[1..]), ResultsIn(m));
    }
  }

  ghost predicate IsSuccess(m: Message) { m.Final? && m.success }

  /** The last message of the stream that is an init. */
  ghost predicate LastInit(stream: seq<Message>, i: nat) {
    i < |stream| && stream[i].Init? && forall j :: i < j < |stream| ==> !stream[j].Init?
  }

  ghost predicate LastSuccess(stream: seq<Message>, i: nat) {
    i < |stream| && IsSuccess(stream[i]) && forall j :: i < j < |stream| ==> !IsSuccess(stream[j])
  }

  /** The first assistant turn that names a model. */
  ghost predicate FirstNamed(stream: seq<Message>, i: nat) {
    && i < |stream| && stream[i].AssistantTurn? && stream[i].model != ""
    && forall j :: 0 <= j < i ==> stream[j].AssistantTurn? ==> stream[j].model == ""
  }

  ghost predicate LastResult(results: seq<(string, ToolResult)>, id: string, n: nat) {
    n < |results| && results[n].0 == id && forall j :: n < j < |results| ==> results[j].0 != id
  }

  ghost predicate Collects(known: map<string, ToolResult>, results: seq<(string, ToolResult)>) {
    && (forall id :: id in known <==> exists n :: 0 <= n < |results| && results[n].0 == id)
    && (forall id, n: nat | id in known && LastResult(results, id, n) :: known[id] == results[n].1)
  }

  lemma CollectsOne(known: map<string, ToolResult>, results: seq<(string, ToolResult)>, one: (string, ToolResult))
    requires Collects(known, results)
    ensures Collects(known[one.0 := one.1], results + [one])
  {
    var all, more := results + [one], known[one.0 := one.1];
    assert all[|results|] == one;
    forall id
      ensures id in more <==> exists n :: 0 <= n < |all| && all[n].0 == id
    {
      if id in known {
        var n :| 0 <= n < |results| && results[n].0 == id;
        assert all[n].0 == id;
      }
    }
    forall id, n: nat | id in more && LastResult(all, id, n)
      ensures more[id] == all[n].1
    {
      if n < |results| {
        assert all[|results|].0 != id;
        assert forall j :: n < j < |results| ==> results[j] == all[j];
        assert LastResult(results, id, n);
      }
    }
  }

  lemma {:induction false} CollectsMore(known: map<string, ToolResult>, results: seq<(string, ToolResult)>,
                                        more: seq<(string, ToolResult)>)
    requires Collects(known, results)
    ensures Collects(AddResults(known, more), results + more)
  {
    hide Collects;
    if more == [] {
      assert results + more == results;
    } else {
      var rest, one := more[..|more| - 1], more[|more| - 1];
      CollectsMore(known, results, rest);
      CollectsOne(AddResults(known, rest), results + rest, one);
      assert results + more == results + rest + [one];
    }
  }

  ghost predicate InitIs(init: Option<Message>, stream: seq<Message>) {
    match init
    case None => forall i: nat :: !LastInit(stream, i)
    case Some(m) => exists i: nat :: LastInit(stream, i) && m == stream[i]
  }

  ghost predicate ModelIs(model: string, stream: seq<Message>) {
    if model == "" then forall i: nat :: !FirstNamed(stream, i)
    else exists i: nat :: FirstNamed(stream, i) && model == stream[i].model
  }

  ghost predicate AnswerIs(answer: Option<Answer>, stream: seq<Message>) {
    match answer
    case None => forall i: nat :: LastSuccess(stream, i) ==> stream[i].answer.None?
    case Some(_) => exists i: nat :: LastSuccess(stream, i) && answer == stream[i].answer
  }

  /**
   What a transcript holds of a stream: its last init, its first model name, all calls, the last result
   of each id, and the answer of its last success.
   */
  ghost predicate Transcribes(t: Transcript, stream: seq<Message>) {
    && InitIs(t.init, stream) && ModelIs(t.model, stream) && AnswerIs(t.answer, stream)
    && t.calls == CallsOf(stream) && Collects(t.results, ResultsOf(stream))
  }

  lemma PlacesAppend(stream: seq<Message>, m: Message, i: nat)
    ensures LastInit(stream + [m], i) <==> if m.Init? then i == |stream| else LastInit(stream, i)
    ensures LastSuccess(stream + [m], i) <==> if IsSuccess(m) then i == |stream| else LastSuccess(stream, i)
  {
    var all := stream + [m];
    assert all[|stream|] == m;
    assert forall j :: 0 <= j < |stream| ==> all[j] == stream[j];
  }

  ghost predicate Unnamed(stream: seq<Message>) {
    forall j :: 0 <= j < |stream| ==> stream[j].AssistantTurn? ==> stream[j].model == ""
  }

  lemma NamedAppend(stream: seq<Message>, m: Message, i: nat)
    ensures FirstNamed(stream + [m], i) <==>
      FirstNamed(stream, i) || (i == |stream| && Unnamed(stream) && m.AssistantTurn? && m.model != "")
  {
    var all := stream + [m];
    assert all[|stream|] == m;
    assert forall j :: 0 <= j < |stream| ==> all[j] == stream[j];
  }

  lemma {:induction false} NamedOrNot(stream: seq<Message>)
    ensures Unnamed(stream) <==> forall i: nat :: !FirstNamed(stream, i)
  {
    if stream != [] {
      var rest, m := stream[..|stream| - 1], stream[|stream| - 1];
      NamedOrNot(rest);
      assert stream == rest + [m];
      forall i: nat
        ensures FirstNamed(stream, i) <==>
          FirstNamed(rest, i) || (i == |rest| && Unnamed(rest) && m.AssistantTurn? && m.model != "")
      {
        NamedAppend(rest, m, i);
      }
      if Unnamed(rest) && m.AssistantTurn? && m.model != "" {
        assert FirstNamed(stream, |rest|);
      }
      hide FirstNamed;
      if !Unnamed(rest) {
        var i: nat :| FirstNamed(rest, i);
        assert FirstNamed(stream, i);
      }
    }
  }

  /** The transcript that `normalize` gathers is the one that the stream writes. */
  lemma {:induction false} GatherTranscribes(stream: seq<Message>)
    ensures Transcribes(Gather(stream), stream)
  {
    if stream == [] {
      NothingTranscribed();
    } else {
      var rest, m := stream[..|stream| - 1], stream[|stream| - 1];
      GatherTranscribes(rest);
      assert stream == rest + [m];
      assert Gather(stream) == AddMessage(Gather(rest), m);
      hide Gather, Transcribes, AddMessage;
      OneMoreTranscribed(Gather(rest), rest, m);
    }
  }

  lemma NothingTranscribed()
    ensures Transcribes(Transcript(None, "", [], map[], None), [])
  {
  }

  lemma OneMoreInit(init: Option<Message>, stream: seq<Message>, m: Message)
    requires InitIs(init, stream)
    ensures InitIs(if m.Init? then Some(m) else init, stream + [m])
  {
    forall i: nat
      ensures LastInit(stream + [m], i) <==> if m.Init? then i == |stream| else LastInit(stream, i)
    {
      PlacesAppend(stream, m, i);
    }
    if m.Init? {
      assert LastInit(stream + [m], |stream|);
    } else if init.Some? {
      var i: nat :| LastInit(stream, i) && init.value == stream[i];
      assert LastInit(stream + [m], i);
    }
  }

  lemma OneMoreAnswer(answer: Option<Answer>, stream: seq<Message>, m: Message)
    requires AnswerIs(answer, stream)
    ensures AnswerIs(if IsSuccess(m) then m.answer else answer, stream + [m])
  {
    forall i: nat
      ensures LastSuccess(stream + [m], i) <==> if IsSuccess(m) then i == |stream| else LastSuccess(stream, i)
    {
      PlacesAppend(stream, m, i);
    }
    if IsSuccess(m) {
      assert LastSuccess(stream + [m], |stream|);
    } else if answer.Some? {
      var i: nat :| LastSuccess(stream, i) && answer == stream[i].answer;
      assert LastSuccess(stream + [m], i);
    }
  }

  lemma OneMoreName(model: string, stream: seq<Message>, m: Message)
    requires ModelIs(model, stream)
    ensures ModelIs(if model == "" && m.AssistantTurn? then m.model else model, stream + [m])
  {
    var all := stream + [m];
    forall i: nat
      ensures FirstNamed(all, i) <==>
        FirstNamed(stream, i) || (i == |stream| && Unnamed(stream) && m.AssistantTurn? && m.model != "")
    {
      NamedAppend(stream, m, i);
    }
    NamedOrNot(stream);
    if model != "" {
      var i: nat :| FirstNamed(stream, i) && model == stream[i].model;
      assert FirstNamed(all, i);
    } else if m.AssistantTurn? && m.model != "" {
      assert FirstNamed(all, |stream|);
    }
  }

  lemma OneMoreTranscribed(t: Transcript, stream: seq<Message>, m: Message)
    requires Transcribes(t, stream)
    ensures Transcribes(AddMessage(t, m), stream + [m])
  {
    CallsAppend(stream, m);
    ResultsAppend(stream, m);
    CollectsMore(t.results, ResultsOf(stream), ResultsIn(m));
    OneMoreInit(t.init, stream, m);
    OneMoreName(t.model, stream, m);
    OneMoreAnswer(t.answer, stream, m);
    hide InitIs, ModelIs, AnswerIs, Collects, ResultsOf, CallsOf, AddResults;
    NoneAdded(t.results);
    match m
    case Init(_, _) =>
    case AssistantTurn(_, _) =>
    case UserTurn(_) =>
    case Final(_, _) =>
    case Noise =>
  }

  lemma NoneAdded(results: map<string, ToolResult>)
    ensures AddResults(results, []) == results
  {
  }

  // ---- when a trial is accepted ----

  /** The last record under its receipt. */
  ghost predicate LastRecord(log: seq<Record>, k: nat) {
    && k < |log| && log[k].Logged?
    && forall j :: k < j < |log| && log[j].Logged? ==> log[j].receipt != log[k].receipt
  }

  /** `records` finds the last record under each receipt. */
  ghost predicate Files(records: map<string, Record>, log: seq<Record>) {
    && (forall k: nat | LastRecord(log, k) :: log[k].receipt in records && records[log[k].receipt] == log[k])
    && (forall x | x in records :: exists k: nat :: LastRecord(log, k) && log[k].receipt == x)
  }

  lemma RecordAppend(log: seq<Record>, r: Record, k: nat)
    requires r.Logged?
    ensures LastRecord(log + [r], k) <==> k == |log| || (LastRecord(log, k) && log[k].receipt != r.receipt)
  {
    var all := log + [r];
    assert all[|log|] == r && forall j :: 0 <= j < |log| ==> all[j] == log[j];
  }

  lemma FilesAppend(records: map<string, Record>, log: seq<Record>, r: Record)
    requires r.Logged? && Files(records, log)
    ensures Files(records[r.receipt := r], log + [r])
  {
    var all, more := log + [r], records[r.receipt := r];
    forall k: nat
      ensures LastRecord(all, k) <==> k == |log| || (LastRecord(log, k) && log[k].receipt != r.receipt)
    {
      RecordAppend(log, r, k);
    }
    forall x | x in more
      ensures exists k: nat :: LastRecord(all, k) && all[k].receipt == x
    {
      if x == r.receipt {
        assert LastRecord(all, |log|);
      } else {
        var k: nat :| LastRecord(log, k) && log[k].receipt == x;
        assert LastRecord(all, k);
      }
    }
  }

  lemma {:induction false} RecordsAreFiled(log: seq<Record>)
    ensures ByReceipt(log).Some? <==> forall k :: 0 <= k < |log| ==> log[k].Logged?
    ensures ByReceipt(log).Some? ==> Files(ByReceipt(log).value, log)
  {
    if log != [] {
      var rest, last := log[..|log| - 1], log[|log| - 1];
      RecordsAreFiled(rest);
      assert log == rest + [last];
      if ByReceipt(rest).Some? && last.Logged? {
        hide Files;
        FilesAppend(ByReceipt(rest).value, rest, last);
      }
    }
  }

  /** The call's last result succeeded and carries the receipt of a record made with the call's tool. */
  ghost predicate Claims(call: ModelCall, results: seq<(string, ToolResult)>, log: seq<Record>, n: nat, k: nat) {
    && IsId(call.id) && LastResult(results, call.id, n) && !results[n].1.isError
    && LastRecord(log, k) && FindReceipt(results[n].1.text) == Some(log[k].receipt) && call.tool == Some(log[k].tool)
  }

  ghost predicate ClaimsRecord(call: ModelCall, results: seq<(string, ToolResult)>, log: seq<Record>, k: nat) {
    exists n: nat :: Claims(call, results, log, n, k)
  }

  ghost predicate ClaimsSome(call: ModelCall, results: seq<(string, ToolResult)>, log: seq<Record>) {
    exists k: nat :: ClaimsRecord(call, results, log, k)
  }

  /** Each call claims a record, no two the same, and none is left over. */
  ghost predicate Claimed(calls: seq<ModelCall>, results: seq<(string, ToolResult)>, log: seq<Record>) {
    && (forall i :: 0 <= i < |calls| ==> ClaimsSome(calls[i], results, log))
    && (forall i, j, k: nat | 0 <= i < j < |calls| ::
          !(ClaimsRecord(calls[i], results, log, k) && ClaimsRecord(calls[j], results, log, k)))
    && (forall k: nat | LastRecord(log, k) :: exists i :: 0 <= i < |calls| && ClaimsRecord(calls[i], results, log, k))
  }

  ghost predicate Fits(results: map<string, ToolResult>, records: map<string, Record>, call: ModelCall) {
    && IsId(call.id) && call.tool.Some? && call.id in results && !results[call.id].isError
    && var receipt := ReceiptIn(results, call);
       receipt.Some? && receipt.value in records && records[receipt.value].Logged?
       && records[receipt.value].tool == call.tool.value
  }

  ghost predicate AllFit(results: map<string, ToolResult>, records: map<string, Record>, calls: seq<ModelCall>) {
    && (forall i :: 0 <= i < |calls| ==> Fits(results, records, calls[i]))
    && (forall i, j | 0 <= i < j < |calls| :: ReceiptIn(results, calls[i]) != ReceiptIn(results, calls[j]))
  }

  ghost predicate IsNew(results: map<string, ToolResult>, calls: seq<ModelCall>, call: ModelCall) {
    forall i :: 0 <= i < |calls| ==> ReceiptIn(results, calls[i]) != ReceiptIn(results, call)
  }

  lemma AllFitAppend(results: map<string, ToolResult>, records: map<string, Record>, calls: seq<ModelCall>,
                     call: ModelCall)
    ensures AllFit(results, records, calls + [call]) <==>
      AllFit(results, records, calls) && Fits(results, records, call) && IsNew(results, calls, call)
  {
    hide Fits, ReceiptIn;
    var all := calls + [call];
    assert all[|calls|] == call && forall i :: 0 <= i < |calls| ==> all[i] == calls[i];
    if AllFit(results, records, all) {
      assert Fits(results, records, all[|calls|]);
    }
  }

  lemma OneIff(caseId: string, nonce: string, results: map<string, ToolResult>, records: map<string, Record>,
               b: Binding, call: ModelCall)
    ensures BindOne(caseId, nonce, results, records, b, call).Ok? <==>
      Fits(results, records, call) && ReceiptIn(results, call).value !in b.used
  {
    hide IsId, FindReceipt;
  }

  lemma NewIff(results: map<string, ToolResult>, records: map<string, Record>, calls: seq<ModelCall>, b: Binding,
               caseId: string, nonce: string, call: ModelCall)
    requires Bound(results, records, calls, b, caseId, nonce) && Fits(results, records, call)
    ensures ReceiptIn(results, call).value !in b.used <==> IsNew(results, calls, call)
  {
    hide BoundCall, FindReceipt, IsId;
    var receipt := ReceiptIn(results, call);
    assert receipt == Some(receipt.value);
  }

  /** The calls are bound exactly when each fits a record and no two name the same receipt. */
  lemma {:induction false} BindIff(caseId: string, nonce: string, results: map<string, ToolResult>,
                                   records: map<string, Record>, calls: seq<ModelCall>)
    ensures Bind(caseId, nonce, results, records, calls).Ok? <==> AllFit(results, records, calls)
  {
    if calls != [] {
      var rest, last := calls[..|calls| - 1], calls[|calls| - 1];
      BindIff(caseId, nonce, results, records, rest);
      assert calls == rest + [last];
      AllFitAppend(results, records, rest, last);
      var before := Bind(caseId, nonce, results, records, rest);
      hide AllFit, Fits, ReceiptIn, BindOne, IsNew;
      if before.Ok? {
        BindBinds(caseId, nonce, results, records, rest);
        OneIff(caseId, nonce, results, records, before.value, last);
        if Fits(results, records, last) {
          NewIff(results, records, rest, before.value, caseId, nonce, last);
        }
      }
    }
  }

  lemma {:induction false} LastExists(results: seq<(string, ToolResult)>, id: string, n: nat) returns (last: nat)
    requires n < |results| && results[n].0 == id
    ensures LastResult(results, id, last)
    decreases |results| - n
  {
    if j :| n < j < |results| && results[j].0 == id {
      last := LastExists(results, id, j);
    } else {
      last := n;
    }
  }

  lemma ClaimIff(known: map<string, ToolResult>, results: seq<(string, ToolResult)>, records: map<string, Record>,
                 log: seq<Record>, call: ModelCall, k: nat)
    requires Collects(known, results) && Files(records, log)
    ensures ClaimsRecord(call, results, log, k) <==>
      Fits(known, records, call) && LastRecord(log, k) && ReceiptIn(known, call) == Some(log[k].receipt)
  {
    hide IsId, FindReceipt, LastRecord, LastResult;
    IsThere(log, k);
    forall n: nat
      ensures LastResult(results, call.id, n) ==>
                n < |results| && results[n].0 == call.id && call.id in known && known[call.id] == results[n].1
    {
      IsResult(results, call.id, n);
    }
    if ClaimsRecord(call, results, log, k) {
      var n: nat :| Claims(call, results, log, n, k);
    } else if LastRecord(log, k) && call.id in known {
      var n :| 0 <= n < |results| && results[n].0 == call.id;
      var last := LastExists(results, call.id, n);
      assert !Claims(call, results, log, last, k);
    }
  }

  lemma IsThere(log: seq<Record>, k: nat)
    ensures LastRecord(log, k) ==> k < |log| && log[k].Logged?
  {
  }

  lemma IsResult(results: seq<(string, ToolResult)>, id: string, n: nat)
    ensures LastResult(results, id, n) ==> n < |results| && results[n].0 == id
  {
  }

  /** The receipts named by the calls are those of all records. */
  ghost predicate UsesAll(known: map<string, ToolResult>, records: map<string, Record>, calls: seq<ModelCall>) {
    forall x :: x in records ==> exists i :: 0 <= i < |calls| && ReceiptIn(known, calls[i]) == Some(x)
  }

  lemma FiledAt(records: map<string, Record>, log: seq<Record>, x: string) returns (k: nat)
    requires Files(records, log) && x in records
    ensures LastRecord(log, k) && k < |log| && log[k].Logged? && log[k].receipt == x
  {
    k :| LastRecord(log, k) && log[k].receipt == x;
  }

  lemma ClaimsFit(known: map<string, ToolResult>, results: seq<(string, ToolResult)>, records: map<string, Record>,
                  log: seq<Record>, call: ModelCall, k: nat)
    requires Collects(known, results) && Files(records, log) && ClaimsRecord(call, results, log, k)
    ensures Fits(known, records, call) && k < |log| && log[k].Logged? && LastRecord(log, k)
    ensures ReceiptIn(known, call) == Some(log[k].receipt)
  {
    ClaimIff(known, results, records, log, call, k);
  }

  lemma FitClaims(known: map<string, ToolResult>, results: seq<(string, ToolResult)>, records: map<string, Record>,
                  log: seq<Record>, call: ModelCall)
    requires Collects(known, results) && Files(records, log) && Fits(known, records, call)
    ensures ClaimsSome(call, results, log)
  {
    var x := ReceiptIn(known, call).value;
    hide Collects, LastRecord, ClaimsRecord, ReceiptIn, Files;
    var k := FiledAt(records, log, x);
    ClaimIff(known, results, records, log, call, k);
  }

  lemma ClaimedFit(known: map<string, ToolResult>, results: seq<(string, ToolResult)>, records: map<string, Record>,
                   log: seq<Record>, calls: seq<ModelCall>)
    requires Collects(known, results) && Files(records, log) && Claimed(calls, results, log)
    ensures AllFit(known, records, calls) && UsesAll(known, records, calls)
  {
    hide Collects, ClaimsRecord, LastRecord, Fits, ReceiptIn, Files;
    forall i | 0 <= i < |calls|
      ensures Fits(known, records, calls[i])
    {
      var k: nat :| ClaimsRecord(calls[i], results, log, k);
      ClaimsFit(known, results, records, log, calls[i], k);
    }
    forall i, j | 0 <= i < j < |calls|
      ensures ReceiptIn(known, calls[i]) != ReceiptIn(known, calls[j])
    {
      var k: nat :| ClaimsRecord(calls[i], results, log, k);
      ClaimsFit(known, results, records, log, calls[i], k);
      ClaimIff(known, results, records, log, calls[j], k);
    }
    forall x | x in records
      ensures exists i :: 0 <= i < |calls| && ReceiptIn(known, calls[i]) == Some(x)
    {
      var k := FiledAt(records, log, x);
      var i :| 0 <= i < |calls| && ClaimsRecord(calls[i], results, log, k);
      ClaimsFit(known, results, records, log, calls[i], k);
    }
  }

  lemma FitClaimed(known: map<string, ToolResult>, results: seq<(string, ToolResult)>, records: map<string, Record>,
                   log: seq<Record>, calls: seq<ModelCall>)
    requires Collects(known, results) && Files(records, log)
    requires AllFit(known, records, calls) && UsesAll(known, records, calls)
    ensures Claimed(calls, results, log)
  {
    hide Collects, ClaimsRecord, LastRecord, ReceiptIn, Fits, Files;
    forall i | 0 <= i < |calls|
      ensures ClaimsSome(calls[i], results, log)
    {
      FitClaims(known, results, records, log, calls[i]);
    }
    forall i, j, k: nat | 0 <= i < j < |calls|
      ensures !(ClaimsRecord(calls[i], results, log, k) && ClaimsRecord(calls[j], results, log, k))
    {
      ClaimIff(known, results, records, log, calls[i], k);
      ClaimIff(known, results, records, log, calls[j], k);
    }
    forall k: nat | LastRecord(log, k)
      ensures exists i :: 0 <= i < |calls| && ClaimsRecord(calls[i], results, log, k)
    {
      IsFiled(records, log, k);
      var i :| 0 <= i < |calls| && ReceiptIn(known, calls[i]) == Some(log[k].receipt);
      ClaimIff(known, results, records, log, calls[i], k);
      assert Fits(known, records, calls[i]);
    }
  }

  lemma IsFiled(records: map<string, Record>, log: seq<Record>, k: nat)
    requires Files(records, log) && LastRecord(log, k)
    ensures k < |log| && log[k].Logged? && log[k].receipt in records
  {
  }

  // ---- the whole of normalize ----

  /** The three fixture tools and nothing else, in any order. */
  ghost predicate OnlyFixtureTools(tools: seq<Option<Tool>>) {
    |tools| == 3 && Some(Read) in tools && Some(Request) in tools && Some(Execute) in tools
  }

  lemma HasAll(tools: seq<Option<Tool>>)
    requires multiset(tools) == multiset([Some(Read), Some(Request), Some(Execute)])
    ensures OnlyFixtureTools(tools)
  {
    var three := [Some(Read), Some(Request), Some(Execute)];
    assert |multiset(three)| == 3 && |multiset(tools)| == |tools|;
    assert three[0] in three && three[1] in three && three[2] in three;
    assert forall t :: t in three ==> t in multiset(three);
    assert forall t :: t in multiset(tools) ==> t in tools;
  }

  lemma IsAll(a: Option<Tool>, b: Option<Tool>, c: Option<Tool>)
    requires {a, b, c} == {Some(Read), Some(Request), Some(Execute)}
    ensures multiset{a, b, c} == multiset{Some(Read), Some(Request), Some(Execute)}
  {
    assert a in {a, b, c} && b in {a, b, c} && c in {a, b, c};
    assert Some(Read) in {a, b, c} && Some(Request) in {a, b, c} && Some(Execute) in {a, b, c};
  }

  lemma ToolsIff(tools: seq<Option<Tool>>)
    ensures multiset(tools) == multiset([Some(Read), Some(Request), Some(Execute)]) <==> OnlyFixtureTools(tools)
  {
    if multiset(tools) == multiset([Some(Read), Some(Request), Some(Execute)]) {
      HasAll(tools);
    } else if |tools| == 3 {
      if OnlyFixtureTools(tools) {
        assert tools == [tools[0], tools[1], tools[2]];
        OnlyThree(tools);
        IsAll(tools[0], tools[1], tools[2]);
      }
    }
  }

  lemma OnlyThree(tools: seq<Option<Tool>>)
    requires OnlyFixtureTools(tools)
    ensures {tools[0], tools[1], tools[2]} == {Some(Read), Some(Request), Some(Execute)}
  {
    var i :| 0 <= i < 3 && tools[i] == Some(Read);
    var j :| 0 <= j < 3 && tools[j] == Some(Request);
    var k :| 0 <= k < 3 && tools[k] == Some(Execute);
    assert {i, j, k} == {0, 1, 2};
  }

  /** What a stream and a log must show to be accepted. */
  ghost predicate Normalizable(stream: seq<Message>, log: seq<Record>) {
    && (exists i: nat :: LastInit(stream, i) && OnlyFixtureTools(stream[i].tools))
    && (forall k :: 0 <= k < |log| ==> log[k].Logged?)
    && Claimed(CallsOf(stream), ResultsOf(stream), log)
    && (exists i: nat :: LastSuccess(stream, i) && stream[i].answer.Some?)
  }

  lemma BoundIff(caseId: string, nonce: string, t: Transcript, records: map<string, Record>, stream: seq<Message>,
                 log: seq<Record>)
    requires Transcribes(t, stream) && Files(records, log)
    ensures var b := Bind(caseId, nonce, t.results, records, t.calls);
      b.Ok? && records.Keys == b.value.used <==> Claimed(CallsOf(stream), ResultsOf(stream), log)
  {
    hide InitIs, ModelIs, AnswerIs, Collects, Files, CallsOf, ResultsOf, Bind;
    var results, calls, b := ResultsOf(stream), t.calls, Bind(caseId, nonce, t.results, records, t.calls);
    BindIff(caseId, nonce, t.results, records, calls);
    if b.Ok? {
      BindBinds(caseId, nonce, t.results, records, calls);
      UsedIff(t.results, records, calls, b.value, caseId, nonce);
    }
    hide Claimed, AllFit, UsesAll, Bound;
    if Claimed(calls, results, log) {
      ClaimedFit(t.results, results, records, log, calls);
    } else if AllFit(t.results, records, calls) && UsesAll(t.results, records, calls) {
      FitClaimed(t.results, results, records, log, calls);
    }
  }

  lemma UsedIff(known: map<string, ToolResult>, records: map<string, Record>, calls: seq<ModelCall>, b: Binding,
                caseId: string, nonce: string)
    requires Bound(known, records, calls, b, caseId, nonce)
    ensures records.Keys == b.used <==> UsesAll(known, records, calls)
  {
    hide ReceiptIn;
    forall x | x in b.used
      ensures x in records
    {
      var i :| 0 <= i < |calls| && ReceiptIn(known, calls[i]) == Some(x);
      assert BoundCall(known, records, calls[i], b.events[i], b.canaries[i], caseId, nonce);
    }
    assert b.used <= records.Keys;
  }

  /**
   `normalize` accepts exactly the streams whose last init lists the three fixture tools, whose calls and
   records claim each other one to one, whose log refuses nothing, and whose last success has an answer.
   */
  lemma AcceptsNormalizable(stream: seq<Message>, caseId: string, nonce: string, log: seq<Record>)
    ensures Normalize(stream, caseId, nonce, log).Ok? <==> Normalizable(stream, log)
  {
    var t := Gather(stream);
    GatherTranscribes(stream);
    RecordsAreFiled(log);
    InitIff(t.init, stream);
    AnswerIff(t.answer, stream);
    hide Gather, Claimed, LastInit, LastSuccess, InitIs, ModelIs, AnswerIs, Files, Bind;
    if ByReceipt(log).Some? {
      BoundIff(caseId, nonce, t, ByReceipt(log).value, stream, log);
    }
  }

  lemma InitIff(init: Option<Message>, stream: seq<Message>)
    requires InitIs(init, stream)
    ensures init.Some? ==> init.value.Init?
    ensures init.Some? && multiset(init.value.tools) == multiset([Some(Read), Some(Request), Some(Execute)]) <==>
      exists i: nat :: LastInit(stream, i) && OnlyFixtureTools(stream[i].tools)
  {
    if init.Some? {
      var i: nat :| LastInit(stream, i) && init.value == stream[i];
      ToolsIff(init.value.tools);
      assert forall j: nat :: LastInit(stream, j) ==> j == i;
    }
  }

  lemma AnswerIff(answer: Option<Answer>, stream: seq<Message>)
    requires AnswerIs(answer, stream)
    ensures answer.Some? <==> exists i: nat :: LastSuccess(stream, i) && stream[i].answer.Some?
  {
  }

  /** What call `i` becomes: an event of the trace, and a server event from the record it claims. */
  ghost predicate Becomes(n: Normalized, stream: seq<Message>, log: seq<Record>, caseId: string, nonce: string, i: nat)
    requires i < |CallsOf(stream)| && i < |n.canaries| && |n.events| == |CallsOf(stream)| + 2
  {
    var call := CallsOf(stream)[i];
    && n.events[i + 1] == ToolEvent(call.id, call.tool, call.input, OkResult)
    && exists k: nat :: ClaimsRecord(call, ResultsOf(stream), log, k) && k < |log| && log[k].Logged?
         && n.canaries[i] == ServerEvent(call.id, caseId, nonce, log[k].event, log[k].fixtureSha, log[k].binarySha)
  }

  /** The model is the one that the last init names, or else the first that an assistant turn names. */
  ghost predicate Resolves(model: string, stream: seq<Message>) {
    exists i: nat :: LastInit(stream, i)
      && if stream[i].model != "" then model == stream[i].model else ModelIs(model, stream)
  }

  lemma Unfolds(stream: seq<Message>, caseId: string, nonce: string, log: seq<Record>)
    requires Normalize(stream, caseId, nonce, log).Ok?
    ensures var t, n := Gather(stream), Normalize(stream, caseId, nonce, log).value;
      && t.init.Some? && t.init.value.Init? && t.answer.Some? && ByReceipt(log).Some?
      && n.model == (if t.init.value.model != "" then t.init.value.model else t.model)
      && var b := Bind(caseId, nonce, t.results, ByReceipt(log).value, t.calls);
      && b.Ok? && n.canaries == b.value.canaries
      && n.events == [InitEvent(n.model, TOOLS, nonce, caseId)] + b.value.events + [AnswerEvent(t.answer.value)]
  {
  }

  lemma IsResolved(t: Transcript, stream: seq<Message>)
    requires Transcribes(t, stream) && t.init.Some?
    ensures t.init.value.Init?
    ensures Resolves(if t.init.value.model != "" then t.init.value.model else t.model, stream)
  {
    hide FirstNamed, Collects, ModelIs;
  }

  /**
   What an accepted stream becomes: an init of this trial with the resolved model, one event and one
   server event for each call, in order, and the answer of the last success.
   */
  lemma NormalizeYields(stream: seq<Message>, caseId: string, nonce: string, log: seq<Record>)
    requires Normalize(stream, caseId, nonce, log).Ok?
    ensures var n, size := Normalize(stream, caseId, nonce, log).value, |CallsOf(stream)|;
      && |n.events| == size + 2 && |n.canaries| == size
      && n.events[0] == InitEvent(n.model, [Read, Request, Execute], nonce, caseId) && Resolves(n.model, stream)
      && (forall i: nat :: i < size ==> Becomes(n, stream, log, caseId, nonce, i))
      && exists i: nat :: LastSuccess(stream, i) && stream[i].answer.Some?
           && n.events[size + 1] == AnswerEvent(stream[i].answer.value)
  {
    hide Normalize, Gather, LastInit, LastSuccess, Files, Bind, CallsOf, ResultsOf, Collects, Becomes, Resolves;
    hide BoundCall, ReceiptIn, InitIs, ModelIs;
    var t, n := Gather(stream), Normalize(stream, caseId, nonce, log).value;
    Unfolds(stream, caseId, nonce, log);
    GatherTranscribes(stream);
    RecordsAreFiled(log);
    IsResolved(t, stream);
    var records := ByReceipt(log).value;
    var b := Bind(caseId, nonce, t.results, records, t.calls).value;
    BindBinds(caseId, nonce, t.results, records, t.calls);
    forall i: nat | i < |t.calls|
      ensures Becomes(n, stream, log, caseId, nonce, i)
    {
      assert BoundCall(t.results, records, t.calls[i], b.events[i], b.canaries[i], caseId, nonce);
      CallBecomes(n, stream, log, caseId, nonce, i, t.results, records);
    }
  }

  lemma CallBecomes(n: Normalized, stream: seq<Message>, log: seq<Record>, caseId: string, nonce: string, i: nat,
                    known: map<string, ToolResult>, records: map<string, Record>)
    requires i < |CallsOf(stream)| && i < |n.canaries| && |n.events| == |CallsOf(stream)| + 2
    requires Collects(known, ResultsOf(stream)) && Files(records, log)
    requires BoundCall(known, records, CallsOf(stream)[i], n.events[i + 1], n.canaries[i], caseId, nonce)
    ensures Becomes(n, stream, log, caseId, nonce, i)
  {
    hide Collects, CallsOf, ResultsOf, IsId, FindReceipt;
    var call := CallsOf(stream)[i];
    var k := FiledAt(records, log, ReceiptIn(known, call).value);
    ClaimIff(known, ResultsOf(stream), records, log, call, k);
    assert records[log[k].receipt] == log[k];
  }
}
