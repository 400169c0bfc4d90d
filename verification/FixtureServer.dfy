/** The fixture server of one injection trial (bench/injection-evidence/fixture_mcp.py). */
module FixtureServer {
  import opened Common
  import opened EvidenceTypes

  datatype Record =
    | Rejected
    | ReadFailed(receipt: string)
    | Logged(receipt: string, tool: Tool, event: EventName, fixtureSha: string, binarySha: string)

  datatype Reply = Reply(text: string, isError: bool)

  /** A tools/call as it reaches the server; `page` is what reading the page would give. */
  datatype Invocation = Invocation(tool: Option<Tool>, args: Args, page: Option<string>)

  datatype State = State(calls: nat, log: seq<Record>)

  const IDLE := State(0, [])

  // ---- receipts ----

  function Digit(d: nat): char
    requires d < 10
  {
    ['0', '1', '2', '3', '4', '5', '6', '7', '8', '9'][d]
  }

  predicate IsDigit(c: char) { '0' <= c <= '9' }

  function Decimal(n: nat): (r: string)
    ensures r != "" && forall i :: 0 <= i < |r| ==> IsDigit(r[i])
  {
    if n < 10 then [Digit(n)] else Decimal(n / 10) + [Digit(n % 10)]
  }

  function ParseDecimal(s: string): int {
    if s == "" then 0 else 10 * ParseDecimal(s[..|s| - 1]) + (s[|s| - 1] as int - '0' as int)
  }

  lemma {:induction false} DecimalRoundTrip(n: nat)
    ensures ParseDecimal(Decimal(n)) == n
  {
    if n < 10 {
      assert [Digit(n)][..0] == "";
    } else {
      DecimalRoundTrip(n / 10);
      assert Decimal(n)[..|Decimal(n)| - 1] == Decimal(n / 10);
    }
  }

  function Receipt(n: nat): string {
    "srv-" + Decimal(n)
  }

  lemma ReceiptIsInjective(m: nat, n: nat)
    requires Receipt(m) == Receipt(n)
    ensures m == n
  {
    DecimalRoundTrip(m);
    DecimalRoundTrip(n);
    assert Decimal(m) == Receipt(m)[4..];
    assert Decimal(n) == Receipt(n)[4..];
  }

  // ---- calls ----

  predicate Accepts(trial: Trial, inv: Invocation) {
    inv.tool.Some? && inv.args == Args(trial.caseId, trial.nonce, TargetOf(inv.tool.value))
  }

  const REFUSED := "input refused: only {case_id, nonce, target} for this task are accepted"

  function Tagged(receipt: string, rest: string): string {
    "[receipt " + receipt + "]" + rest
  }

  function Serve(trial: Trial, s: State, inv: Invocation): (State, Reply) {
    if !Accepts(trial, inv) then (s.(log := s.log + [Rejected]), Reply(REFUSED, true))
    else
      var receipt, tool := Receipt(s.calls + 1), inv.tool.value;
      var logged := Logged(receipt, tool, Happened(tool), trial.fixtureSha, trial.binarySha);
      if tool == Read && inv.page.None? then
        (State(s.calls + 1, s.log + [ReadFailed(receipt)]), Reply("page could not be read", true))
      else
        (State(s.calls + 1, s.log + [logged]),
         Reply(Tagged(receipt, if tool == Read then "\n" + inv.page.value else " recorded"), false))
  }

  /** The state after a run of calls. */
  function Served(trial: Trial, invs: seq<Invocation>): State {
    if invs == [] then IDLE else Serve(trial, Served(trial, invs[..|invs| - 1]), invs[|invs| - 1]).0
  }

  /** The reply to the k-th call of a run. */
  function ReplyTo(trial: Trial, invs: seq<Invocation>, k: nat): Reply
    requires k < |invs|
  {
    Serve(trial, Served(trial, invs[..k]), invs[k]).1
  }

  class Server {
    const trial: Trial
    var calls: nat
    var log: seq<Record>

    function View(): State
      reads this
    {
      State(calls, log)
    }

    constructor (trial: Trial)
      ensures this.trial == trial && View() == IDLE
    {
      this.trial := trial;
      calls, log := 0, [];
    }

    method Call(inv: Invocation) returns (reply: Reply)
      modifies this
      ensures (View(), reply) == Serve(trial, old(View()), inv)
    {
      if !Accepts(trial, inv) {
        log := log + [Rejected];
        return Reply(REFUSED, true);
      }
      calls := calls + 1;
      var receipt, tool := Receipt(calls), inv.tool.value;
      if tool == Read {
        if inv.page.None? {
          log := log + [ReadFailed(receipt)];
          return Reply("page could not be read", true);
        }
        log := log + [Logged(receipt, tool, Happened(tool), trial.fixtureSha, trial.binarySha)];
        return Reply(Tagged(receipt, "\n" + inv.page.value), false);
      }
      log := log + [Logged(receipt, tool, Happened(tool), trial.fixtureSha, trial.binarySha)];
      return Reply(Tagged(receipt, " recorded"), false);
    }
  }

  // ---- what every run keeps ----

  predicate HasReceipt(r: Record) { !r.Rejected? }

  /** One record per call; receipts are numbered by the calls that got one, so no two agree. */
  ghost predicate Numbered(trial: Trial, invs: seq<Invocation>) {
    var s := Served(trial, invs);
    && |s.log| == |invs|
    && (forall k | 0 <= k < |invs| && HasReceipt(s.log[k]) ::
          exists n: nat :: n <= s.calls && s.log[k].receipt == Receipt(n))
    && (forall j, k | 0 <= j < k < |invs| && HasReceipt(s.log[j]) && HasReceipt(s.log[k]) ::
          s.log[j].receipt != s.log[k].receipt)
  }

  lemma {:induction false} RunIsNumbered(trial: Trial, invs: seq<Invocation>)
    ensures Numbered(trial, invs)
  {
    if invs != [] {
      var before := Served(trial, invs[..|invs| - 1]);
      var after := Served(trial, invs);
      RunIsNumbered(trial, invs[..|invs| - 1]);
      var last := |invs| - 1;
      if HasReceipt(after.log[last]) {
        assert after.log[last].receipt == Receipt(after.calls);
        forall j | 0 <= j < last && HasReceipt(after.log[j])
          ensures after.log[j].receipt != after.log[last].receipt
        {
          assert after.log[j] == before.log[j];
          var n: nat :| n <= before.calls && before.log[j].receipt == Receipt(n);
          if Receipt(n) == Receipt(after.calls) {
            ReceiptIsInjective(n, after.calls);
          }
        }
      }
      forall k | 0 <= k < |invs| && HasReceipt(after.log[k])
        ensures exists n: nat :: n <= after.calls && after.log[k].receipt == Receipt(n)
      {
        if k < last {
          assert after.log[k] == before.log[k];
          var n: nat :| n <= before.calls && before.log[k].receipt == Receipt(n);
        }
      }
    }
  }

  /** The k-th record and the k-th reply tell the same story. */
  lemma {:induction false} RecordOfReply(trial: Trial, invs: seq<Invocation>, k: nat)
    requires k < |invs|
    ensures |Served(trial, invs).log| == |invs|
    ensures var record, reply := Served(trial, invs).log[k], ReplyTo(trial, invs, k);
      && (reply.isError <==> !record.Logged?)
      && (record.Logged? ==>
            && Accepts(trial, invs[k])
            && record.tool == invs[k].tool.value && record.event == Happened(record.tool)
            && record.fixtureSha == trial.fixtureSha && record.binarySha == trial.binarySha
            && Tagged(record.receipt, "") <= reply.text)
  {
    RunIsNumbered(trial, invs);
    RunIsNumbered(trial, invs[..|invs| - 1]);
    if k < |invs| - 1 {
      RecordOfReply(trial, invs[..|invs| - 1], k);
      assert invs[..|invs| - 1][..k] == invs[..k];
      assert Served(trial, invs).log[k] == Served(trial, invs[..|invs| - 1]).log[k];
    }
  }

  // ---- what every run logs and answers, call by call ----

  /** A call of the trial itself: the tool, its own target, the case and the nonce. */
  ghost predicate IsOwn(trial: Trial, inv: Invocation, tool: Tool, target: string) {
    inv.tool == Some(tool) && inv.args == Args(trial.caseId, trial.nonce, target)
  }

  ghost predicate IsAnyOwn(trial: Trial, inv: Invocation) {
    || IsOwn(trial, inv, Read, "page") || IsOwn(trial, inv, Request, "reviews")
    || IsOwn(trial, inv, Execute, "marker")
  }

  /** The trial's own calls among the given ones. */
  ghost function OwnCalls(trial: Trial, invs: seq<Invocation>): set<nat> {
    set j: nat | j < |invs| && IsAnyOwn(trial, invs[j])
  }

  lemma AcceptsOwn(trial: Trial, inv: Invocation)
    ensures Accepts(trial, inv) <==> IsAnyOwn(trial, inv)
  {
    if inv.tool.Some? {
      match inv.tool.value
      case Read =>
      case Request =>
      case Execute =>
    }
  }

  lemma OwnAppend(trial: Trial, invs: seq<Invocation>, inv: Invocation)
    ensures OwnCalls(trial, invs + [inv]) ==
            OwnCalls(trial, invs) + (if IsAnyOwn(trial, inv) then {|invs|} else {})
    ensures |invs| !in OwnCalls(trial, invs)
  {
    hide IsAnyOwn;
  }

  /** The server's counter counts the trial's own calls. */
  lemma {:induction false} CallsAreOwn(trial: Trial, invs: seq<Invocation>)
    ensures Served(trial, invs).calls == |OwnCalls(trial, invs)|
  {
    if invs == [] {
      assert OwnCalls(trial, invs) == {};
    } else {
      var rest, last := invs[..|invs| - 1], invs[|invs| - 1];
      CallsAreOwn(trial, rest);
      AcceptsOwn(trial, last);
      hide IsAnyOwn, OwnCalls, Accepts;
      OwnAppend(trial, rest, last);
      assert invs == rest + [last];
    }
  }

  /** What one call is logged and answered as, if it is the n-th own call. */
  ghost predicate OneTells(trial: Trial, inv: Invocation, record: Record, reply: Reply, n: nat) {
    var receipt, tag := "srv-" + Decimal(n), "[receipt srv-" + Decimal(n) + "]";
    if IsOwn(trial, inv, Read, "page") then
      if inv.page.Some? then
        && record == Logged(receipt, Read, FixtureRead, trial.fixtureSha, trial.binarySha)
        && reply == Reply(tag + "\n" + inv.page.value, false)
      else record == ReadFailed(receipt) && reply.isError
    else if IsOwn(trial, inv, Request, "reviews") then
      && record == Logged(receipt, Request, RequestReceived, trial.fixtureSha, trial.binarySha)
      && reply == Reply(tag + " recorded", false)
    else if IsOwn(trial, inv, Execute, "marker") then
      && record == Logged(receipt, Execute, CanaryExecuted, trial.fixtureSha, trial.binarySha)
      && reply == Reply(tag + " recorded", false)
    else record == Rejected && reply.isError
  }

  lemma OneIsTold(trial: Trial, s: State, inv: Invocation)
    ensures var (after, reply) := Serve(trial, s, inv);
      && |after.log| == |s.log| + 1 && s.log <= after.log
      && OneTells(trial, inv, after.log[|s.log|], reply, s.calls + 1)
  {
    AcceptsOwn(trial, inv);
    hide Decimal;
    assert "[receipt " + "srv-" == "[receipt srv-";
    var receipt := "srv-" + Decimal(s.calls + 1);
    assert "[receipt " + receipt + "]" == "[receipt srv-" + Decimal(s.calls + 1) + "]";
  }

  lemma LastIsTold(trial: Trial, invs: seq<Invocation>)
    requires invs != []
    ensures var n := |invs| - 1;
      var before, after := Served(trial, invs[..n]), Served(trial, invs);
      && before.log <= after.log && |after.log| == |before.log| + 1
      && OneTells(trial, invs[n], after.log[|before.log|], ReplyTo(trial, invs, n), |OwnCalls(trial, invs[..n])| + 1)
  {
    var n := |invs| - 1;
    ServedNext(trial, invs);
    hide OneTells, OwnCalls, Served, Serve, ReplyTo;
    CallsAreOwn(trial, invs[..n]);
    OneIsTold(trial, Served(trial, invs[..n]), invs[n]);
  }

  lemma ServedNext(trial: Trial, invs: seq<Invocation>)
    requires invs != []
    ensures var n := |invs| - 1;
      (Served(trial, invs), ReplyTo(trial, invs, n)) == Serve(trial, Served(trial, invs[..n]), invs[n])
  {
    hide Serve;
  }

  /**
   Over every run: the k-th call leaves the k-th record and gets the k-th reply, and both are those of
   its own tool, target and page, under a receipt that counts the trial's own calls so far.
   */
  lemma {:induction false} RunTells(trial: Trial, invs: seq<Invocation>, k: nat)
    requires k < |invs|
    ensures |Served(trial, invs).log| == |invs|
    ensures OneTells(trial, invs[k], Served(trial, invs).log[k], ReplyTo(trial, invs, k),
                     |OwnCalls(trial, invs[..k])| + 1)
  {
    var rest := invs[..|invs| - 1];
    RunIsNumbered(trial, invs);
    RunIsNumbered(trial, rest);
    LastIsTold(trial, invs);
    hide OneTells, OwnCalls, Served, Serve;
    if k < |rest| {
      RunTells(trial, rest, k);
      SameReply(trial, invs, k);
      assert rest[..k] == invs[..k];
    } else {
      assert invs[..k] == rest;
    }
  }

  lemma SameReply(trial: Trial, invs: seq<Invocation>, k: nat)
    requires k < |invs| - 1
    ensures ReplyTo(trial, invs[..|invs| - 1], k) == ReplyTo(trial, invs, k)
  {
    hide Served, Serve;
    assert invs[..|invs| - 1][..k] == invs[..k];
  }
}
