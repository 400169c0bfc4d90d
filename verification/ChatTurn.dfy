/** The tool loop over a conversation (cli/src/chat.rs, `run_chat_turn`). */
module ChatTurn {
  import opened Common
  import opened GatewayStream

  const MAX_STEPS: nat := 50

  datatype Message =
    | Plain(role: string, content: string)
    | Assistant(text: Option<string>, calls: Option<seq<Call>>)
    | ToolReply(callId: string, content: string)

  /** What one request to the gateway comes to; a stream is already parsed. */
  datatype Answer = Unreachable | Refused | Streamed(texts: seq<string>, calls: seq<Call>)

  /**
   The environment of a turn. Answers may depend on the step and on the whole history; a tool's
   result may depend on step, call and position. `expired` is the five-minute deadline.
   */
  datatype World = World(
    expired: nat -> bool, answer: (nat, seq<Message>) -> Answer, execute: (nat, nat, Call) -> string)

  function Join(texts: seq<string>): string {
    if texts == [] then "" else texts[0] + Join(texts[1..])
  }

  // ---- well-formed histories ----

  /** One reply per call, in order, with matching ids. */
  ghost predicate RepliesTo(replies: seq<Message>, calls: seq<Call>) {
    |replies| == |calls|
    && forall i :: 0 <= i < |calls| ==> replies[i].ToolReply? && replies[i].callId == calls[i].id
  }

  function CallsOf(m: Message): seq<Call> {
    if m.Assistant? && m.calls.Some? then m.calls.value else []
  }

  /** Every assistant message with calls is followed at once by its replies, and no other reply exists. */
  ghost predicate WellFormed(history: seq<Message>)
    decreases |history|
  {
    history == [] ||
    (var calls := CallsOf(history[0]);
     && !history[0].ToolReply?
     && |calls| < |history|
     && RepliesTo(history[1..|calls| + 1], calls)
     && WellFormed(history[|calls| + 1..]))
  }

  /** A well-formed history is a block, an assistant message with its replies or another message alone, and the rest. */
  lemma BlockAndRest(history: seq<Message>)
    requires history != []
    ensures WellFormed(history) <==>
      var n := |CallsOf(history[0])| + 1;
      && !history[0].ToolReply? && n <= |history| && RepliesTo(history[1..n], CallsOf(history[0]))
      && WellFormed(history[n..])
  {
  }

  lemma {:induction false} WellFormedConcat(a: seq<Message>, b: seq<Message>)
    requires WellFormed(a) && WellFormed(b)
    ensures WellFormed(a + b)
    decreases |a|
  {
    hide WellFormed, RepliesTo, CallsOf;
    if a == [] {
      assert a + b == b;
    } else {
      BlockAndRest(a);
      BlockAndRest(a + b);
      var n := |CallsOf(a[0])| + 1;
      WellFormedConcat(a[n..], b);
      assert (a + b)[1..n] == a[1..n];
      assert (a + b)[n..] == a[n..] + b;
    }
  }

  /** What well-formedness says about positions: the replies stand right behind their assistant message. */
  lemma {:induction false} RepliesFollow(history: seq<Message>, i: nat)
    requires WellFormed(history) && i < |history|
    ensures var calls := CallsOf(history[i]);
      i + |calls| < |history| && RepliesTo(history[i + 1..i + 1 + |calls|], calls)
    decreases |history|
  {
    var n := |CallsOf(history[0])| + 1;
    if 0 < i < n {
      assert history[1..n][i - 1] == history[i];
    } else if i >= n {
      var rest := history[n..];
      RepliesFollow(rest, i - n);
      var count := |CallsOf(history[i])|;
      assert rest[i - n + 1..i - n + 1 + count] == history[i + 1..i + 1 + count];
    }
  }

  /** Message `i` is the reply to the matching call of message `owner`. */
  ghost predicate Owns(history: seq<Message>, owner: nat, i: nat) {
    && owner < i < |history| && i <= owner + |CallsOf(history[owner])| && history[i].ToolReply?
    && history[i].callId == CallsOf(history[owner])[i - owner - 1].id
  }

  lemma FirstBlock(history: seq<Message>, i: nat)
    requires WellFormed(history) && i < |history| && history[i].ToolReply? && i <= |CallsOf(history[0])|
    ensures Owns(history, 0, i)
  {
    assert history[1..|CallsOf(history[0])| + 1][i - 1] == history[i];
  }

  lemma LaterBlock(history: seq<Message>, n: nat, owner: nat, i: nat)
    requires n <= i < |history| && Owns(history[n..], owner, i - n)
    ensures Owns(history, owner + n, i)
  {
  }

  /** Every reply stands in the block of the assistant message that asked for it. */
  lemma {:induction false} RepliesAreOwned(history: seq<Message>, i: nat) returns (owner: nat)
    requires WellFormed(history) && i < |history| && history[i].ToolReply?
    ensures Owns(history, owner, i)
    decreases |history|
  {
    hide RepliesTo, CallsOf, Owns;
    var n := |CallsOf(history[0])| + 1;
    if i < n {
      owner := 0;
      FirstBlock(history, i);
    } else {
      assert history[n..][i - n] == history[i];
      var o := RepliesAreOwned(history[n..], i - n);
      LaterBlock(history, n, o, i);
      owner := o + n;
    }
  }

  // ---- the specification of a turn ----

  function Replies(world: World, step: nat, calls: seq<Call>, n: nat): (r: seq<Message>)
    requires n <= |calls|
    ensures |r| == n
    ensures forall i :: 0 <= i < n ==> r[i] == ToolReply(calls[i].id, world.execute(step, i, calls[i]))
  {
    if n == 0 then []
    else
      Replies(world, step, calls, n - 1) + [ToolReply(calls[n - 1].id, world.execute(step, n - 1, calls[n - 1]))]
  }

  /** The messages one streamed answer adds: nothing, a text, or one assistant message and its replies. */
  function Added(world: World, step: nat, texts: seq<string>, calls: seq<Call>): seq<Message> {
    var text := if texts == [] then None else Some(Join(texts));
    if calls == [] then (if text.None? then [] else [Assistant(text, None)])
    else [Assistant(text, Some(calls))] + Replies(world, step, calls, |calls|)
  }

  datatype Outcome = Outcome(history: seq<Message>, ok: bool, steps: nat)

  /** A turn from its `step`-th request on. */
  function Turn(world: World, history: seq<Message>, step: nat): Outcome
    requires step <= MAX_STEPS
    decreases MAX_STEPS - step
  {
    if step == MAX_STEPS then Outcome(history, true, step)
    else if world.expired(step) then Outcome(history, false, step)
    else
      match world.answer(step, history)
      case Unreachable => Outcome(history, false, step)
      case Refused => Outcome(history, false, step)
      case Streamed(texts, calls) =>
        var longer := history + Added(world, step, texts, calls);
        if calls == [] then Outcome(longer, true, step + 1) else Turn(world, longer, step + 1)
  }

  lemma AddedIsWellFormed(world: World, step: nat, texts: seq<string>, calls: seq<Call>)
    ensures WellFormed(Added(world, step, texts, calls))
  {
    var added := Added(world, step, texts, calls);
    if calls == [] {
      if texts != [] {
        assert added[1..] == [];
      }
    } else {
      assert added[1..|calls| + 1] == Replies(world, step, calls, |calls|);
      assert added[|calls| + 1..] == [];
    }
  }

  /**
   History well-formedness: from a well-formed history, on every way out of a turn the history
   given is an unchanged prefix and the result is well formed again. At most 50 requests are made.
   */
  lemma {:induction false} TurnKeepsHistory(world: World, history: seq<Message>, step: nat)
    requires step <= MAX_STEPS && WellFormed(history)
    ensures history <= Turn(world, history, step).history
    ensures WellFormed(Turn(world, history, step).history)
    ensures step <= Turn(world, history, step).steps <= MAX_STEPS
    decreases MAX_STEPS - step
  {
    hide WellFormed, Added;
    if step < MAX_STEPS && !world.expired(step) && world.answer(step, history).Streamed? {
      var Streamed(texts, calls) := world.answer(step, history);
      AddedIsWellFormed(world, step, texts, calls);
      WellFormedConcat(history, Added(world, step, texts, calls));
      if calls != [] {
        TurnKeepsHistory(world, history + Added(world, step, texts, calls), step + 1);
      }
    }
  }

  // ---- what a turn does, by its histories ----

  lemma {:induction false} JoinAppend(a: seq<string>, b: seq<string>)
    ensures Join([]) == "" && Join(a + b) == Join(a) + Join(b)
  {
    if a == [] {
      assert a + b == b;
    } else {
      assert (a + b)[1..] == a[1..] + b;
      JoinAppend(a[1..], b);
    }
  }

  lemma JoinOne(text: string)
    ensures Join([text]) == text
  {
  }

  /**
   What an answer adds: nothing if it is empty, and otherwise one assistant message with its text and its
   calls, each only if there is one, and behind it one reply per call with the tool's result.
   */
  ghost predicate Adds(world: World, step: nat, answer: Answer, before: seq<Message>, after: seq<Message>)
    requires answer.Streamed?
  {
    var texts, calls, n := answer.texts, answer.calls, |before|;
    && before <= after
    && |after| == n + (if texts == [] && calls == [] then 0 else 1 + |calls|)
    && (|after| > n ==>
          && after[n].Assistant?
          && (after[n].text == if texts == [] then None else Some(Join(texts)))
          && (after[n].calls == if calls == [] then None else Some(calls)))
    && forall i :: 0 <= i < |calls| ==> after[n + 1 + i] == ToolReply(calls[i].id, world.execute(step, i, calls[i]))
  }

  /** The request made with this history is answered by a stream, and the answer makes it the next. */
  ghost predicate Steps(world: World, step: nat, before: seq<Message>, after: seq<Message>) {
    && !world.expired(step) && world.answer(step, before).Streamed?
    && Adds(world, step, world.answer(step, before), before, after)
  }

  ghost predicate Asks(world: World, step: nat, history: seq<Message>) {
    world.answer(step, history).Streamed? && world.answer(step, history).calls != []
  }

  /**
   The histories of a turn from its `first`-th request on. Every answer but the last asks for tools; the
   turn is over, well, when the last one does not or fifty were given, and badly when the time is up or
   the next request is not answered by a stream.
   */
  ghost predicate Runs(world: World, first: nat, hs: seq<seq<Message>>, ok: bool) {
    && hs != []
    && var n := |hs| - 1;
    && first + n <= 50
    && (forall i :: 0 <= i < n ==> Steps(world, first + i, hs[i], hs[i + 1]))
    && (forall i :: 0 <= i < n - 1 ==> Asks(world, first + i, hs[i]))
    && if n > 0 && !Asks(world, first + n - 1, hs[n - 1]) then ok
       else if first + n == 50 then ok
       else !ok && (world.expired(first + n) || !world.answer(first + n, hs[n]).Streamed?)
  }

  lemma AddedAdds(world: World, step: nat, answer: Answer, before: seq<Message>)
    requires answer.Streamed?
    ensures Adds(world, step, answer, before, before + Added(world, step, answer.texts, answer.calls))
  {
    hide Join, Replies;
    var added := Added(world, step, answer.texts, answer.calls);
    var after := before + added;
    assert forall i :: 0 <= i < |added| ==> after[|before| + i] == added[i];
    if answer.calls != [] {
      var replies := Replies(world, step, answer.calls, |answer.calls|);
      assert forall i :: 0 <= i < |replies| ==> added[1 + i] == replies[i];
      forall i | 0 <= i < |answer.calls|
        ensures after[|before| + 1 + i] == replies[i]
      {
        assert after[|before| + (1 + i)] == added[1 + i];
      }
    }
  }

  lemma RunsOn(world: World, first: nat, history: seq<Message>, hs: seq<seq<Message>>, ok: bool)
    requires Runs(world, first + 1, hs, ok) && Steps(world, first, history, hs[0]) && Asks(world, first, history)
    ensures Runs(world, first, [history] + hs, ok)
  {
    hide Steps, Asks;
    var all := [history] + hs;
    forall i | 0 <= i < |all| - 1
      ensures Steps(world, first + i, all[i], all[i + 1])
    {
      if i > 0 {
        assert Steps(world, first + 1 + (i - 1), hs[i - 1], hs[i]);
      }
    }
    forall i | 0 <= i < |all| - 2
      ensures Asks(world, first + i, all[i])
    {
      if i > 0 {
        assert Asks(world, first + 1 + (i - 1), hs[i - 1]);
      }
    }
  }

  /** A turn is such a run, from the history given to the history left. */
  lemma {:induction false} TurnRuns(world: World, history: seq<Message>, step: nat) returns (hs: seq<seq<Message>>)
    requires step <= MAX_STEPS
    ensures var turn := Turn(world, history, step);
      && Runs(world, step, hs, turn.ok) && hs[0] == history && hs[|hs| - 1] == turn.history
      && turn.steps == step + |hs| - 1
    decreases MAX_STEPS - step
  {
    hide Added, Adds;
    hs := [history];
    if step < MAX_STEPS && !world.expired(step) && world.answer(step, history).Streamed? {
      var answer := world.answer(step, history);
      var longer := history + Added(world, step, answer.texts, answer.calls);
      AddedAdds(world, step, answer, history);
      if answer.calls == [] {
        hs := [history, longer];
      } else {
        hs := TurnRuns(world, longer, step + 1);
        hide Runs, Turn;
        RunsOn(world, step, history, hs, Turn(world, history, step).ok);
        hs := [history] + hs;
      }
    }
  }

  /** The conversation a turn extends in place. */
  class Conversation {
    var messages: seq<Message>

    constructor (messages: seq<Message>)
      ensures this.messages == messages
    {
      this.messages := messages;
    }

    /** The tool half of one step: executes the calls in order and records each result. */
    method RunTools(world: World, step: nat, calls: seq<Call>)
      modifies this
      ensures messages == old(messages) + Replies(world, step, calls, |calls|)
    {
      for i := 0 to |calls|
        invariant messages == old(messages) + Replies(world, step, calls, i)
      {
        var result := world.execute(step, i, calls[i]);
        messages := messages + [ToolReply(calls[i].id, result)];
      }
    }

    /** Records one streamed answer. The push for an answer whose text was not recorded cannot be reached. */
    method RecordAnswer(texts: seq<string>, calls: seq<Call>)
      modifies this
      ensures calls == [] ==>
                messages == old(messages) + (if texts == [] then [] else [Assistant(Some(Join(texts)), None)])
      ensures calls != [] ==>
        messages == old(messages) + [Assistant(if texts == [] then None else Some(Join(texts)), Some(calls))]
    {
      if texts != [] {
        messages := messages + [Assistant(Some(Join(texts)), None)];
      }
      if calls == [] {
        return;
      }
      if texts == [] {
        messages := messages + [Assistant(None, Some(calls))];
      } else {
        var last := messages[|messages| - 1];
        if last.Assistant? && last.calls.None? {
          messages := messages[..|messages| - 1] + [last.(calls := Some(calls))];
        } else {
          assert false;
        }
      }
    }

    /** One step after its answer was read: record it, then run its tools. */
    method RecordStep(world: World, step: nat, answer: Answer)
      requires answer.Streamed?
      modifies this
      ensures messages == old(messages) + Added(world, step, answer.texts, answer.calls)
    {
      hide Replies, Join;
      RecordAnswer(answer.texts, answer.calls);
      if answer.calls != [] {
        Regroup(old(messages),
                [Assistant(if answer.texts == [] then None else Some(Join(answer.texts)), Some(answer.calls))],
                Replies(world, step, answer.calls, |answer.calls|));
        RunTools(world, step, answer.calls);
      }
    }

    /** `run_chat_turn`. */
    method RunChatTurn(world: World) returns (ok: bool)
      modifies this
      ensures messages == Turn(world, old(messages), 0).history && ok == Turn(world, old(messages), 0).ok
      ensures exists hs :: Runs(world, 0, hs, ok) && hs[0] == old(messages) && hs[|hs| - 1] == messages
      ensures WellFormed(old(messages)) ==> WellFormed(messages) && old(messages) <= messages
    {
      hide WellFormed, Added, Runs;
      ghost var given := messages;
      ghost var hs := TurnRuns(world, given, 0);
      if WellFormed(messages) {
        TurnKeepsHistory(world, messages, 0);
      }
      for step := 0 to MAX_STEPS
        invariant Turn(world, messages, step) == Turn(world, given, 0)
      {
        if world.expired(step) {
          return false;
        }
        var answer := world.answer(step, messages);
        if !answer.Streamed? {
          return false;
        }
        RecordStep(world, step, answer);
        if answer.calls == [] {
          return true;
        }
      }
      return true;
    }
  }
}
