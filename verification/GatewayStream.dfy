/**
 Reading the AI gateway's event stream (cli/src/chat.rs, `parse_gateway_stream`): decoded text
 arrives in chunks, cut anywhere; complete lines are parsed until `[DONE]`. JSON is opaque:
 `interpret` says which delta, if any, the text behind `data: ` carries.
*/
module GatewayStream {
  import opened Common

  /** One element of a delta's `tool_calls`, with the parser's defaults filled in. */
  datatype Fragment = Fragment(index: nat, id: string, name: string, arguments: Option<string>)

  datatype Delta = Delta(content: Option<string>, fragments: seq<Fragment>)

  type Interpret = string -> Option<Delta>

  datatype Call = Call(id: string, name: string, arguments: string)

  datatype Progress = Progress(texts: seq<string>, calls: map<nat, Call>)

  const START := Progress([], map[])

  const DATA := "data: "
  const DONE := "[DONE]"

  // ---- one line ----

  function TrimCarriage(line: string): string {
    if line != [] && line[|line| - 1] == '\r' then TrimCarriage(line[..|line| - 1]) else line
  }

  datatype Meaning = Done | Carries(delta: Delta) | Nothing

  function LineMeaning(interpret: Interpret, line: string): Meaning {
    var trimmed := TrimCarriage(line);
    if !(DATA <= trimmed) then Nothing
    else
      var data := trimmed[|DATA|..];
      if data == DONE then Done
      else
        var delta := interpret(data);
        if delta.Some? then Carries(delta.value) else Nothing
  }

  // ---- accumulating deltas ----

  /** An index seen for the first time takes the fragment's id and name; arguments are appended. */
  function AddFragment(calls: map<nat, Call>, f: Fragment): map<nat, Call> {
    var c := if f.index in calls then calls[f.index] else Call(f.id, f.name, "");
    calls[f.index := if f.arguments.Some? then c.(arguments := c.arguments + f.arguments.value) else c]
  }

  function AddFragments(calls: map<nat, Call>, fs: seq<Fragment>): map<nat, Call> {
    if fs == [] then calls else AddFragment(AddFragments(calls, fs[..|fs| - 1]), fs[|fs| - 1])
  }

  function AddDelta(p: Progress, d: Delta): Progress {
    Progress(if d.content.Some? && d.content.value != "" then p.texts + [d.content.value] else p.texts,
             AddFragments(p.calls, d.fragments))
  }

  // ---- the one-shot parser ----

  function IndexOf(s: string, c: char): (r: Option<nat>)
    ensures r.Some? ==> r.value < |s| && s[r.value] == c && c !in s[..r.value]
    ensures r.None? ==> c !in s
  {
    if s == [] then None
    else if s[0] == c then Some(0)
    else
      var rest := IndexOf(s[1..], c);
      assert s == [s[0]] + s[1..];
      if rest.Some? then
        assert s[..rest.value + 1] == [s[0]] + s[1..][..rest.value];
        Some(rest.value + 1)
      else None
  }

  /** The complete lines of a text, without their newlines. */
  function Lines(text: string): seq<string>
    decreases |text|
  {
    var newline := IndexOf(text, '\n');
    if newline.None? then [] else [text[..newline.value]] + Lines(text[newline.value + 1..])
  }

  /** Parses lines until `[DONE]`; the flag tells whether it was reached. */
  function Parse(interpret: Interpret, lines: seq<string>, p: Progress): (Progress, bool) {
    if lines == [] then (p, false)
    else
      match LineMeaning(interpret, lines[0])
      case Done => (p, true)
      case Carries(delta) => Parse(interpret, lines[1..], AddDelta(p, delta))
      case Nothing => Parse(interpret, lines[1..], p)
  }

  function OneShot(interpret: Interpret, text: string): Progress {
    Parse(interpret, Lines(text), START).0
  }

  lemma {:induction false} ParseAppend(interpret: Interpret, a: seq<string>, b: seq<string>, p: Progress)
    ensures var (q, done) := Parse(interpret, a, p);
      Parse(interpret, a + b, p) == if done then (q, true) else Parse(interpret, b, q)
  {
    if a == [] {
      assert a + b == b;
    } else {
      assert (a + b)[1..] == a[1..] + b;
      match LineMeaning(interpret, a[0])
      case Done =>
      case Carries(delta) => ParseAppend(interpret, a[1..], b, AddDelta(p, delta));
      case Nothing => ParseAppend(interpret, a[1..], b, p);
    }
  }

  /** Empty, or ending in a newline. */
  predicate Whole(text: string) {
    text == "" || text[|text| - 1] == '\n'
  }

  lemma FirstIndex(s: string, c: char, i: nat)
    requires i < |s| && s[i] == c && forall k :: 0 <= k < i ==> s[k] != c
    ensures IndexOf(s, c) == Some(i)
  {
    var found := IndexOf(s, c).value;
    forall k | 0 <= k < found
      ensures s[k] != c
    {
      assert s[..found][k] in s[..found];
    }
  }

  lemma IndexOfAppend(a: string, b: string, c: char)
    requires IndexOf(a, c).Some?
    ensures IndexOf(a + b, c) == IndexOf(a, c)
  {
    var i := IndexOf(a, c).value;
    forall k | 0 <= k < i
      ensures (a + b)[k] != c
    {
      assert a[..i][k] == a[k];
    }
    FirstIndex(a + b, c, i);
  }

  lemma FirstLine(text: string, i: nat)
    requires IndexOf(text, '\n') == Some(i)
    ensures Lines(text) == [text[..i]] + Lines(text[i + 1..])
  {
  }

  lemma {:induction false} LinesAppend(a: string, b: string)
    requires Whole(a)
    ensures Lines(a + b) == Lines(a) + Lines(b)
    decreases |a|
  {
    if a == "" {
      assert a + b == b;
    } else {
      hide IndexOf, Lines;
      assert a[|a| - 1] in a;
      IndexOfAppend(a, b, '\n');
      var i := IndexOf(a, '\n').value;
      var rest := a[i + 1..];
      assert Whole(rest);
      assert (a + b)[..i] == a[..i];
      assert (a + b)[i + 1..] == rest + b;
      FirstLine(a, i);
      FirstLine(a + b, i);
      LinesAppend(rest, b);
      Regroup([a[..i]], Lines(rest), Lines(b));
    }
  }

  // ---- the chunked parser ----

  /** The text received before the transport failed or ended. */
  function Received(chunks: seq<Option<string>>): string {
    if chunks == [] || chunks[0].None? then "" else chunks[0].value + Received(chunks[1..])
  }

  lemma {:induction false} ReceivedAppend(a: seq<Option<string>>, b: seq<Option<string>>)
    requires forall i :: 0 <= i < |a| ==> a[i].Some?
    ensures Received(a + b) == Received(a) + Received(b)
  {
    if a == [] {
      assert a + b == b;
    } else {
      assert (a + b)[1..] == a[1..] + b;
      ReceivedAppend(a[1..], b);
    }
  }

  /** After `done` was parsed from the whole lines of a prefix, the rest of the text does not matter. */
  lemma DoneIsFinal(interpret: Interpret, input: string, consumed: string, rest: string, p: Progress)
    requires input == consumed + rest && Whole(consumed) && Parse(interpret, Lines(consumed), START) == (p, true)
    ensures OneShot(interpret, input) == p
  {
    LinesAppend(consumed, rest);
    ParseAppend(interpret, Lines(consumed), Lines(rest), START);
  }

  lemma OneLine(line: string)
    requires '\n' !in line
    ensures Lines(line + "\n") == [line]
  {
    var next := line + "\n";
    forall k | 0 <= k < |line|
      ensures next[k] != '\n'
    {
      assert line[k] in line;
    }
    FirstIndex(next, '\n', |line|);
    assert next[..|line|] == line && next[|line| + 1..] == "";
  }

  /** One more line consumed. */
  lemma ConsumeLine(interpret: Interpret, consumed: string, line: string, p: Progress)
    requires Whole(consumed) && '\n' !in line && Parse(interpret, Lines(consumed), START) == (p, false)
    ensures Whole(consumed + line + "\n")
    ensures Parse(interpret, Lines(consumed + line + "\n"), START) == Parse(interpret, [line], p)
  {
    var next := line + "\n";
    hide Lines, Parse;
    Regroup(consumed, line, "\n");
    LinesAppend(consumed, next);
    OneLine(line);
    ParseAppend(interpret, Lines(consumed), [line], START);
  }

  /** Text without a newline adds no complete line. */
  lemma NoLineYet(interpret: Interpret, input: string, consumed: string, buffer: string)
    requires input == consumed + buffer && Whole(consumed) && '\n' !in buffer
    ensures OneShot(interpret, input) == Parse(interpret, Lines(consumed), START).0
  {
    LinesAppend(consumed, buffer);
    assert Lines(buffer) == [];
    assert Lines(consumed) + [] == Lines(consumed);
  }

  /** `p` is what the whole lines of `consumed` parse to, and `buffer` is the text behind them. */
  ghost predicate Consumed(interpret: Interpret, input: string, consumed: string, buffer: string, p: Progress,
                           done: bool)
  {
    consumed + buffer == input && Whole(consumed) && Parse(interpret, Lines(consumed), START) == (p, done)
  }

  lemma ConsumeNext(interpret: Interpret, input: string, consumed: string, buffer: string, p: Progress)
    requires Consumed(interpret, input, consumed, buffer, p, false) && IndexOf(buffer, '\n').Some?
    ensures var n := IndexOf(buffer, '\n').value;
      var (q, done) := Parse(interpret, [buffer[..n]], p);
      Consumed(interpret, input, consumed + buffer[..n] + "\n", buffer[n + 1..], q, done)
  {
    hide Lines, Parse, IndexOf;
    var n := IndexOf(buffer, '\n').value;
    ConsumeLine(interpret, consumed, buffer[..n], p);
    assert buffer == buffer[..n] + ("\n" + buffer[n + 1..]);
    Regroup(consumed, buffer[..n], "\n" + buffer[n + 1..]);
    Regroup(consumed + buffer[..n], "\n", buffer[n + 1..]);
  }

  /** The inner loop: takes complete lines off the buffer until none is left or `[DONE]` was read. */
  method TakeLines(interpret: Interpret, pending: string, before: Progress, ghost input: string, ghost taken: string)
    returns (buffer: string, p: Progress, done: bool, ghost consumed: string)
    requires Consumed(interpret, input, taken, pending, before, false)
    ensures Consumed(interpret, input, consumed, buffer, p, done)
    ensures !done ==> '\n' !in buffer
  {
    buffer, p, consumed := pending, before, taken;
    var newline := IndexOf(buffer, '\n');
    while newline.Some?
      invariant newline == IndexOf(buffer, '\n')
      invariant Consumed(interpret, input, consumed, buffer, p, false)
      decreases |buffer|
    {
      var line := buffer[..newline.value];
      ConsumeNext(interpret, input, consumed, buffer, p);
      consumed := consumed + line + "\n";
      buffer := buffer[newline.value + 1..];
      var meaning := LineMeaning(interpret, line);
      assert [line][1..] == [];
      if meaning.Done? {
        return buffer, p, true, consumed;
      }
      if meaning.Carries? {
        p := AddDelta(p, meaning.delta);
      }
      newline := IndexOf(buffer, '\n');
    }
    done := false;
  }

  lemma ReceivedOne(chunk: Option<string>)
    requires chunk.Some?
    ensures Received([chunk]) == chunk.value
  {
  }

  lemma ReceivedNext(chunks: seq<Option<string>>, i: nat)
    requires i < |chunks| && forall j :: 0 <= j <= i ==> chunks[j].Some?
    ensures Received(chunks[..i + 1]) == Received(chunks[..i]) + chunks[i].value
  {
    hide Received;
    ReceivedOne(chunks[i]);
    assert chunks[..i + 1] == chunks[..i] + [chunks[i]];
    ReceivedAppend(chunks[..i], [chunks[i]]);
  }

  lemma ReceivedSplit(chunks: seq<Option<string>>, i: nat)
    requires i <= |chunks| && forall j :: 0 <= j < i ==> chunks[j].Some?
    ensures Received(chunks) == Received(chunks[..i]) + Received(chunks[i..])
  {
    hide Received;
    assert chunks == chunks[..i] + chunks[i..];
    ReceivedAppend(chunks[..i], chunks[i..]);
  }

  lemma ReceivedMore(interpret: Interpret, chunks: seq<Option<string>>, i: nat, consumed: string, buffer: string,
                     p: Progress)
    requires i < |chunks| && forall j :: 0 <= j <= i ==> chunks[j].Some?
    requires Consumed(interpret, Received(chunks[..i]), consumed, buffer, p, false)
    ensures Consumed(interpret, Received(chunks[..i + 1]), consumed, buffer + chunks[i].value, p, false)
  {
    ReceivedNext(chunks, i);
    Regroup(consumed, buffer, chunks[i].value);
  }

  lemma ReceivedBehind(chunks: seq<Option<string>>, i: nat, consumed: string, buffer: string)
    requires i < |chunks| && forall j :: 0 <= j <= i ==> chunks[j].Some?
    requires consumed + buffer == Received(chunks[..i + 1])
    ensures Received(chunks) == consumed + (buffer + Received(chunks[i + 1..]))
  {
    ReceivedSplit(chunks, i + 1);
    Regroup(consumed, buffer, Received(chunks[i + 1..]));
  }

  lemma DoneEarly(interpret: Interpret, chunks: seq<Option<string>>, i: nat, consumed: string, buffer: string,
                  p: Progress)
    requires i < |chunks| && forall j :: 0 <= j <= i ==> chunks[j].Some?
    requires Consumed(interpret, Received(chunks[..i + 1]), consumed, buffer, p, true)
    ensures OneShot(interpret, Received(chunks)) == p
  {
    ReceivedBehind(chunks, i, consumed, buffer);
    DoneIsFinal(interpret, Received(chunks), consumed, buffer + Received(chunks[i + 1..]), p);
  }

  lemma ReceivedAll(chunks: seq<Option<string>>, i: nat)
    requires i <= |chunks| && (forall j :: 0 <= j < i ==> chunks[j].Some?) && (i < |chunks| ==> chunks[i].None?)
    ensures Received(chunks) == Received(chunks[..i])
  {
    ReceivedAppend(chunks[..i], chunks[i..]);
    assert chunks == chunks[..i] + chunks[i..];
  }

  lemma InputEnded(interpret: Interpret, chunks: seq<Option<string>>, i: nat, consumed: string, buffer: string,
                   p: Progress)
    requires i <= |chunks| && (forall j :: 0 <= j < i ==> chunks[j].Some?) && (i < |chunks| ==> chunks[i].None?)
    requires Consumed(interpret, Received(chunks[..i]), consumed, buffer, p, false) && '\n' !in buffer
    ensures OneShot(interpret, Received(chunks)) == p
  {
    ReceivedAll(chunks, i);
    NoLineYet(interpret, Received(chunks), consumed, buffer);
  }

  /**
   `parse_gateway_stream`: whatever way the text is cut into chunks, the result is the one-shot
   parse of everything received. Inside, consumed lines and buffer together always are the input
   so far, and no newline stays in the buffer.
   */
  method ParseGatewayStream(interpret: Interpret, chunks: seq<Option<string>>)
    returns (texts: seq<string>, calls: seq<Call>)
    ensures texts == OneShot(interpret, Received(chunks)).texts
    ensures calls == Returned(interpret, Received(chunks))
  {
    var p := START;
    var buffer := "";
    ghost var consumed := "";
    var i := 0;
    while i < |chunks| && chunks[i].Some?
      invariant i <= |chunks|
      invariant forall j :: 0 <= j < i ==> chunks[j].Some?
      invariant Consumed(interpret, Received(chunks[..i]), consumed, buffer, p, false) && '\n' !in buffer
    {
      ReceivedMore(interpret, chunks, i, consumed, buffer, p);
      var done;
      buffer, p, done, consumed :=
        TakeLines(interpret, buffer + chunks[i].value, p, Received(chunks[..i + 1]), consumed);
      if done {
        DoneEarly(interpret, chunks, i, consumed, buffer, p);
        calls := CollectToolCalls(p.calls);
        return p.texts, calls;
      }
      i := i + 1;
    }
    InputEnded(interpret, chunks, i, consumed, buffer, p);
    calls := CollectToolCalls(p.calls);
    texts := p.texts;
  }

  /** A text cut into chunks of the given sizes, the last chunk taking what is left. */
  function Cut(text: string, sizes: seq<nat>): seq<Option<string>>
    decreases |sizes|
  {
    if sizes == [] then [Some(text)]
    else
      var n := if sizes[0] <= |text| then sizes[0] else |text|;
      [Some(text[..n])] + Cut(text[n..], sizes[1..])
  }

  /** However a text is cut, the same text is received, so `ParseGatewayStream` returns the same for every cut. */
  lemma {:induction false} CutAnywhere(text: string, sizes: seq<nat>)
    ensures Received(Cut(text, sizes)) == text
    decreases |sizes|
  {
    if sizes != [] {
      var n := if sizes[0] <= |text| then sizes[0] else |text|;
      CutAnywhere(text[n..], sizes[1..]);
      assert Cut(text, sizes)[1..] == Cut(text[n..], sizes[1..]);
      assert text == text[..n] + text[n..];
    }
  }

  // ---- calls in index order ----

  function InsertIndex(k: nat, s: seq<nat>): (r: seq<nat>)
    ensures forall x :: x in r <==> x == k || x in s
  {
    if s == [] then [k]
    else
      assert s == [s[0]] + s[1..];
      if k <= s[0] then [k] + s else [s[0]] + InsertIndex(k, s[1..])
  }

  function SortIndices(s: seq<nat>): (r: seq<nat>)
    ensures forall x :: x in r <==> x in s
  {
    if s == [] then []
    else
      assert s == [s[0]] + s[1..];
      InsertIndex(s[0], SortIndices(s[1..]))
  }

  lemma {:induction false} InsertIncreases(k: nat, s: seq<nat>)
    requires Increasing(s) && k !in s
    ensures Increasing(InsertIndex(k, s))
  {
    if s != [] && k > s[0] {
      var tail := s[1..];
      InsertIncreases(k, tail);
      var rest := InsertIndex(k, tail);
      forall x | x in tail
        ensures s[0] < x
      {
        IncreasingFirst(s, x);
      }
      forall j | 0 <= j < |rest|
        ensures s[0] < rest[j]
      {
        assert rest[j] in rest;
      }
    } else if s != [] {
      assert s[0] in s;
    }
  }

  lemma {:induction false} SortIncreases(s: seq<nat>)
    requires Distinct(s)
    ensures Increasing(SortIndices(s))
  {
    if s != [] {
      assert Distinct(s[1..]);
      SortIncreases(s[1..]);
      assert s[0] !in s[1..];
      InsertIncreases(s[0], SortIndices(s[1..]));
    }
  }

  /** The keys of a map in increasing order. */
  ghost function Ascending(keys: set<nat>): (r: seq<nat>)
    ensures Increasing(r) && forall k :: k in r <==> k in keys
  {
    if keys == {} then []
    else
      var k :| k in keys;
      var rest := Ascending(keys - {k});
      InsertIncreases(k, rest);
      InsertIndex(k, rest)
  }

  function Pick(calls: map<nat, Call>, indices: seq<nat>): (r: seq<Call>)
    requires forall k :: k in indices ==> k in calls
    ensures |r| == |indices|
    ensures forall i :: 0 <= i < |r| ==> r[i] == calls[indices[i]]
  {
    if indices == [] then []
    else
      assert indices == indices[..|indices| - 1] + [indices[|indices| - 1]];
      Pick(calls, indices[..|indices| - 1]) + [calls[indices[|indices| - 1]]]
  }

  /** Once per index, in increasing index order. */
  ghost function InIndexOrder(calls: map<nat, Call>): seq<Call> {
    Pick(calls, Ascending(calls.Keys))
  }

  /** The calls that a text stands for. */
  ghost function Returned(interpret: Interpret, text: string): seq<Call> {
    InIndexOrder(OneShot(interpret, text).calls)
  }

  /** `collect_tool_calls`: takes the keys in whatever order the hash map gives them. */
  method CollectToolCalls(calls: map<nat, Call>) returns (r: seq<Call>)
    ensures r == InIndexOrder(calls)
  {
    var indices: seq<nat> := [];
    var keys := calls.Keys;
    while keys != {}
      invariant keys <= calls.Keys && Distinct(indices)
      invariant forall k :: k in calls <==> k in keys || k in indices
      invariant forall k :: k in keys ==> k !in indices
      decreases keys
    {
      var k :| k in keys;
      DistinctAppend(indices, k);
      indices := indices + [k];
      keys := keys - {k};
    }
    SortIncreases(indices);
    indices := SortIndices(indices);
    IncreasingIsUnique(indices, Ascending(calls.Keys));
    r := TakeEach(calls, indices);
  }

  /** The loop that takes the calls out of the map, one index after another. */
  method TakeEach(calls: map<nat, Call>, indices: seq<nat>) returns (r: seq<Call>)
    requires Distinct(indices) && forall k :: k in indices ==> k in calls
    ensures r == Pick(calls, indices)
  {
    r := [];
    var left := calls;
    for i := 0 to |indices|
      invariant r == Pick(calls, indices[..i])
      invariant forall j :: i <= j < |indices| ==> indices[j] in left && left[indices[j]] == calls[indices[j]]
    {
      assert indices[..i + 1][..i] == indices[..i];
      if indices[i] in left {
        r := r + [left[indices[i]]];
        left := left - {indices[i]};
      }
    }
    assert indices[..|indices|] == indices;
  }

  // ---- what accumulation means ----

  /** The arguments carried by one index's fragments, in order. */
  function ArgumentsOf(fs: seq<Fragment>, index: nat): string {
    if fs == [] then ""
    else
      var rest, f := ArgumentsOf(fs[..|fs| - 1], index), fs[|fs| - 1];
      if f.index == index && f.arguments.Some? then rest + f.arguments.value else rest
  }

  function FirstOf(fs: seq<Fragment>, index: nat): (r: Option<Fragment>)
    ensures r.Some? ==> r.value in fs && r.value.index == index
    ensures r.None? <==> forall f :: f in fs ==> f.index != index
  {
    if fs == [] then None
    else
      assert fs == [fs[0]] + fs[1..];
      if fs[0].index == index then Some(fs[0]) else FirstOf(fs[1..], index)
  }

  /** The call that an index's fragments make up: id and name of the first, the arguments of all. */
  function CallOf(fs: seq<Fragment>, index: nat): Call
    requires FirstOf(fs, index).Some?
  {
    Call(FirstOf(fs, index).value.id, FirstOf(fs, index).value.name, ArgumentsOf(fs, index))
  }

  lemma {:induction false} FirstOfAppend(fs: seq<Fragment>, f: Fragment, index: nat)
    ensures FirstOf(fs + [f], index)
      == if FirstOf(fs, index).Some? then FirstOf(fs, index) else FirstOf([f], index)
  {
    if fs == [] {
      assert fs + [f] == [f];
    } else {
      assert (fs + [f])[1..] == fs[1..] + [f];
      FirstOfAppend(fs[1..], f, index);
    }
  }

  /** One list of fragments, folded from no calls. */
  lemma {:induction false} FoldsByIndex(fs: seq<Fragment>, index: nat)
    ensures var calls := AddFragments(map[], fs);
      && (index in calls <==> FirstOf(fs, index).Some?)
      && (index in calls ==> calls[index] == CallOf(fs, index))
  {
    if fs != [] {
      var rest, f := fs[..|fs| - 1], fs[|fs| - 1];
      FoldsByIndex(rest, index);
      FirstOfAppend(rest, f, index);
      assert fs == rest + [f];
      if FirstOf(rest, index).None? {
        NoArguments(rest, index);
      }
    }
  }

  lemma {:induction false} NoArguments(fs: seq<Fragment>, index: nat)
    requires forall f :: f in fs ==> f.index != index
    ensures ArgumentsOf(fs, index) == ""
  {
    if fs != [] {
      assert fs == fs[..|fs| - 1] + [fs[|fs| - 1]];
      NoArguments(fs[..|fs| - 1], index);
    }
  }

  lemma {:induction false} AddFragmentsAppend(calls: map<nat, Call>, a: seq<Fragment>, b: seq<Fragment>)
    ensures AddFragments(calls, a + b) == AddFragments(AddFragments(calls, a), b)
  {
    if b == [] {
      assert a + b == a;
    } else {
      assert (a + b)[..|a + b| - 1] == a + b[..|b| - 1];
      AddFragmentsAppend(calls, a, b[..|b| - 1]);
    }
  }

  /** The fragments of all deltas up to the end mark, in the order of the lines. */
  function FragmentsOf(interpret: Interpret, lines: seq<string>): seq<Fragment> {
    if lines == [] then []
    else
      match LineMeaning(interpret, lines[0])
      case Done => []
      case Carries(delta) => delta.fragments + FragmentsOf(interpret, lines[1..])
      case Nothing => FragmentsOf(interpret, lines[1..])
  }

  /** The parser's calls are the fold of all fragments, however the deltas spread them over the lines. */
  lemma {:induction false} CallsAreFolded(interpret: Interpret, lines: seq<string>, p: Progress)
    ensures Parse(interpret, lines, p).0.calls == AddFragments(p.calls, FragmentsOf(interpret, lines))
  {
    if lines != [] {
      match LineMeaning(interpret, lines[0])
      case Done =>
      case Carries(delta) =>
        CallsAreFolded(interpret, lines[1..], AddDelta(p, delta));
        AddFragmentsAppend(p.calls, delta.fragments, FragmentsOf(interpret, lines[1..]));
      case Nothing => CallsAreFolded(interpret, lines[1..], p);
    }
  }

  /**
   What the parser returns for a text: one call per index that a fragment anywhere in the stream
   names, in increasing index order, with id and name from the index's first fragment and arguments
   equal to the concatenation of its fragments' arguments, across lines and deltas.
   */
  lemma AccumulatesByIndex(interpret: Interpret, text: string) returns (indices: seq<nat>)
    ensures var fs, calls := FragmentsOf(interpret, Lines(text)), Returned(interpret, text);
      && Increasing(indices) && (forall k :: k in indices <==> FirstOf(fs, k).Some?)
      && |calls| == |indices|
      && (forall i :: 0 <= i < |calls| ==> indices[i] in indices && calls[i] == CallOf(fs, indices[i]))
  {
    hide FragmentsOf, Lines, FirstOf, CallOf, AddFragments, Parse;
    var fs := FragmentsOf(interpret, Lines(text));
    CallsAreFolded(interpret, Lines(text), START);
    var calls := OneShot(interpret, text).calls;
    indices := Ascending(calls.Keys);
    forall k: nat
      ensures k in indices <==> FirstOf(fs, k).Some?
      ensures k in indices ==> calls[k] == CallOf(fs, k)
    {
      FoldsByIndex(fs, k);
    }
    assert forall i :: 0 <= i < |indices| ==> indices[i] in indices;
  }

  // ---- deltas of different calls may change places ----

  lemma FragmentsCommute(calls: map<nat, Call>, f: Fragment, g: Fragment)
    requires f.index != g.index
    ensures AddFragment(AddFragment(calls, f), g) == AddFragment(AddFragment(calls, g), f)
  {
  }

  lemma {:induction false} FragmentMovesOver(calls: map<nat, Call>, fs: seq<Fragment>, g: Fragment)
    requires forall f :: f in fs ==> f.index != g.index
    ensures AddFragments(AddFragment(calls, g), fs) == AddFragment(AddFragments(calls, fs), g)
  {
    if fs != [] {
      var rest, f := fs[..|fs| - 1], fs[|fs| - 1];
      FragmentMovesOver(calls, rest, g);
      FragmentsCommute(AddFragments(calls, rest), f, g);
    }
  }

  predicate OfDifferentCalls(a: seq<Fragment>, b: seq<Fragment>) {
    forall f, g :: f in a && g in b ==> f.index != g.index
  }

  lemma {:induction false} ListsCommute(calls: map<nat, Call>, a: seq<Fragment>, b: seq<Fragment>)
    requires OfDifferentCalls(a, b)
    ensures AddFragments(AddFragments(calls, a), b) == AddFragments(AddFragments(calls, b), a)
  {
    if b != [] {
      var rest, g := b[..|b| - 1], b[|b| - 1];
      ListsCommute(calls, a, rest);
      FragmentMovesOver(AddFragments(calls, rest), a, g);
    }
  }

  /** Two neighbouring blocks of fragments of different calls, within one delta or over several, may change places. */
  lemma SwapBlocks(interpret: Interpret, text: string, swapped: string,
                   before: seq<Fragment>, a: seq<Fragment>, b: seq<Fragment>, after: seq<Fragment>)
    requires OfDifferentCalls(a, b)
    requires FragmentsOf(interpret, Lines(text)) == before + a + b + after
    requires FragmentsOf(interpret, Lines(swapped)) == before + b + a + after
    ensures Returned(interpret, text) == Returned(interpret, swapped)
  {
    hide FragmentsOf, Lines, Parse, AddFragments, InIndexOrder;
    CallsAreFolded(interpret, Lines(text), START);
    CallsAreFolded(interpret, Lines(swapped), START);
    FoldFour(START.calls, before, a, b, after);
    FoldFour(START.calls, before, b, a, after);
    ListsCommute(AddFragments(START.calls, before), a, b);
  }

  lemma FoldFour(calls: map<nat, Call>, a: seq<Fragment>, b: seq<Fragment>, c: seq<Fragment>, d: seq<Fragment>)
    ensures AddFragments(calls, a + b + c + d)
         == AddFragments(AddFragments(AddFragments(AddFragments(calls, a), b), c), d)
  {
    hide AddFragments;
    AddFragmentsAppend(calls, a + b + c, d);
    AddFragmentsAppend(calls, a + b, c);
    AddFragmentsAppend(calls, a, b);
  }

  lemma {:induction false} FragmentsAppend(interpret: Interpret, a: seq<string>, b: seq<string>)
    ensures FragmentsOf(interpret, a + b)
         == FragmentsOf(interpret, a) + (if Parse(interpret, a, START).1 then [] else FragmentsOf(interpret, b))
  {
    if a == [] {
      assert a + b == b;
    } else {
      assert (a + b)[1..] == a[1..] + b;
      FragmentsAppend(interpret, a[1..], b);
      match LineMeaning(interpret, a[0])
      case Done =>
      case Carries(delta) =>
        DoneIsOfLines(interpret, a[1..], AddDelta(START, delta), START);
        Regroup(delta.fragments, FragmentsOf(interpret, a[1..]),
                if Parse(interpret, a, START).1 then [] else FragmentsOf(interpret, b));
      case Nothing =>
    }
  }

  lemma {:induction false} DoneIsOfLines(interpret: Interpret, lines: seq<string>, p: Progress, q: Progress)
    ensures Parse(interpret, lines, p).1 == Parse(interpret, lines, q).1
  {
    if lines != [] {
      match LineMeaning(interpret, lines[0])
      case Done =>
      case Carries(delta) => DoneIsOfLines(interpret, lines[1..], AddDelta(p, delta), AddDelta(q, delta));
      case Nothing => DoneIsOfLines(interpret, lines[1..], p, q);
    }
  }

  lemma TwoLines(interpret: Interpret, before: string, x: string, y: string, after: string)
    requires Whole(before) && '\n' !in x && '\n' !in y
    requires LineMeaning(interpret, x).Carries? && LineMeaning(interpret, y).Carries?
    ensures FragmentsOf(interpret, Lines(before + x + "\n" + y + "\n" + after))
         == FragmentsOf(interpret, Lines(before))
            + (if Parse(interpret, Lines(before), START).1 then []
               else LineMeaning(interpret, x).delta.fragments + LineMeaning(interpret, y).delta.fragments
                    + FragmentsOf(interpret, Lines(after)))
  {
    hide Lines, Parse, LineMeaning;
    var first, second := x + "\n", y + "\n";
    assert before + x + "\n" + y + "\n" + after == before + (first + (second + after));
    LinesAppend(before, first + (second + after));
    LinesAppend(first, second + after);
    LinesAppend(second, after);
    OneLine(x);
    OneLine(y);
    var rest := [y] + Lines(after);
    assert [x] + rest != [] && ([x] + rest)[1..] == rest && rest[1..] == Lines(after);
    FragmentsAppend(interpret, Lines(before), [x] + rest);
    Regroup(LineMeaning(interpret, x).delta.fragments, LineMeaning(interpret, y).delta.fragments,
            FragmentsOf(interpret, Lines(after)));
  }

  /** Two neighbouring lines of the stream whose deltas are of different calls may change places. */
  lemma SwapNeighbours(interpret: Interpret, before: string, x: string, y: string, after: string)
    requires Whole(before) && '\n' !in x && '\n' !in y
    requires LineMeaning(interpret, x).Carries? && LineMeaning(interpret, y).Carries?
    requires OfDifferentCalls(LineMeaning(interpret, x).delta.fragments, LineMeaning(interpret, y).delta.fragments)
    ensures Returned(interpret, before + x + "\n" + y + "\n" + after)
         == Returned(interpret, before + y + "\n" + x + "\n" + after)
  {
    hide Lines, FragmentsOf, LineMeaning, Returned, OfDifferentCalls;
    var a, b := LineMeaning(interpret, x).delta.fragments, LineMeaning(interpret, y).delta.fragments;
    var text, swapped := before + x + "\n" + y + "\n" + after, before + y + "\n" + x + "\n" + after;
    var head, tail := FragmentsOf(interpret, Lines(before)), FragmentsOf(interpret, Lines(after));
    TwoLines(interpret, before, x, y, after);
    TwoLines(interpret, before, y, x, after);
    if Parse(interpret, Lines(before), START).1 {
      Undisturbed(interpret, text, swapped);
    } else {
      Regroup(head, a + b, tail);
      Regroup(head, b + a, tail);
      Regroup(head, a, b);
      Regroup(head, b, a);
      SwapBlocks(interpret, text, swapped, head, a, b, tail);
    }
  }

  lemma Undisturbed(interpret: Interpret, text: string, other: string)
    requires FragmentsOf(interpret, Lines(text)) == FragmentsOf(interpret, Lines(other))
    ensures Returned(interpret, text) == Returned(interpret, other)
  {
    hide Lines, FragmentsOf, Parse, InIndexOrder;
    CallsAreFolded(interpret, Lines(text), START);
    CallsAreFolded(interpret, Lines(other), START);
  }
}
