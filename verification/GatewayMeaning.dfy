/** What a gateway stream says, line by line and by position (cli/src/chat.rs, `parse_gateway_stream`). */
module GatewayMeaning {
  import opened Common
  import opened GatewayStream

  // ---- the text received ----

  ghost function Flat<T>(parts: seq<seq<T>>): seq<T> {
    if parts == [] then [] else parts[0] + Flat(parts[1..])
  }

  /** What is received is what the chunks before the first failure hold, in order. */
  lemma {:induction false} ReceivedIsFlat(chunks: seq<Option<string>>, texts: seq<string>)
    requires |texts| <= |chunks| && forall i :: 0 <= i < |texts| ==> chunks[i] == Some(texts[i])
    requires |texts| < |chunks| ==> chunks[|texts|].None?
    ensures Received(chunks) == Flat(texts)
  {
    if texts != [] {
      ReceivedIsFlat(chunks[1..], texts[1..]);
    }
  }

  // ---- the lines of a text ----

  /** Lines written one after another, each closed by a newline. */
  ghost function Written(lines: seq<string>): string {
    if lines == [] then "" else lines[0] + "\n" + Written(lines[1..])
  }

  ghost predicate AreLines(lines: seq<string>) { forall i :: 0 <= i < |lines| ==> '\n' !in lines[i] }

  lemma WrittenNext(line: string, lines: seq<string>, rest: string)
    ensures Written([line] + lines) + rest == (line + "\n") + (Written(lines) + rest)
  {
    assert ([line] + lines)[1..] == lines;
  }

  /** The lines found in a text are those it was written from; an unclosed rest is no line. */
  lemma {:induction false} FindsLines(lines: seq<string>, rest: string)
    requires AreLines(lines) && '\n' !in rest
    ensures Lines(Written(lines) + rest) == lines
  {
    if lines == [] {
      assert Written(lines) + rest == rest;
    } else {
      var others := Written(lines[1..]) + rest;
      FindsLines(lines[1..], rest);
      hide Lines, Written;
      WrittenNext(lines[0], lines[1..], rest);
      assert lines == [lines[0]] + lines[1..];
      OneLine(lines[0]);
      LinesAppend(lines[0] + "\n", others);
    }
  }

  lemma NewlineSplits(text: string, n: nat)
    requires n < |text| && text[n] == '\n'
    ensures text == (text[..n] + "\n") + text[n + 1..]
  {
  }

  /** Every text is written from its lines and such a rest. */
  lemma {:induction false} EveryTextIsWritten(text: string) returns (rest: string)
    ensures AreLines(Lines(text)) && '\n' !in rest && text == Written(Lines(text)) + rest
    decreases |text|
  {
    var newline := IndexOf(text, '\n');
    if newline.None? {
      rest := text;
      assert Written([]) + rest == rest;
    } else {
      var n := newline.value;
      var others := text[n + 1..];
      FirstLine(text, n);
      rest := EveryTextIsWritten(others);
      hide Lines, IndexOf, Written;
      NewlineSplits(text, n);
      WrittenNext(text[..n], Lines(others), rest);
    }
  }

  // ---- the meaning of a line ----

  ghost function Carriages(n: nat): string { if n == 0 then "" else Carriages(n - 1) + "\r" }

  /** The line carries the data: behind its prefix, up to any carriage returns at the end. */
  ghost predicate IsData(line: string, data: string) {
    && (data != "" ==> data[|data| - 1] != '\r')
    && exists n: nat :: line == "data: " + data + Carriages(n)
  }

  lemma {:induction false} TrimmedIs(line: string, kept: string, n: nat)
    requires line == kept + Carriages(n) && (kept != "" ==> kept[|kept| - 1] != '\r')
    ensures TrimCarriage(line) == kept
  {
    if n == 0 {
      assert line == kept;
    } else {
      assert line[..|line| - 1] == kept + Carriages(n - 1);
      TrimmedIs(line[..|line| - 1], kept, n - 1);
    }
  }

  lemma {:induction false} TrimsCarriages(line: string) returns (n: nat)
    ensures line == TrimCarriage(line) + Carriages(n)
    ensures var kept := TrimCarriage(line); kept != "" ==> kept[|kept| - 1] != '\r'
  {
    if line != [] && line[|line| - 1] == '\r' {
      n := TrimsCarriages(line[..|line| - 1]);
      assert line == TrimCarriage(line) + Carriages(n) + "\r";
      assert line == TrimCarriage(line) + Carriages(n + 1);
      n := n + 1;
    } else {
      n := 0;
    }
  }

  lemma DataIff(line: string, data: string)
    ensures IsData(line, data) <==> DATA <= TrimCarriage(line) && TrimCarriage(line)[|DATA|..] == data
  {
    if IsData(line, data) {
      var n: nat :| line == "data: " + data + Carriages(n);
      assert line == (DATA + data) + Carriages(n);
      TrimmedIs(line, DATA + data, n);
    }
    var kept := TrimCarriage(line);
    if DATA <= kept && kept[|DATA|..] == data {
      var n := TrimsCarriages(line);
      assert kept == "data: " + data;
    }
  }

  /** The line carries a delta: its data is not the end mark and reads as one. */
  ghost predicate HasDelta(interpret: Interpret, line: string, delta: Delta) {
    exists data :: IsData(line, data) && data != "[DONE]" && interpret(data) == Some(delta)
  }

  lemma MeaningIs(interpret: Interpret, line: string)
    ensures LineMeaning(interpret, line).Done? <==> IsData(line, "[DONE]")
    ensures forall delta :: LineMeaning(interpret, line) == Carries(delta) <==> HasDelta(interpret, line, delta)
  {
    forall data
      ensures IsData(line, data) <==> DATA <= TrimCarriage(line) && TrimCarriage(line)[|DATA|..] == data
    {
      DataIff(line, data);
    }
    hide IsData, TrimCarriage;
  }

  // ---- the whole stream ----

  /** `n` lines stand before the first end mark, or are all there are. */
  ghost predicate EndsBefore(lines: seq<string>, n: nat) {
    && n <= |lines| && (forall i :: 0 <= i < n ==> !IsData(lines[i], "[DONE]"))
    && (n < |lines| ==> IsData(lines[n], "[DONE]"))
  }

  /** The deltas before the end mark, and the places of their lines: all of them, in line order. */
  ghost predicate Reads(interpret: Interpret, lines: seq<string>, n: nat, places: seq<nat>, deltas: seq<Delta>) {
    && EndsBefore(lines, n) && |places| == |deltas|
    && (forall i, j :: 0 <= i < j < |places| ==> places[i] < places[j])
    && (forall j :: 0 <= j < |places| ==> places[j] < n && HasDelta(interpret, lines[places[j]], deltas[j]))
    && (forall i: nat, delta | i < n && HasDelta(interpret, lines[i], delta) :: i in places)
  }

  /** The text that a delta holds, unless it is empty. */
  ghost function TextIn(delta: Delta): seq<string> {
    if delta.content in {None, Some("")} then [] else [delta.content.value]
  }

  /** The texts that deltas hold, in order. */
  ghost function TextsOf(deltas: seq<Delta>): seq<string> {
    if deltas == [] then [] else TextIn(deltas[0]) + TextsOf(deltas[1..])
  }

  ghost function FragmentsIn(deltas: seq<Delta>): seq<Fragment> {
    if deltas == [] then [] else deltas[0].fragments + FragmentsIn(deltas[1..])
  }

  lemma TextsNext(delta: Delta, deltas: seq<Delta>)
    ensures TextsOf([delta] + deltas) == TextIn(delta) + TextsOf(deltas)
    ensures FragmentsIn([delta] + deltas) == delta.fragments + FragmentsIn(deltas)
  {
    assert ([delta] + deltas)[1..] == deltas;
  }

  ghost function Shifted(places: seq<nat>): (r: seq<nat>)
    ensures |r| == |places| && forall j :: 0 <= j < |r| ==> r[j] == places[j] + 1
  {
    seq(|places|, j requires 0 <= j < |places| => places[j] + 1)
  }

  lemma SkipsLine(interpret: Interpret, lines: seq<string>, n: nat, places: seq<nat>, deltas: seq<Delta>)
    requires lines != [] && Reads(interpret, lines[1..], n, places, deltas)
    requires !IsData(lines[0], "[DONE]") && forall delta :: !HasDelta(interpret, lines[0], delta)
    ensures Reads(interpret, lines, n + 1, Shifted(places), deltas)
  {
    hide IsData, HasDelta;
    forall i: nat, delta | i < n + 1 && HasDelta(interpret, lines[i], delta)
      ensures i in Shifted(places)
    {
      assert lines[1..][i - 1] == lines[i];
      var j :| 0 <= j < |places| && places[j] == i - 1;
      assert Shifted(places)[j] == i;
    }
    assert forall i :: 0 < i < |lines| ==> lines[1..][i - 1] == lines[i];
  }

  lemma EndsLater(lines: seq<string>, n: nat)
    requires lines != [] && EndsBefore(lines[1..], n) && !IsData(lines[0], "[DONE]")
    ensures EndsBefore(lines, n + 1)
  {
    hide IsData;
    assert forall i :: 0 < i < |lines| ==> lines[1..][i - 1] == lines[i];
  }

  /** `all` is `places`, one line further on, behind the first line. */
  ghost predicate Moved(places: seq<nat>, all: seq<nat>) {
    && |all| == |places| + 1 && all[0] == 0
    && forall j :: 0 <= j < |places| ==> all[j + 1] == places[j] + 1
  }

  lemma StaysAscending(places: seq<nat>, all: seq<nat>)
    requires Moved(places, all) && forall i, j :: 0 <= i < j < |places| ==> places[i] < places[j]
    ensures forall i, j :: 0 <= i < j < |all| ==> all[i] < all[j]
  {
    forall i, j | 0 <= i < j < |all|
      ensures all[i] < all[j]
    {
      assert all[(j - 1) + 1] == places[j - 1] + 1;
      if i > 0 {
        assert all[(i - 1) + 1] == places[i - 1] + 1;
      }
    }
  }

  lemma StaysPlaced(interpret: Interpret, lines: seq<string>, n: nat, places: seq<nat>, all: seq<nat>,
                    deltas: seq<Delta>, more: seq<Delta>)
    requires lines != [] && n <= |lines| - 1 && Moved(places, all) && |deltas| == |places|
    requires more != [] && more[1..] == deltas && HasDelta(interpret, lines[0], more[0])
    requires forall j :: 0 <= j < |places| ==> places[j] < n && HasDelta(interpret, lines[1..][places[j]], deltas[j])
    ensures |more| == |all|
    ensures forall j :: 0 <= j < |all| ==> all[j] < n + 1 && HasDelta(interpret, lines[all[j]], more[j])
  {
    hide HasDelta;
    forall j | 0 <= j < |all|
      ensures all[j] < n + 1 && HasDelta(interpret, lines[all[j]], more[j])
    {
      if j > 0 {
        assert all[(j - 1) + 1] == places[j - 1] + 1 && more[j] == deltas[j - 1];
        assert lines[1..][places[j - 1]] == lines[all[j]];
      }
    }
  }

  lemma StaysComplete(interpret: Interpret, lines: seq<string>, n: nat, places: seq<nat>, all: seq<nat>)
    requires lines != [] && n <= |lines| - 1 && Moved(places, all)
    requires forall i: nat, d | i < n && HasDelta(interpret, lines[1..][i], d) :: i in places
    ensures forall i: nat, d | i < n + 1 && HasDelta(interpret, lines[i], d) :: i in all
  {
    hide HasDelta;
    forall i: nat, d | i < n + 1 && HasDelta(interpret, lines[i], d)
      ensures i in all
    {
      if i == 0 {
        assert all[0] == 0;
      } else {
        assert lines[1..][i - 1] == lines[i];
        var j :| 0 <= j < |places| && places[j] == i - 1;
        assert all[j + 1] == i;
      }
    }
  }

  lemma TakesLine(interpret: Interpret, lines: seq<string>, n: nat, places: seq<nat>, deltas: seq<Delta>, delta: Delta)
    requires lines != [] && Reads(interpret, lines[1..], n, places, deltas)
    requires !IsData(lines[0], "[DONE]") && HasDelta(interpret, lines[0], delta)
    ensures Reads(interpret, lines, n + 1, [0] + Shifted(places), [delta] + deltas)
  {
    EndsLater(lines, n);
    var all, more := [0] + Shifted(places), [delta] + deltas;
    assert Moved(places, all) && more[1..] == deltas && more[0] == delta;
    hide IsData, HasDelta, Moved, Shifted;
    StaysAscending(places, all);
    StaysPlaced(interpret, lines, n, places, all, deltas, more);
    StaysComplete(interpret, lines, n, places, all);
  }

  lemma NothingRead(interpret: Interpret, lines: seq<string>)
    requires lines != [] && IsData(lines[0], "[DONE]")
    ensures Reads(interpret, lines, 0, [], []) && TextsOf([]) == [] && FragmentsIn([]) == []
  {
    hide IsData;
  }

  // ---- where the reading stops, which lines it takes, and what they carry ----

  ghost function EndOf(interpret: Interpret, lines: seq<string>): nat {
    if lines == [] || LineMeaning(interpret, lines[0]).Done? then 0 else EndOf(interpret, lines[1..]) + 1
  }

  ghost function PlacesOf(interpret: Interpret, lines: seq<string>): seq<nat> {
    if lines == [] then []
    else
      match LineMeaning(interpret, lines[0])
      case Done => []
      case Carries(_) => [0] + Shifted(PlacesOf(interpret, lines[1..]))
      case Nothing => Shifted(PlacesOf(interpret, lines[1..]))
  }

  ghost function DeltasOf(interpret: Interpret, lines: seq<string>): seq<Delta> {
    if lines == [] then []
    else
      match LineMeaning(interpret, lines[0])
      case Done => []
      case Carries(delta) => [delta] + DeltasOf(interpret, lines[1..])
      case Nothing => DeltasOf(interpret, lines[1..])
  }

  lemma {:induction false} DeltasAreRead(interpret: Interpret, lines: seq<string>)
    ensures Reads(interpret, lines, EndOf(interpret, lines), PlacesOf(interpret, lines), DeltasOf(interpret, lines))
  {
    if lines == [] {
      NoLines(interpret);
    } else {
      var rest := lines[1..];
      MeaningIs(interpret, lines[0]);
      hide HasDelta, IsData, LineMeaning, Reads, Shifted;
      match LineMeaning(interpret, lines[0])
      case Done => NothingRead(interpret, lines);
      case Nothing =>
        DeltasAreRead(interpret, rest);
        SkipsLine(interpret, lines, EndOf(interpret, rest), PlacesOf(interpret, rest), DeltasOf(interpret, rest));
      case Carries(delta) =>
        DeltasAreRead(interpret, rest);
        TakesLine(interpret, lines, EndOf(interpret, rest), PlacesOf(interpret, rest), DeltasOf(interpret, rest),
                  delta);
    }
  }

  lemma NoLines(interpret: Interpret)
    ensures Reads(interpret, [], 0, [], [])
  {
  }

  lemma AddsText(p: Progress, delta: Delta)
    ensures AddDelta(p, delta).texts == p.texts + TextIn(delta)
  {
  }

  lemma {:induction false} TextsAreRead(interpret: Interpret, lines: seq<string>, p: Progress)
    ensures Parse(interpret, lines, p).0.texts == p.texts + TextsOf(DeltasOf(interpret, lines))
  {
    hide LineMeaning, TextsOf, TextIn, AddDelta;
    assert TextsOf([]) == [] && p.texts + [] == p.texts by { NoTexts(); }
    if lines != [] {
      match LineMeaning(interpret, lines[0])
      case Done =>
      case Nothing => TextsAreRead(interpret, lines[1..], p);
      case Carries(delta) =>
        TextsAreRead(interpret, lines[1..], AddDelta(p, delta));
        TextsNext(delta, DeltasOf(interpret, lines[1..]));
        AddsText(p, delta);
        Regroup(p.texts, TextIn(delta), TextsOf(DeltasOf(interpret, lines[1..])));
    }
  }

  lemma NoTexts()
    ensures TextsOf([]) == [] && FragmentsIn([]) == []
  {
  }

  lemma {:induction false} FragmentsAreRead(interpret: Interpret, lines: seq<string>)
    ensures FragmentsOf(interpret, lines) == FragmentsIn(DeltasOf(interpret, lines))
  {
    hide LineMeaning, FragmentsIn;
    NoTexts();
    if lines != [] {
      match LineMeaning(interpret, lines[0])
      case Done =>
      case Nothing => FragmentsAreRead(interpret, lines[1..]);
      case Carries(delta) =>
        FragmentsAreRead(interpret, lines[1..]);
        TextsNext(delta, DeltasOf(interpret, lines[1..]));
    }
  }

  /**
   What is made of a text: the deltas of its lines before the first end mark, in line order and none
   left out. The texts returned are their contents, without the empty ones, and the calls are made
   of their fragments, one after another.
   */
  lemma StreamMeans(interpret: Interpret, text: string) returns (n: nat, places: seq<nat>, deltas: seq<Delta>)
    ensures Reads(interpret, Lines(text), n, places, deltas)
    ensures OneShot(interpret, text).texts == TextsOf(deltas)
    ensures FragmentsOf(interpret, Lines(text)) == FragmentsIn(deltas)
  {
    var lines := Lines(text);
    n, places, deltas := EndOf(interpret, lines), PlacesOf(interpret, lines), DeltasOf(interpret, lines);
    DeltasAreRead(interpret, lines);
    TextsAreRead(interpret, lines, START);
    FragmentsAreRead(interpret, lines);
    assert START.texts + TextsOf(deltas) == TextsOf(deltas);
  }
}
