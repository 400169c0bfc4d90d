/** Splitting a rollout log into tool time and think time (bench/codex_rollout_stats.py). */
module RolloutStats {
  import opened Common

  /** A tool call, or the output of one. */
  datatype Event = Event(time: real, output: bool)

  // ---- the boundaries of the intervals ----

  ghost predicate SeenCall(ev: seq<Event>, x: nat)
    requires x < |ev|
  {
    exists y :: 0 <= y <= x && !ev[y].output
  }

  /** From the first call on: an event that differs in kind from the one before it. */
  ghost predicate IsBoundary(ev: seq<Event>, x: nat) {
    x < |ev| && SeenCall(ev, x) && (x == 0 || !SeenCall(ev, x - 1) || ev[x].output != ev[x - 1].output)
  }

  /** `b` lists, in order, the boundaries among the first `n` events. */
  ghost predicate Boundaries(ev: seq<Event>, b: seq<nat>, n: nat) {
    Increasing(b) && forall x: nat :: x in b <==> x < n && IsBoundary(ev, x)
  }

  /** Boundaries alternate: calls at even positions, outputs at odd ones. */
  ghost predicate Alternating(ev: seq<Event>, b: seq<nat>) {
    forall m :: 0 <= m < |b| ==> b[m] < |ev| && (ev[b[m]].output <==> m % 2 == 1)
  }

  function Half(n: int): int { n / 2 }

  /** Tool time runs from a call to the next output, think time from there to the next call. */
  ghost predicate Intervals(ev: seq<Event>, b: seq<nat>, tool: seq<real>, think: seq<real>)
    requires Alternating(ev, b)
  {
    && |tool| == Half(|b|) && |think| == (if b == [] then 0 else Half(|b| - 1))
    && (forall m :: 0 <= m < |tool| ==> tool[m] == ev[b[2 * m + 1]].time - ev[b[2 * m]].time)
    && (forall m :: 0 <= m < |think| ==> think[m] == ev[b[2 * m + 2]].time - ev[b[2 * m + 1]].time)
  }

  ghost predicate Same(ev: seq<Event>, from: nat, to: nat, output: bool)
    requires to <= |ev|
  {
    forall x :: from <= x < to ==> ev[x].output == output
  }

  // ---- one boundary after another ----

  lemma FirstCall(ev: seq<Event>, i: nat)
    requires i < |ev| && Same(ev, 0, i, true) && !ev[i].output
    ensures Boundaries(ev, [i], i + 1) && Alternating(ev, [i])
  {
    forall x: nat
      ensures x in [i] <==> x < i + 1 && IsBoundary(ev, x)
    {
      if x < i {
        assert !SeenCall(ev, x);
      } else if x == i {
        assert SeenCall(ev, i);
      }
    }
  }

  /** After the boundaries up to `l`, events of one kind follow, then one of the other kind. */
  lemma NextBoundary(ev: seq<Event>, b: seq<nat>, l: nat, next: nat)
    requires b != [] && b[|b| - 1] == l < next < |ev| && Boundaries(ev, b, l + 1) && Alternating(ev, b)
    requires Same(ev, l, next, ev[l].output) && ev[next].output != ev[l].output
    ensures Boundaries(ev, b + [next], next + 1) && Alternating(ev, b + [next])
  {
    assert l in b;
    var y :| 0 <= y <= l && !ev[y].output;
    forall x: nat
      ensures x in b + [next] <==> x < next + 1 && IsBoundary(ev, x)
    {
      if l < x <= next {
        assert SeenCall(ev, x) && SeenCall(ev, x - 1);
        assert x in b + [next] <==> x == next;
      }
    }
    assert Increasing(b + [next]) by {
      assert forall m :: 0 <= m < |b| ==> b[m] in b;
    }
  }

  lemma NoMoreBoundaries(ev: seq<Event>, b: seq<nat>, l: nat)
    requires b != [] && b[|b| - 1] == l < |ev| && Boundaries(ev, b, l + 1)
    requires Same(ev, l, |ev|, ev[l].output)
    ensures Boundaries(ev, b, |ev|)
  {
    assert l in b;
    var y :| 0 <= y <= l && !ev[y].output;
    forall x: nat
      ensures x in b <==> x < |ev| && IsBoundary(ev, x)
    {
      if l < x < |ev| {
        assert SeenCall(ev, x - 1);
      }
    }
  }

  /** Where the outer loop stands: before any call, before the next call, or after the last change of kind. */
  ghost predicate Position(ev: seq<Event>, b: seq<nat>, i: nat)
    requires i <= |ev| && Alternating(ev, b)
  {
    if b == [] then Same(ev, 0, i, true)
    else
      var l := b[|b| - 1];
      && Boundaries(ev, b, l + 1)
      && (if i <= l then !ev[l].output && Same(ev, i, l, true) else Same(ev, l, |ev|, ev[l].output))
  }

  lemma NothingYet(ev: seq<Event>)
    ensures Intervals(ev, [], [], [])
  {
  }

  lemma StartIntervals(ev: seq<Event>, i: nat, tool: seq<real>, think: seq<real>)
    requires Intervals(ev, [], tool, think) && i < |ev| && !ev[i].output
    ensures Intervals(ev, [i], tool, think)
  {
  }

  lemma NoBoundaries(ev: seq<Event>)
    requires Same(ev, 0, |ev|, true)
    ensures Boundaries(ev, [], |ev|)
  {
  }

  lemma OneMoreTool(ev: seq<Event>, b: seq<nat>, j: nat, tool: seq<real>, think: seq<real>)
    requires b != [] && Alternating(ev, b) && Alternating(ev, b + [j]) && Intervals(ev, b, tool, think)
    requires !ev[b[|b| - 1]].output
    ensures j < |ev| && Intervals(ev, b + [j], tool + [ev[j].time - ev[b[|b| - 1]].time], think)
  {
    var longer := b + [j];
    assert |b| % 2 == 1;
    assert longer[|b|] == j;
  }

  lemma OneMoreThink(ev: seq<Event>, b: seq<nat>, k: nat, tool: seq<real>, think: seq<real>)
    requires b != [] && Alternating(ev, b) && Alternating(ev, b + [k]) && Intervals(ev, b, tool, think)
    requires ev[b[|b| - 1]].output
    ensures k < |ev| && Intervals(ev, b + [k], tool, think + [ev[k].time - ev[b[|b| - 1]].time])
  {
    var longer := b + [k];
    assert |b| % 2 == 0;
    assert longer[|b|] == k;
  }

  /** The outer loop meets a call. */
  lemma CallIsBoundary(ev: seq<Event>, b: seq<nat>, i: nat, j: nat)
    requires i < j < |ev| && !ev[i].output && ev[j].output && Same(ev, i + 1, j, false)
    requires b != [] && Alternating(ev, b) && Position(ev, b, i)
    ensures b[|b| - 1] == i && Boundaries(ev, b, i + 1)
    ensures Alternating(ev, b + [j]) && Boundaries(ev, b + [j], j + 1)
  {
    assert b[|b| - 1] == i;
    NextBoundary(ev, b, i, j);
  }

  method Scan(ev: seq<Event>, from: nat, output: bool) returns (j: nat)
    requires from <= |ev|
    ensures from <= j <= |ev| && Same(ev, from, j, !output) && (j < |ev| ==> ev[j].output == output)
  {
    j := from;
    while j < |ev| && ev[j].output != output
      invariant from <= j <= |ev| && Same(ev, from, j, !output)
    {
      j := j + 1;
    }
  }

  /** The intervals between the boundaries of the whole log. */
  ghost predicate SplitsInto(ev: seq<Event>, tool: seq<real>, think: seq<real>) {
    exists b :: Boundaries(ev, b, |ev|) && Alternating(ev, b) && Intervals(ev, b, tool, think)
  }

  /** The outer loop's invariant. */
  ghost predicate Reached(ev: seq<Event>, b: seq<nat>, i: nat, tool: seq<real>, think: seq<real>) {
    i <= |ev| && Alternating(ev, b) && Position(ev, b, i) && Intervals(ev, b, tool, think)
  }

  lemma NothingReached(ev: seq<Event>)
    ensures Reached(ev, [], 0, [], [])
  {
    NothingYet(ev);
  }

  lemma PassOver(ev: seq<Event>, b: seq<nat>, i: nat, tool: seq<real>, think: seq<real>)
    requires Reached(ev, b, i, tool, think) && i < |ev| && ev[i].output
    ensures Reached(ev, b, i + 1, tool, think)
  {
    hide Intervals, Boundaries;
  }

  /** At a call: the boundaries so far end at it, or no output follows any more. */
  lemma AtCall(ev: seq<Event>, b: seq<nat>, i: nat, tool: seq<real>, think: seq<real>) returns (c: seq<nat>)
    requires Reached(ev, b, i, tool, think) && i < |ev| && !ev[i].output
    ensures Reached(ev, c, i, tool, think) && c != []
  {
    hide Intervals, Boundaries;
    c := b;
    if b == [] {
      FirstCall(ev, i);
      StartIntervals(ev, i, tool, think);
      c := [i];
    }
  }

  lemma CallsToTheEnd(ev: seq<Event>, b: seq<nat>, i: nat, tool: seq<real>, think: seq<real>)
    requires Reached(ev, b, i, tool, think) && b != [] && i < |ev| && Same(ev, i + 1, |ev|, false) && !ev[i].output
    ensures Reached(ev, b, i + 1, tool, think)
  {
    hide Intervals, Boundaries;
  }

  /** A call, its output at `j`, and the next call at `k` if there is one. */
  lemma OneRound(ev: seq<Event>, b: seq<nat>, i: nat, j: nat, k: nat, tool: seq<real>, think: seq<real>)
    returns (c: seq<nat>)
    requires Reached(ev, b, i, tool, think) && b != [] && i < j < k <= |ev| && !ev[i].output && ev[j].output
    requires Same(ev, i + 1, j, false) && Same(ev, j + 1, k, true) && (k < |ev| ==> !ev[k].output)
    ensures Reached(ev, c, j + 1, tool + [ev[j].time - ev[i].time],
                    if k < |ev| then think + [ev[k].time - ev[j].time] else think)
  {
    hide Intervals, Boundaries;
    CallIsBoundary(ev, b, i, j);
    OneMoreTool(ev, b, j, tool, think);
    c := b + [j];
    if k < |ev| {
      NextBoundary(ev, c, j, k);
      OneMoreThink(ev, c, k, tool + [ev[j].time - ev[i].time], think);
      c := c + [k];
    }
  }

  lemma AtTheEnd(ev: seq<Event>, b: seq<nat>, tool: seq<real>, think: seq<real>)
    requires Reached(ev, b, |ev|, tool, think)
    ensures SplitsInto(ev, tool, think)
  {
    hide Intervals, Boundaries;
    if b == [] {
      NoBoundaries(ev);
    } else {
      NoMoreBoundaries(ev, b, b[|b| - 1]);
    }
    assert Boundaries(ev, b, |ev|);
  }

  /** The interval loop. */
  method Split(ev: seq<Event>) returns (tool: seq<real>, think: seq<real>)
    ensures SplitsInto(ev, tool, think)
  {
    hide Reached, SplitsInto, Same;
    tool, think := [], [];
    ghost var b: seq<nat> := [];
    NothingReached(ev);
    var i := 0;
    while i < |ev|
      invariant i <= |ev| && Reached(ev, b, i, tool, think)
    {
      if !ev[i].output {
        b := AtCall(ev, b, i, tool, think);
        var j := Scan(ev, i + 1, true);
        if j < |ev| {
          var k := Scan(ev, j + 1, false);
          b := OneRound(ev, b, i, j, k, tool, think);
          tool := tool + [ev[j].time - ev[i].time];
          if k < |ev| {
            think := think + [ev[k].time - ev[j].time];
          }
          i := j;
        } else {
          CallsToTheEnd(ev, b, i, tool, think);
        }
      } else {
        PassOver(ev, b, i, tool, think);
      }
      i := i + 1;
    }
    AtTheEnd(ev, b, tool, think);
  }

  // ---- the times add up ----

  function Sum(s: seq<real>): real {
    if s == [] then 0.0 else Sum(s[..|s| - 1]) + s[|s| - 1]
  }

  lemma LastIsTool(ev: seq<Event>, b: seq<nat>, tool: seq<real>, think: seq<real>)
    requires Alternating(ev, b) && Intervals(ev, b, tool, think) && |b| > 1 && |b| % 2 == 0
    ensures tool != [] && tool[|tool| - 1] == ev[b[|b| - 1]].time - ev[b[|b| - 2]].time
    ensures |tool| == |think| + 1
    ensures Alternating(ev, b[..|b| - 1]) && Intervals(ev, b[..|b| - 1], tool[..|tool| - 1], think)
  {
    assert 2 * (|tool| - 1) + 1 == |b| - 1;
  }

  lemma LastIsThink(ev: seq<Event>, b: seq<nat>, tool: seq<real>, think: seq<real>)
    requires Alternating(ev, b) && Intervals(ev, b, tool, think) && |b| > 1 && |b| % 2 == 1
    ensures think != [] && think[|think| - 1] == ev[b[|b| - 1]].time - ev[b[|b| - 2]].time
    ensures |tool| == |think|
    ensures Alternating(ev, b[..|b| - 1]) && Intervals(ev, b[..|b| - 1], tool, think[..|think| - 1])
  {
    assert 2 * (|think| - 1) + 2 == |b| - 1;
  }

  lemma NoInterval(ev: seq<Event>, b: seq<nat>, tool: seq<real>, think: seq<real>)
    requires Alternating(ev, b) && Intervals(ev, b, tool, think) && |b| == 1
    ensures tool == [] && think == []
  {
  }

  /** Tool and think time together are exactly the time from the first call to the last boundary. */
  lemma {:induction false} Telescopes(ev: seq<Event>, b: seq<nat>, tool: seq<real>, think: seq<real>)
    requires Alternating(ev, b) && Intervals(ev, b, tool, think) && b != []
    ensures Sum(tool) + Sum(think) == ev[b[|b| - 1]].time - ev[b[0]].time
    ensures |think| == |tool| || |think| == |tool| - 1
  {
    hide Intervals;
    if |b| == 1 {
      NoInterval(ev, b, tool, think);
    } else if |b| % 2 == 0 {
      LastIsTool(ev, b, tool, think);
      Telescopes(ev, b[..|b| - 1], tool[..|tool| - 1], think);
    } else {
      LastIsThink(ev, b, tool, think);
      Telescopes(ev, b[..|b| - 1], tool, think[..|think| - 1]);
    }
  }

  /** The same for what `Split` returns: from the first call to the last boundary, whichever way these are found. */
  lemma TimesAddUp(ev: seq<Event>, tool: seq<real>, think: seq<real>, b: seq<nat>)
    requires SplitsInto(ev, tool, think) && Boundaries(ev, b, |ev|) && b != []
    ensures b[0] in b && b[|b| - 1] in b && b[0] < |ev| && b[|b| - 1] < |ev|
    ensures Sum(tool) + Sum(think) == ev[b[|b| - 1]].time - ev[b[0]].time
    ensures |think| == |tool| || |think| == |tool| - 1
  {
    hide Intervals;
    var c :| Boundaries(ev, c, |ev|) && Alternating(ev, c) && Intervals(ev, c, tool, think);
    IncreasingIsUnique(b, c);
    Telescopes(ev, b, tool, think);
  }
}
