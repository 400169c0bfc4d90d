/** Text operations the models share: ASCII lower-casing, trimming and searching. */
module Text {
  import C = Common

  function LowerChar(c: char): char {
    if 'A' <= c <= 'Z' then c + 32 as char else c
  }

  /** ASCII lower-casing; every other character is kept. */
  function Lower(s: string): (r: string)
    ensures |r| == |s| && forall i :: 0 <= i < |s| ==> r[i] == LowerChar(s[i])
  {
    if s == "" then "" else [LowerChar(s[0])] + Lower(s[1..])
  }

  lemma LowerConcat(a: string, b: string)
    ensures Lower(a + b) == Lower(a) + Lower(b)
  {
  }

  lemma LowerFixed(s: string)
    requires forall c :: c in s ==> !('A' <= c <= 'Z')
    ensures Lower(s) == s
  {
    forall i | 0 <= i < |s|
      ensures Lower(s)[i] == s[i]
    {
      assert s[i] in s;
    }
  }

  predicate EqualIgnoringCase(a: string, b: string) { Lower(a) == Lower(b) }

  /** The characters with the Unicode property White_Space. */
  predicate IsSpace(c: char) {
    || '\U{9}' <= c <= '\U{D}' || c == ' ' || c == '\U{85}' || c == '\U{A0}' || c == '\U{1680}'
    || '\U{2000}' <= c <= '\U{200A}' || c == '\U{2028}' || c == '\U{2029}' || c == '\U{202F}' || c == '\U{205F}'
    || c == '\U{3000}'
  }

  function TrimStart(s: string): string {
    if s != "" && IsSpace(s[0]) then TrimStart(s[1..]) else s
  }

  function TrimEnd(s: string): string {
    if s != "" && IsSpace(s[|s| - 1]) then TrimEnd(s[..|s| - 1]) else s
  }

  function Trim(s: string): string { TrimEnd(TrimStart(s)) }

  ghost predicate Blank(s: string) { forall i :: 0 <= i < |s| ==> IsSpace(s[i]) }

  /** `core` is the text without the blanks around it. */
  ghost predicate IsCore(s: string, core: string) {
    && (core != "" ==> !IsSpace(core[0]) && !IsSpace(core[|core| - 1]))
    && exists before, after :: Blank(before) && Blank(after) && s == before + core + after
  }

  lemma {:induction false} TrimStartOf(before: string, s: string)
    requires Blank(before)
    ensures TrimStart(before + s) == TrimStart(s)
  {
    if before == "" {
      assert before + s == s;
    } else {
      assert (before + s)[1..] == before[1..] + s;
      hide IsSpace;
      TrimStartOf(before[1..], s);
    }
  }

  lemma {:induction false} TrimEndOf(s: string, after: string)
    requires Blank(after)
    ensures TrimEnd(s + after) == TrimEnd(s)
  {
    if after == "" {
      assert s + after == s;
    } else {
      var n := |after| - 1;
      assert (s + after)[..|s + after| - 1] == s + after[..n];
      hide IsSpace;
      TrimEndOf(s, after[..n]);
    }
  }

  lemma {:induction false} StartIsBlank(s: string) returns (before: string)
    ensures Blank(before) && s == before + TrimStart(s) && (TrimStart(s) != "" ==> !IsSpace(TrimStart(s)[0]))
  {
    if s != "" && IsSpace(s[0]) {
      var rest := StartIsBlank(s[1..]);
      before := [s[0]] + rest;
    } else {
      before := "";
    }
  }

  lemma {:induction false} EndIsBlank(s: string) returns (after: string)
    ensures Blank(after) && s == TrimEnd(s) + after
    ensures TrimEnd(s) != "" ==> !IsSpace(TrimEnd(s)[|TrimEnd(s)| - 1]) && TrimEnd(s)[0] == s[0]
  {
    if s != "" && IsSpace(s[|s| - 1]) {
      var rest := EndIsBlank(s[..|s| - 1]);
      after := rest + [s[|s| - 1]];
    } else {
      after := "";
    }
  }

  lemma TrimsBlank(after: string)
    requires Blank(after)
    ensures TrimStart(after) == ""
  {
    TrimStartOf(after, "");
    assert after + "" == after;
  }

  lemma NothingToTrim(core: string, after: string)
    requires core != "" && !IsSpace(core[0]) && !IsSpace(core[|core| - 1])
    ensures TrimStart(core + after) == core + after && TrimEnd(core) == core
  {
    hide IsSpace;
    assert (core + after)[0] == core[0];
  }

  lemma CoreIsLeft(before: string, core: string, after: string)
    requires Blank(before) && Blank(after)
    requires core != "" ==> !IsSpace(core[0]) && !IsSpace(core[|core| - 1])
    ensures Trim(before + core + after) == core
  {
    hide IsSpace, Blank, TrimStart, TrimEnd;
    C.Regroup(before, core, after);
    TrimStartOf(before, core + after);
    if core == "" {
      assert core + after == after;
      TrimsBlank(after);
      NoEnd();
    } else {
      NothingToTrim(core, after);
      TrimEndOf(core, after);
    }
  }

  lemma NoEnd()
    ensures TrimEnd("") == ""
  {
  }

  lemma TrimIsCore(s: string)
    ensures IsCore(s, Trim(s))
  {
    hide IsSpace, Blank, TrimStart, TrimEnd;
    var before := StartIsBlank(s);
    var after := EndIsBlank(TrimStart(s));
    C.Regroup(before, Trim(s), after);
    assert s == before + Trim(s) + after;
  }

  /** Trimming takes off all blanks around a text and nothing else. */
  lemma TrimIff(s: string, core: string)
    ensures Trim(s) == core <==> IsCore(s, core)
  {
    TrimIsCore(s);
    hide IsSpace, Blank, Trim;
    if IsCore(s, core) {
      var before, after :| Blank(before) && Blank(after) && s == before + core + after;
      CoreIsLeft(before, core, after);
    }
  }

  // ---- searching ----

  predicate At(s: string, part: string, i: nat) {
    i + |part| <= |s| && s[i..i + |part|] == part
  }

  predicate Contains(s: string, part: string) {
    exists i: nat :: i <= |s| && At(s, part, i)
  }

  /** A part of a piece is a part of the whole. */
  lemma ContainsInside(before: string, s: string, after: string, part: string)
    requires Contains(s, part)
    ensures Contains(before + s + after, part)
  {
    var i: nat :| i <= |s| && At(s, part, i);
    var whole := before + s + after;
    assert whole[|before| + i..|before| + i + |part|] == s[i..i + |part|];
    assert At(whole, part, |before| + i);
  }

  /** Where two texts meet, a part can begin in one and end in the other. */
  ghost predicate Straddles(a: string, b: string, part: string) {
    exists k: nat :: 0 < k < |part| && k <= |a| && |part| - k <= |b| && At(a, part[..k], |a| - k) && At(b, part[k..], 0)
  }

  lemma StraddleIsInside(a: string, b: string, part: string)
    requires Straddles(a, b, part)
    ensures Contains(a + b, part)
  {
    var k: nat :| 0 < k < |part| && k <= |a| && |part| - k <= |b| && At(a, part[..k], |a| - k) && At(b, part[k..], 0);
    var start := |a| - k;
    assert (a + b)[start..start + |part|] == a[start..] + b[..|part| - k];
    assert a[start..] == part[..k] && b[..|part| - k] == part[k..];
    assert At(a + b, part, start);
  }

  lemma InsideOrStraddling(a: string, b: string, part: string, i: nat)
    requires At(a + b, part, i)
    ensures i + |part| <= |a| ==> Contains(a, part)
    ensures |a| <= i ==> Contains(b, part)
    ensures i < |a| < i + |part| ==> Straddles(a, b, part)
  {
    hide Contains;
    var whole := a + b;
    if i + |part| <= |a| {
      assert a[i..i + |part|] == whole[i..i + |part|];
      Found(a, part, i);
    }
    if |a| <= i {
      assert b[i - |a|..i - |a| + |part|] == whole[i..i + |part|];
      Found(b, part, i - |a|);
    }
    if i < |a| < i + |part| {
      StraddlesAt(a, b, part, i);
    }
  }

  lemma Found(s: string, part: string, i: nat)
    requires At(s, part, i)
    ensures Contains(s, part)
  {
  }

  lemma StraddlesAt(a: string, b: string, part: string, i: nat)
    requires At(a + b, part, i) && i < |a| < i + |part|
    ensures Straddles(a, b, part)
  {
    var k := |a| - i;
    assert part[..k] == (a + b)[i..|a|] == a[i..i + k];
    assert part[k..] == (a + b)[|a|..i + |part|] == b[0..|part| - k];
    assert At(a, part[..k], |a| - k) && At(b, part[k..], 0);
  }

  lemma ContainsConcat(a: string, b: string, part: string)
    requires part != ""
    ensures Contains(a + b, part) <==> Contains(a, part) || Contains(b, part) || Straddles(a, b, part)
  {
    hide Straddles, At;
    if Contains(a, part) {
      ContainsInside("", a, b, part);
      assert "" + a + b == a + b;
    }
    if Contains(b, part) {
      ContainsInside(a, b, "", part);
      assert a + b + "" == a + b;
    }
    if Straddles(a, b, part) {
      StraddleIsInside(a, b, part);
    }
    if Contains(a + b, part) {
      var i: nat :| i <= |a + b| && At(a + b, part, i);
      InsideOrStraddling(a, b, part, i);
    }
  }

  lemma ContainsItself(s: string)
    ensures Contains(s, s)
  {
    assert s[0..|s|] == s;
    Found(s, s, 0);
  }

  lemma MissingChar(s: string, part: string, c: char)
    requires c in part && c !in s
    ensures !Contains(s, part)
  {
    forall i: nat | i <= |s|
      ensures !At(s, part, i)
    {
      var k :| 0 <= k < |part| && part[k] == c;
      if i + |part| <= |s| {
        assert s[i..i + |part|][k] == s[i + k];
      }
    }
  }

  // ---- joints that no phrase can straddle ----

  /** One of the characters just before position `k` of the phrase differs from its place at the end of `tail`. */
  predicate DiffersBefore(part: string, k: nat, tail: string)
    requires k <= |part|
  {
    exists i: nat :: |tail| - k <= i < |tail| && tail[i] != part[k - |tail| + i]
  }

  /** One of the characters from position `k` of the phrase on differs from its place at the front of `head`. */
  predicate DiffersFrom(part: string, k: nat, head: string)
    requires k <= |part|
  {
    exists d: nat :: d < |head| && k + d < |part| && part[k + d] != head[d]
  }

  /** The phrase cannot be begun at the end of a text that ends in `tail`. */
  predicate AvoidsTail(part: string, tail: string) {
    forall k: nat :: 0 < k < |part| ==> DiffersBefore(part, k, tail)
  }

  /** The phrase cannot be finished at the front of a text that begins with `head`. */
  predicate AvoidsHead(part: string, head: string) {
    forall k: nat :: 0 < k < |part| ==> DiffersFrom(part, k, head)
  }

  lemma TailByLastChar(part: string, tail: string)
    requires tail != "" && forall k :: 0 <= k < |part| - 1 ==> part[k] != tail[|tail| - 1]
    ensures AvoidsTail(part, tail)
  {
    forall k: nat | 0 < k < |part|
      ensures DiffersBefore(part, k, tail)
    {
      assert tail[|tail| - 1] != part[k - 1];
    }
  }

  lemma HeadByFirstChar(part: string, head: string)
    requires head != "" && forall k :: 0 < k < |part| ==> part[k] != head[0]
    ensures AvoidsHead(part, head)
  {
    forall k: nat | 0 < k < |part|
      ensures DiffersFrom(part, k, head)
    {
      assert part[k + 0] != head[0];
    }
  }

  lemma LongerTail(part: string, before: string, tail: string)
    requires AvoidsTail(part, tail)
    ensures AvoidsTail(part, before + tail)
  {
    var longer := before + tail;
    forall k: nat | 0 < k < |part|
      ensures DiffersBefore(part, k, longer)
    {
      assert DiffersBefore(part, k, tail);
      var i: nat :| |tail| - k <= i < |tail| && tail[i] != part[k - |tail| + i];
      assert longer[|before| + i] == tail[i];
    }
  }

  lemma LongerHead(part: string, head: string, after: string)
    requires AvoidsHead(part, head)
    ensures AvoidsHead(part, head + after)
  {
    var longer := head + after;
    forall k: nat | 0 < k < |part|
      ensures DiffersFrom(part, k, longer)
    {
      assert DiffersFrom(part, k, head);
      var d: nat :| d < |head| && k + d < |part| && part[k + d] != head[d];
      assert longer[d] == head[d];
    }
  }

  lemma JointAfter(a: string, b: string, part: string)
    requires AvoidsTail(part, a)
    ensures !Straddles(a, b, part)
  {
    forall k: nat | 0 < k < |part| && k <= |a|
      ensures !At(a, part[..k], |a| - k)
    {
      assert DiffersBefore(part, k, a);
      var i: nat :| |a| - k <= i < |a| && a[i] != part[k - |a| + i];
      assert a[|a| - k..|a| - k + k][k - |a| + i] == a[i] && part[..k][k - |a| + i] == part[k - |a| + i];
    }
  }

  lemma JointBefore(a: string, b: string, part: string)
    requires AvoidsHead(part, b)
    ensures !Straddles(a, b, part)
  {
    forall k: nat | 0 < k < |part| && |part| - k <= |b|
      ensures !At(b, part[k..], 0)
    {
      assert DiffersFrom(part, k, b);
      var d: nat :| d < |b| && k + d < |part| && part[k + d] != b[d];
      assert b[0..|part[k..]|][d] == b[d] && part[k..][d] == part[k + d];
    }
  }

  // ---- fixed texts with free texts between them ----

  /** The fixed texts with the free ones set between them. */
  function Fill(fixed: seq<string>, free: seq<string>): string
    requires |fixed| == |free| + 1
  {
    if free == [] then fixed[0] else fixed[0] + (free[0] + Fill(fixed[1..], free[1..]))
  }

  /** The phrase lies in none of the fixed texts and cannot begin or end in one; the outer two may be empty. */
  ghost predicate Sealed(fixed: seq<string>, part: string) {
    && part != ""
    && (forall i :: 0 <= i < |fixed| ==> !Contains(fixed[i], part))
    && (forall i :: 0 <= i < |fixed| - 1 ==> (i == 0 && fixed[i] == "") || AvoidsTail(part, fixed[i]))
    && (forall i :: 0 < i < |fixed| ==> (i == |fixed| - 1 && fixed[i] == "") || AvoidsHead(part, fixed[i]))
  }

  ghost predicate AnyContains(free: seq<string>, part: string) {
    exists i :: 0 <= i < |free| && Contains(free[i], part)
  }

  /** Between sealed texts a phrase lies in the whole exactly when it lies in one of the free texts. */
  lemma {:induction false} FillContains(fixed: seq<string>, free: seq<string>, part: string)
    requires |fixed| == |free| + 1 && Sealed(fixed, part)
    ensures Contains(Fill(fixed, free), part) <==> AnyContains(free, part)
  {
    hide Contains, AvoidsTail, AvoidsHead;
    if free != [] {
      var rest, more := fixed[1..], free[1..];
      var inner := Fill(rest, more);
      SealedRest(fixed, part);
      FillContains(rest, more, part);
      AnyFirst(free, part);
      InnerJoint(fixed, free, part);
      ContainsConcat(free[0], inner, part);
      OuterJoint(fixed[0], free[0] + inner, part);
      ContainsConcat(fixed[0], free[0] + inner, part);
    }
  }

  lemma AnyFirst(free: seq<string>, part: string)
    requires free != []
    ensures AnyContains(free, part) <==> Contains(free[0], part) || AnyContains(free[1..], part)
  {
    hide Contains;
    if i :| 0 <= i < |free| && Contains(free[i], part) {
      assert i > 0 ==> free[1..][i - 1] == free[i];
    }
    if i :| 0 <= i < |free[1..]| && Contains(free[1..][i], part) {
      assert free[i + 1] == free[1..][i];
    }
  }

  lemma SealedRest(fixed: seq<string>, part: string)
    requires |fixed| > 1 && Sealed(fixed, part)
    ensures forall i :: 0 <= i < |fixed| - 1 ==> fixed[1..][i] == fixed[i + 1]
    ensures Sealed(fixed[1..], part)
  {
    hide Contains, AvoidsTail, AvoidsHead;
    assert forall i :: 0 <= i < |fixed| - 1 ==> fixed[1..][i] == fixed[i + 1];
  }

  lemma OuterJoint(a: string, b: string, part: string)
    requires a == "" || AvoidsTail(part, a)
    ensures !Straddles(a, b, part)
  {
    if a != "" {
      JointAfter(a, b, part);
    }
  }

  lemma InnerJoint(fixed: seq<string>, free: seq<string>, part: string)
    requires |fixed| == |free| + 1 && free != [] && Sealed(fixed, part)
    ensures !Straddles(free[0], Fill(fixed[1..], free[1..]), part)
  {
    hide Contains, AvoidsTail;
    var inner := Fill(fixed[1..], free[1..]);
    if AvoidsHead(part, fixed[1]) {
      if |free| > 1 {
        assert inner == fixed[1] + (free[1] + Fill(fixed[2..], free[2..])) by {
          assert fixed[1..][1..] == fixed[2..] && free[1..][1..] == free[2..];
        }
        LongerHead(part, fixed[1], free[1] + Fill(fixed[2..], free[2..]));
      }
      JointBefore(free[0], inner, part);
    } else {
      assert |fixed| == 2 && inner == "";
    }
  }
}
