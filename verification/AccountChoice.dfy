/** Choosing the vault item to sign in with (cli/src/bwu_login.rs, `choose`). */
module AccountChoice {
  import opened Common
  import opened Text

  /** A candidate as the vault lists it; `details` is everything else it shows. */
  datatype Candidate = Candidate(id: Option<string>, name: Option<string>, details: string)

  /** The page's host, its site, and the hosts of its sign-in frames. */
  datatype Hosts = Hosts(page: string, site: string, frames: seq<string>)

  datatype Why = Unsaid | Remembered | NamedForHost | NamedForFrame(frame: string)

  /** The failures that list candidates list them in the order shown to the user. */
  datatype Failure = NoneInVault | NoSuchItem(listed: seq<Candidate>) | Ambiguous(listed: seq<Candidate>)

  datatype Choice = Choice(item: Candidate, why: Why)

  // ---- filters ----

  predicate NamedAs(c: Candidate, host: string) {
    host != "" && c.name.Some? && EqualIgnoringCase(Trim(c.name.value), host)
  }

  /** An item is named for a host whose name it has, apart from blanks around it and the case of letters. */
  lemma NamedAsIff(c: Candidate, host: string)
    ensures NamedAs(c, host) <==>
              host != "" && c.name.Some? && exists core :: IsCore(c.name.value, core) && Lower(core) == Lower(host)
  {
    hide Trim, Lower, IsCore;
    if c.name.Some? {
      TrimIff(c.name.value, Trim(c.name.value));
      forall core | IsCore(c.name.value, core)
        ensures core == Trim(c.name.value)
      {
        TrimIff(c.name.value, core);
      }
    }
  }

  function Named(candidates: seq<Candidate>, host: string): seq<Candidate> {
    Filter(candidates, (c: Candidate) => NamedAs(c, host))
  }

  function Framed(candidates: seq<Candidate>, frames: seq<string>): seq<(string, Candidate)> {
    if frames == [] then []
    else Pairs(frames[0], Named(candidates, frames[0])) + Framed(candidates, frames[1..])
  }

  function Pairs(f: string, s: seq<Candidate>): seq<(string, Candidate)> {
    if s == [] then [] else [(f, s[0])] + Pairs(f, s[1..])
  }

  /** An item named for the page, one of its frames, or its site. */
  predicate NamedFor(c: Candidate, hosts: Hosts) {
    || NamedAs(c, hosts.page) || (exists i :: 0 <= i < |hosts.frames| && NamedAs(c, hosts.frames[i]))
    || NamedAs(c, hosts.site)
  }

  /** The stable sort by whether an item is named for one of the hosts. */
  function Listing(s: seq<Candidate>, hosts: Hosts): seq<Candidate> {
    Filter(s, (c: Candidate) => NamedFor(c, hosts)) + Filter(s, (c: Candidate) => !NamedFor(c, hosts))
  }

  // ---- choosing ----

  function Asked(candidates: seq<Candidate>, want: string): seq<Candidate> {
    var exact := Filter(candidates, (c: Candidate) => c.id == Some(want) || c.name == Some(want));
    if exact == [] then Named(candidates, want) else exact
  }

  /** Without `--item`, among several: last time's, else the one named for the page, else for a frame, else all. */
  function Settled(candidates: seq<Candidate>, hosts: Hosts, remembered: Option<string>): (seq<Candidate>, Why) {
    var last := if remembered.None? then [] else Filter(candidates, (c: Candidate) => c.id == remembered);
    var named := Named(candidates, hosts.page);
    var framed := Framed(candidates, hosts.frames);
    if |last| == 1 then (last, Remembered)
    else if |named| == 1 then (named, NamedForHost)
    else if |framed| == 1 && named == [] then ([framed[0].1], NamedForFrame(framed[0].0))
    else (candidates, Unsaid)
  }

  function Choose(candidates: seq<Candidate>, item: Option<string>, hosts: Hosts, remembered: Option<string>)
    : Result<Choice, Failure>
  {
    var (picked, why) :=
      match item {
        case Some(want) => (Asked(candidates, want), Unsaid)
        case None => if |candidates| > 1 then Settled(candidates, hosts, remembered) else (candidates, Unsaid)
      };
    Decide(candidates, picked, why, hosts)
  }

  function Decide(candidates: seq<Candidate>, picked: seq<Candidate>, why: Why, hosts: Hosts): Result<Choice, Failure> {
    if |picked| == 1 then Ok(Choice(picked[0], why))
    else if picked == [] then Err(if candidates == [] then NoneInVault else NoSuchItem(Listing(candidates, hosts)))
    else Err(Ambiguous(Listing(picked, hosts)))
  }

  // ---- the choice does not guess ----

  /** `c` is the one candidate, at one position, that has the property. */
  ghost predicate Sole(candidates: seq<Candidate>, c: Candidate, p: Candidate -> bool) {
    exists i ::
      && 0 <= i < |candidates| && candidates[i] == c && p(c)
      && forall j :: 0 <= j < |candidates| && p(candidates[j]) ==> j == i
  }

  ghost predicate SoleRemembered(candidates: seq<Candidate>, c: Candidate, remembered: Option<string>) {
    remembered.Some? && Sole(candidates, c, (d: Candidate) => d.id == remembered)
  }

  ghost predicate SoleNamed(candidates: seq<Candidate>, c: Candidate, host: string) {
    Sole(candidates, c, (d: Candidate) => NamedAs(d, host))
  }

  /** Over all frames and candidates, `c` at one position is named for one frame at one position. */
  ghost predicate SoleFramed(candidates: seq<Candidate>, c: Candidate, frames: seq<string>, f: string) {
    exists k, i ::
      && 0 <= k < |frames| && 0 <= i < |candidates| && frames[k] == f && candidates[i] == c && NamedAs(c, f)
      && forall l, j :: 0 <= l < |frames| && 0 <= j < |candidates| && NamedAs(candidates[j], frames[l]) ==>
            l == k && j == i
  }

  lemma SoleFirst(s: seq<Candidate>, c: Candidate, p: Candidate -> bool)
    requires s != [] && p(s[0])
    ensures Sole(s, c, p) <==> c == s[0] && forall i :: 0 <= i < |s[1..]| ==> !p(s[1..][i])
  {
    var rest := s[1..];
    if Sole(s, c, p) {
      var i :| 0 <= i < |s| && s[i] == c && p(c) && forall j :: 0 <= j < |s| && p(s[j]) ==> j == i;
      assert i == 0;
      assert forall j :: 0 <= j < |rest| ==> rest[j] == s[j + 1];
    }
    if c == s[0] && forall i :: 0 <= i < |rest| ==> !p(rest[i]) {
      assert forall j :: 0 < j < |s| ==> s[j] == rest[j - 1];
    }
  }

  lemma SoleInRest(s: seq<Candidate>, c: Candidate, p: Candidate -> bool)
    requires s != [] && !p(s[0]) && Sole(s, c, p)
    ensures Sole(s[1..], c, p)
  {
    var rest := s[1..];
    var i :| 0 <= i < |s| && s[i] == c && p(c) && forall j :: 0 <= j < |s| && p(s[j]) ==> j == i;
    forall j | 0 <= j < |rest| && p(rest[j])
      ensures j == i - 1
    {
      assert rest[j] == s[j + 1];
    }
    assert rest[i - 1] == c;
  }

  lemma SoleInWhole(s: seq<Candidate>, c: Candidate, p: Candidate -> bool)
    requires s != [] && !p(s[0]) && Sole(s[1..], c, p)
    ensures Sole(s, c, p)
  {
    var rest := s[1..];
    var i :| 0 <= i < |rest| && rest[i] == c && p(c) && forall j :: 0 <= j < |rest| && p(rest[j]) ==> j == i;
    forall j | 0 <= j < |s| && p(s[j])
      ensures j == i + 1
    {
      assert j > 0 && s[j] == rest[j - 1];
    }
    assert s[i + 1] == c;
  }

  lemma {:induction false} FilterOne(s: seq<Candidate>, p: Candidate -> bool)
    ensures |Filter(s, p)| == 1 ==> Sole(s, Filter(s, p)[0], p)
    ensures (exists c :: Sole(s, c, p)) ==> |Filter(s, p)| == 1
    ensures Filter(s, p) == [] <==> forall i :: 0 <= i < |s| ==> !p(s[i])
  {
    if s != [] {
      var rest := s[1..];
      FilterOne(rest, p);
      assert forall j :: 0 < j < |s| ==> s[j] == rest[j - 1];
      hide Sole;
      if p(s[0]) {
        SoleFirst(s, s[0], p);
        if c :| Sole(s, c, p) {
          SoleFirst(s, c, p);
        }
      } else {
        if |Filter(s, p)| == 1 {
          SoleInWhole(s, Filter(rest, p)[0], p);
        }
        if c :| Sole(s, c, p) {
          SoleInRest(s, c, p);
        }
      }
    }
  }

  lemma {:induction false} PairsAt(f: string, s: seq<Candidate>)
    ensures |Pairs(f, s)| == |s| && forall i :: 0 <= i < |s| ==> Pairs(f, s)[i] == (f, s[i])
  {
    if s != [] {
      PairsAt(f, s[1..]);
    }
  }

  ghost predicate NoneFramed(candidates: seq<Candidate>, frames: seq<string>) {
    forall l, j :: 0 <= l < |frames| && 0 <= j < |candidates| ==> !NamedAs(candidates[j], frames[l])
  }

  lemma {:induction false} FramedNone(candidates: seq<Candidate>, frames: seq<string>)
    ensures Framed(candidates, frames) == [] <==> NoneFramed(candidates, frames)
  {
    if frames != [] {
      FramedNone(candidates, frames[1..]);
      PairsAt(frames[0], Named(candidates, frames[0]));
      FilterOne(candidates, (c: Candidate) => NamedAs(c, frames[0]));
      if NoneFramed(candidates, frames) {
        assert forall l :: 0 <= l < |frames| - 1 ==> frames[1..][l] == frames[l + 1];
      } else {
        var l, j :| 0 <= l < |frames| && 0 <= j < |candidates| && NamedAs(candidates[j], frames[l]);
        if l > 0 {
          assert NamedAs(candidates[j], frames[1..][l - 1]);
        }
      }
    }
  }

  lemma FramedHere(candidates: seq<Candidate>, frames: seq<string>)
    requires frames != [] && |Named(candidates, frames[0])| == 1 && Framed(candidates, frames[1..]) == []
    ensures SoleFramed(candidates, Named(candidates, frames[0])[0], frames, frames[0])
  {
    var rest, f := frames[1..], frames[0];
    var p := (c: Candidate) => NamedAs(c, f);
    FilterOne(candidates, p);
    FramedNone(candidates, rest);
    var c := Named(candidates, f)[0];
    var i :| 0 <= i < |candidates| && candidates[i] == c && p(c)
      && forall j :: 0 <= j < |candidates| && p(candidates[j]) ==> j == i;
    forall l, j | 1 <= l < |frames| && 0 <= j < |candidates|
      ensures !NamedAs(candidates[j], frames[l])
    {
      assert rest[l - 1] == frames[l];
    }
    assert forall j :: 0 <= j < |candidates| && NamedAs(candidates[j], f) ==> p(candidates[j]);
    FrameAt(candidates, frames, c, 0, i);
  }

  lemma FramedLater(candidates: seq<Candidate>, frames: seq<string>, c: Candidate, g: string)
    requires frames != [] && Named(candidates, frames[0]) == [] && SoleFramed(candidates, c, frames[1..], g)
    ensures SoleFramed(candidates, c, frames, g)
  {
    hide NamedAs;
    var rest := frames[1..];
    FilterOne(candidates, (d: Candidate) => NamedAs(d, frames[0]));
    var k, i :| 0 <= k < |rest| && 0 <= i < |candidates| && rest[k] == g && candidates[i] == c && NamedAs(c, g)
      && forall l, j :: 0 <= l < |rest| && 0 <= j < |candidates| && NamedAs(candidates[j], rest[l]) ==>
            l == k && j == i;
    forall l, j | 0 <= l < |frames| && 0 <= j < |candidates| && NamedAs(candidates[j], frames[l])
      ensures l == k + 1 && j == i
    {
      assert l > 0;
      assert rest[l - 1] == frames[l];
    }
    FrameAt(candidates, frames, c, k + 1, i);
  }

  lemma {:induction false} FramedOne(candidates: seq<Candidate>, frames: seq<string>)
    ensures |Framed(candidates, frames)| == 1 ==>
              SoleFramed(candidates, Framed(candidates, frames)[0].1, frames, Framed(candidates, frames)[0].0)
  {
    hide SoleFramed, Named;
    if |Framed(candidates, frames)| == 1 {
      var rest, f := frames[1..], frames[0];
      PairsAt(f, Named(candidates, f));
      if |Named(candidates, f)| == 1 {
        FramedHere(candidates, frames);
      } else {
        assert Named(candidates, f) == [];
        FramedOne(candidates, rest);
        var framed := Framed(candidates, rest);
        FramedLater(candidates, frames, framed[0].1, framed[0].0);
      }
    }
  }

  lemma FrameAt(candidates: seq<Candidate>, frames: seq<string>, c: Candidate, k: nat, i: nat)
    requires k < |frames| && i < |candidates| && candidates[i] == c && NamedAs(c, frames[k])
    requires forall l, j :: 0 <= l < |frames| && 0 <= j < |candidates| && NamedAs(candidates[j], frames[l]) ==>
               l == k && j == i
    ensures SoleFramed(candidates, c, frames, frames[k])
  {
  }

  lemma SoleIsNamed(candidates: seq<Candidate>, host: string, i: nat)
    requires i < |candidates| && NamedAs(candidates[i], host)
    requires forall j :: 0 <= j < |candidates| && NamedAs(candidates[j], host) ==> j == i
    ensures Named(candidates, host) == [candidates[i]]
  {
    var p := (c: Candidate) => NamedAs(c, host);
    assert Sole(candidates, candidates[i], p);
    FilterIff(candidates, p, candidates[i]);
  }

  lemma {:induction false} SoleIsFramed(candidates: seq<Candidate>, frames: seq<string>, k: nat, i: nat)
    requires k < |frames| && i < |candidates| && NamedAs(candidates[i], frames[k])
    requires forall l, j :: 0 <= l < |frames| && 0 <= j < |candidates| && NamedAs(candidates[j], frames[l]) ==>
               l == k && j == i
    ensures Framed(candidates, frames) == [(frames[k], candidates[i])]
  {
    hide NamedAs, Named;
    var rest, f := frames[1..], frames[0];
    assert forall l :: 0 <= l < |rest| ==> rest[l] == frames[l + 1];
    PairsAt(f, Named(candidates, f));
    if k == 0 {
      SoleIsNamed(candidates, f, i);
      FramedNone(candidates, rest);
    } else {
      NamedIff(candidates, f, candidates[i]);
      SoleIsFramed(candidates, rest, k - 1, i);
    }
  }

  lemma FramedIff(candidates: seq<Candidate>, frames: seq<string>, c: Candidate, f: string)
    ensures Framed(candidates, frames) == [(f, c)] <==> SoleFramed(candidates, c, frames, f)
  {
    FramedOne(candidates, frames);
    if SoleFramed(candidates, c, frames, f) {
      var k, i :| 0 <= k < |frames| && 0 <= i < |candidates| && frames[k] == f && candidates[i] == c && NamedAs(c, f)
        && forall l, j :: 0 <= l < |frames| && 0 <= j < |candidates| && NamedAs(candidates[j], frames[l]) ==>
              l == k && j == i;
      SoleIsFramed(candidates, frames, k, i);
    }
  }

  lemma FilterIff(s: seq<Candidate>, p: Candidate -> bool, c: Candidate)
    ensures Filter(s, p) == [c] <==> Sole(s, c, p)
  {
    FilterOne(s, p);
    if Filter(s, p) == [c] {
      assert c == Filter(s, p)[0];
    }
    if Sole(s, c, p) {
      var only := Filter(s, p)[0];
      assert only in Filter(s, p);
      assert Filter(s, p) == [only];
    }
  }

  ghost predicate AnyRemembered(candidates: seq<Candidate>, remembered: Option<string>) {
    exists d :: SoleRemembered(candidates, d, remembered)
  }

  /** When an account may be taken without being asked for. */
  ghost predicate Justified(candidates: seq<Candidate>, hosts: Hosts, remembered: Option<string>, c: Candidate,
                            why: Why)
  {
    match why
    case Unsaid => candidates == [c]
    case Remembered => |candidates| > 1 && SoleRemembered(candidates, c, remembered)
    case NamedForHost =>
      |candidates| > 1 && !AnyRemembered(candidates, remembered) && SoleNamed(candidates, c, hosts.page)
    case NamedForFrame(f) =>
      |candidates| > 1 && !AnyRemembered(candidates, remembered)
      && (forall i :: 0 <= i < |candidates| ==> !NamedAs(candidates[i], hosts.page))
      && SoleFramed(candidates, c, hosts.frames, f)
  }

  lemma OnlyOne<T>(s: seq<T>)
    requires |s| == 1
    ensures s == [s[0]]
  {
  }

  lemma RememberedIff(candidates: seq<Candidate>, remembered: Option<string>, c: Candidate)
    requires remembered.Some?
    ensures var last := Filter(candidates, (d: Candidate) => d.id == remembered);
      && (|last| == 1 <==> AnyRemembered(candidates, remembered))
      && (last == [c] <==> SoleRemembered(candidates, c, remembered))
  {
    var p := (d: Candidate) => d.id == remembered;
    FilterOne(candidates, p);
    FilterIff(candidates, p, c);
    if |Filter(candidates, p)| == 1 {
      assert SoleRemembered(candidates, Filter(candidates, p)[0], remembered);
    }
  }

  lemma NamedIff(candidates: seq<Candidate>, host: string, c: Candidate)
    ensures Named(candidates, host) == [c] <==> SoleNamed(candidates, c, host)
    ensures Named(candidates, host) == [] <==> forall i :: 0 <= i < |candidates| ==> !NamedAs(candidates[i], host)
  {
    var p := (d: Candidate) => NamedAs(d, host);
    FilterOne(candidates, p);
    FilterIff(candidates, p, c);
  }

  lemma SettledIff(candidates: seq<Candidate>, hosts: Hosts, remembered: Option<string>, c: Candidate, why: Why)
    requires |candidates| > 1
    ensures Settled(candidates, hosts, remembered) == ([c], why) <==> Justified(candidates, hosts, remembered, c, why)
  {
    hide Sole, SoleRemembered, SoleNamed, SoleFramed, AnyRemembered, Framed, Named;
    if remembered.Some? {
      RememberedIff(candidates, remembered, c);
    } else {
      assert !AnyRemembered(candidates, remembered) && !SoleRemembered(candidates, c, remembered) by {
        NothingRemembered(candidates, c, remembered);
      }
    }
    NamedIff(candidates, hosts.page, c);
    if |Named(candidates, hosts.page)| == 1 {
      var n := Named(candidates, hosts.page)[0];
      OnlyOne(Named(candidates, hosts.page));
      NamedIff(candidates, hosts.page, n);
      NotBoth(candidates, hosts.page, n);
    }
    var framed := Framed(candidates, hosts.frames);
    if |framed| == 1 {
      OnlyOne(framed);
    }
    if why.NamedForFrame? {
      FramedIff(candidates, hosts.frames, c, why.frame);
      if |framed| == 1 {
        assert framed[0] == (framed[0].0, framed[0].1);
      }
    }
  }

  lemma NothingRemembered(candidates: seq<Candidate>, c: Candidate, remembered: Option<string>)
    requires remembered.None?
    ensures !AnyRemembered(candidates, remembered) && !SoleRemembered(candidates, c, remembered)
  {
  }

  lemma NotBoth(candidates: seq<Candidate>, host: string, n: Candidate)
    requires SoleNamed(candidates, n, host)
    ensures exists i :: 0 <= i < |candidates| && NamedAs(candidates[i], host)
  {
  }

  /**
   * Without `--item` an account is taken exactly when it is the only candidate, the one remembered for the site,
   * the one named for the page, or, when none is named for the page, the one named for a frame.
   */
  lemma NeverGuesses(candidates: seq<Candidate>, hosts: Hosts, remembered: Option<string>, c: Candidate, why: Why)
    ensures Choose(candidates, None, hosts, remembered) == Ok(Choice(c, why)) <==>
            Justified(candidates, hosts, remembered, c, why)
  {
    hide Sole, SoleRemembered, SoleNamed, SoleFramed, Listing;
    if |candidates| > 1 {
      SettledIff(candidates, hosts, remembered, c, why);
      var (picked, reason) := Settled(candidates, hosts, remembered);
      if |picked| == 1 {
        OnlyOne(picked);
      }
    } else if |candidates| == 1 {
      OnlyOne(candidates);
    }
  }

  /**
   * With `--item` an account is taken exactly when it alone has that id or name, or, if none has, alone has the
   * name in another case.
   */
  lemma AskedIsExact(candidates: seq<Candidate>, want: string, hosts: Hosts, remembered: Option<string>, c: Candidate,
                     why: Why)
    ensures Choose(candidates, Some(want), hosts, remembered) == Ok(Choice(c, why)) <==>
      why == Unsaid
      && (Sole(candidates, c, (d: Candidate) => d.id == Some(want) || d.name == Some(want))
          || ((forall i :: 0 <= i < |candidates| ==> candidates[i].id != Some(want) && candidates[i].name != Some(want))
              && SoleNamed(candidates, c, want)))
  {
    var p, q := (d: Candidate) => d.id == Some(want) || d.name == Some(want), (d: Candidate) => NamedAs(d, want);
    FilterOne(candidates, p);
    FilterIff(candidates, p, c);
    FilterIff(candidates, q, c);
    var picked := Asked(candidates, want);
    if |picked| == 1 {
      OnlyOne(picked);
    }
  }

  // ---- the order of candidates and frames does not matter ----

  lemma FilterUnordered(a: seq<Candidate>, b: seq<Candidate>, p: Candidate -> bool)
    requires multiset(a) == multiset(b)
    ensures multiset(Filter(a, p)) == multiset(Filter(b, p))
  {
    forall x: Candidate
      ensures multiset(Filter(a, p))[x] == multiset(Filter(b, p))[x]
    {
      FilterCount(a, p, x);
      FilterCount(b, p, x);
    }
  }

  lemma {:induction false} PairsCount(f: string, s: seq<Candidate>, g: string, c: Candidate)
    ensures multiset(Pairs(f, s))[(g, c)] == if g == f then multiset(s)[c] else 0
  {
    if s != [] {
      PairsCount(f, s[1..], g, c);
      assert s == [s[0]] + s[1..];
    }
  }

  lemma PairsUnordered(f: string, a: seq<Candidate>, b: seq<Candidate>)
    requires multiset(a) == multiset(b)
    ensures multiset(Pairs(f, a)) == multiset(Pairs(f, b))
  {
    forall x: (string, Candidate)
      ensures multiset(Pairs(f, a))[x] == multiset(Pairs(f, b))[x]
    {
      PairsCount(f, a, x.0, x.1);
      PairsCount(f, b, x.0, x.1);
      assert x == (x.0, x.1);
    }
  }

  lemma {:induction false} FramedAppend(candidates: seq<Candidate>, a: seq<string>, b: seq<string>)
    ensures Framed(candidates, a + b) == Framed(candidates, a) + Framed(candidates, b)
  {
    if a == [] {
      assert a + b == b;
    } else {
      hide Pairs, Named;
      FramedAppend(candidates, a[1..], b);
      assert (a + b)[1..] == a[1..] + b;
      Regroup(Pairs(a[0], Named(candidates, a[0])), Framed(candidates, a[1..]), Framed(candidates, b));
    }
  }

  lemma TakeOut(b: seq<string>, x: string) returns (before: seq<string>, after: seq<string>)
    requires x in b
    ensures b == before + [x] + after && multiset(before + after) == multiset(b) - multiset{x}
  {
    var k :| 0 <= k < |b| && b[k] == x;
    before, after := b[..k], b[k + 1..];
    assert b == before + [x] + after;
  }

  lemma {:induction false} FramesUnordered(candidates: seq<Candidate>, a: seq<string>, b: seq<string>)
    requires multiset(a) == multiset(b)
    ensures multiset(Framed(candidates, a)) == multiset(Framed(candidates, b))
  {
    if a == [] {
      assert |multiset(b)| == 0;
    } else {
      assert a[0] in multiset(b);
      var before, after := TakeOut(b, a[0]);
      assert a == [a[0]] + a[1..];
      assert multiset(a[1..]) == multiset(a) - multiset{a[0]};
      FramesUnordered(candidates, a[1..], before + after);
      FramedMiddle(candidates, before, a[0], after);
      FramedAppend(candidates, [a[0]], a[1..]);
    }
  }

  lemma FramedMiddle(candidates: seq<Candidate>, before: seq<string>, x: string, after: seq<string>)
    ensures multiset(Framed(candidates, before + [x] + after)) ==
            multiset(Framed(candidates, [x])) + multiset(Framed(candidates, before + after))
  {
    FramedAppend(candidates, before, after);
    FramedAppend(candidates, before + [x], after);
    FramedAppend(candidates, before, [x]);
  }

  lemma {:induction false} FramedUnordered(a: seq<Candidate>, b: seq<Candidate>, frames: seq<string>)
    requires multiset(a) == multiset(b)
    ensures multiset(Framed(a, frames)) == multiset(Framed(b, frames))
  {
    if frames != [] {
      FramedUnordered(a, b, frames[1..]);
      FilterUnordered(a, b, (c: Candidate) => NamedAs(c, frames[0]));
      PairsUnordered(frames[0], Named(a, frames[0]), Named(b, frames[0]));
    }
  }

  /** The same items in another order. */
  ghost predicate SameItems<T>(a: seq<T>, b: seq<T>) { multiset(a) == multiset(b) }

  lemma SameItemsSize<T>(a: seq<T>, b: seq<T>)
    requires SameItems(a, b)
    ensures |a| == |b|
    ensures |a| == 1 ==> a == b
  {
    assert |multiset(a)| == |a| && |multiset(b)| == |b|;
    if |a| == 1 {
      assert a[0] in multiset(b);
      assert b[0] == a[0];
    }
  }

  /** A listing shows its items once each. */
  lemma ListingKeeps(s: seq<Candidate>, hosts: Hosts)
    ensures SameItems(Listing(s, hosts), s)
  {
    var p, q := (c: Candidate) => NamedFor(c, hosts), (c: Candidate) => !NamedFor(c, hosts);
    forall x: Candidate
      ensures multiset(Listing(s, hosts))[x] == multiset(s)[x]
    {
      FilterCount(s, p, x);
      FilterCount(s, q, x);
    }
  }

  lemma ListedAt(s: seq<Candidate>, hosts: Hosts, i: nat)
    requires i < |Listing(s, hosts)|
    ensures NamedFor(Listing(s, hosts)[i], hosts) <==> i < |Filter(s, (c: Candidate) => NamedFor(c, hosts))|
  {
    var p, q := (c: Candidate) => NamedFor(c, hosts), (c: Candidate) => !NamedFor(c, hosts);
    var first, rest := Filter(s, p), Filter(s, q);
    if i < |first| {
      assert first[i] in first;
    } else {
      assert rest[i - |first|] in rest;
    }
  }

  /** A listing shows the items named for the page, its site or a frame before all others. */
  lemma ListingOrders(s: seq<Candidate>, hosts: Hosts)
    ensures forall i, j :: 0 <= i < j < |Listing(s, hosts)| && NamedFor(Listing(s, hosts)[j], hosts) ==>
              NamedFor(Listing(s, hosts)[i], hosts)
  {
    forall i | 0 <= i < |Listing(s, hosts)|
      ensures NamedFor(Listing(s, hosts)[i], hosts) <==> i < |Filter(s, (c: Candidate) => NamedFor(c, hosts))|
    {
      ListedAt(s, hosts, i);
    }
  }

  /** Two outcomes that differ at most in the order in which candidates are listed. */
  ghost predicate SameOutcome(a: Result<Choice, Failure>, b: Result<Choice, Failure>) {
    match (a, b)
    case (Ok(x), Ok(y)) => x == y
    case (Err(NoneInVault), Err(NoneInVault)) => true
    case (Err(NoSuchItem(x)), Err(NoSuchItem(y))) => SameItems(x, y)
    case (Err(Ambiguous(x)), Err(Ambiguous(y))) => SameItems(x, y)
    case _ => false
  }

  lemma SettledUnordered(a: seq<Candidate>, b: seq<Candidate>, g: Hosts, h: Hosts, remembered: Option<string>)
    requires SameItems(a, b) && SameItems(g.frames, h.frames) && g.page == h.page
    ensures SameItems(Settled(a, g, remembered).0, Settled(b, h, remembered).0)
    ensures |Settled(a, g, remembered).0| == 1 && |a| > 1 ==> Settled(a, g, remembered) == Settled(b, h, remembered)
  {
    hide NamedAs, Framed, Filter;
    if remembered.Some? {
      FilterUnordered(a, b, (c: Candidate) => c.id == remembered);
      SameItemsSize(Filter(a, (c: Candidate) => c.id == remembered), Filter(b, (c: Candidate) => c.id == remembered));
    }
    FilterUnordered(a, b, (c: Candidate) => NamedAs(c, g.page));
    SameItemsSize(Named(a, g.page), Named(b, g.page));
    FramedUnordered(a, b, g.frames);
    FramesUnordered(b, g.frames, h.frames);
    SameItemsSize(Framed(a, g.frames), Framed(b, h.frames));
    SameItemsSize(a, b);
  }

  /** Neither the order of the candidates nor that of the frames changes what is chosen or why. */
  lemma ChoiceIsUnordered(a: seq<Candidate>, b: seq<Candidate>, item: Option<string>, g: Hosts, h: Hosts,
                          remembered: Option<string>)
    requires SameItems(a, b) && SameItems(g.frames, h.frames) && g.page == h.page && g.site == h.site
    ensures SameOutcome(Choose(a, item, g, remembered), Choose(b, item, h, remembered))
  {
    hide Filter, Named, Settled, Asked, Decide, SameItems, SameOutcome;
    SameItemsSize(a, b);
    match item {
      case Some(want) =>
        AskedUnordered(a, b, want);
        DecideUnordered(a, b, Asked(a, want), Asked(b, want), Unsaid, Unsaid, g, h);
      case None =>
        if |a| > 1 {
          SettledUnordered(a, b, g, h, remembered);
          DecideUnordered(a, b, Settled(a, g, remembered).0, Settled(b, h, remembered).0,
                          Settled(a, g, remembered).1, Settled(b, h, remembered).1, g, h);
        } else {
          DecideUnordered(a, b, a, b, Unsaid, Unsaid, g, h);
        }
    }
  }

  lemma DecideUnordered(a: seq<Candidate>, b: seq<Candidate>, pickedA: seq<Candidate>, pickedB: seq<Candidate>,
                        whyA: Why, whyB: Why, g: Hosts, h: Hosts)
    requires SameItems(a, b) && SameItems(pickedA, pickedB) && (|pickedA| == 1 ==> whyA == whyB)
    ensures SameOutcome(Decide(a, pickedA, whyA, g), Decide(b, pickedB, whyB, h))
  {
    hide Listing;
    SameItemsSize(a, b);
    SameItemsSize(pickedA, pickedB);
    ListingKeeps(a, g);
    ListingKeeps(b, h);
    ListingKeeps(pickedA, g);
    ListingKeeps(pickedB, h);
  }

  lemma AskedUnordered(a: seq<Candidate>, b: seq<Candidate>, want: string)
    requires SameItems(a, b)
    ensures SameItems(Asked(a, want), Asked(b, want))
  {
    var p := (c: Candidate) => c.id == Some(want) || c.name == Some(want);
    FilterUnordered(a, b, p);
    SameItemsSize(Filter(a, p), Filter(b, p));
    FilterUnordered(a, b, (c: Candidate) => NamedAs(c, want));
  }
}
