/** Which vault account a session is logged in as (cli/src/account.rs). */
module AccountMatch {
  import opened Common
  import T = Text

  datatype Cookie = Cookie(name: string, domain: string, sha256: string, auth: bool)

  datatype Fingerprint = Fingerprint(id: string, site: string, domains: seq<string>, cookies: seq<Cookie>)

  /** The live cookies' hashes, by name and domain. */
  type Live = map<(string, string), string>

  datatype Score = Score(matched: nat, total: nat)

  const ROTATING: seq<string> :=
    ["__cf_bm", "cf_clearance", "_cfuvid", "__cflb", "__cf_logged_in", "ak_bmsc", "bm_sv", "bm_sz", "_abck", "AWSALB",
     "AWSALBCORS", "datadome"]

  predicate IsRotating(name: string) {
    exists i :: 0 <= i < |ROTATING| && T.EqualIgnoringCase(name, ROTATING[i])
  }

  /** The cookies that speak for an account: its lasting auth cookies, or all if it has none. */
  function Pool(fp: Fingerprint): seq<Cookie> {
    var auth := Filter(fp.cookies, (c: Cookie) => c.auth && !IsRotating(c.name));
    if auth == [] then fp.cookies else auth
  }

  predicate IsLive(c: Cookie, live: Live) {
    (c.name, c.domain) in live && live[(c.name, c.domain)] == c.sha256
  }

  function ScoreOf(fp: Fingerprint, live: Live): (s: Score)
    ensures s.matched <= s.total
  {
    Score(|Filter(Pool(fp), (c: Cookie) => IsLive(c, live))|, |Pool(fp)|)
  }

  predicate IsMatch(s: Score) {
    s.matched >= 1 && s.matched * 100 >= s.total * 60
  }

  /** A lasting auth cookie of the account. */
  ghost predicate Lasts(fp: Fingerprint, i: nat) {
    && i < |fp.cookies| && fp.cookies[i].auth
    && forall r :: r in ROTATING ==> !T.EqualIgnoringCase(fp.cookies[i].name, r)
  }

  /** The cookies that are counted: the lasting auth cookies, or all if there is none. */
  ghost predicate Counts(fp: Fingerprint, i: nat) {
    i < |fp.cookies| && (Lasts(fp, i) || forall j: nat :: !Lasts(fp, j))
  }

  ghost function CountedAt(fp: Fingerprint): set<nat> {
    set i: nat | i < |fp.cookies| && Counts(fp, i)
  }

  ghost function MatchedAt(fp: Fingerprint, live: Live): set<nat> {
    set i: nat | i < |fp.cookies| && Counts(fp, i)
                 && (fp.cookies[i].name, fp.cookies[i].domain) in live
                 && live[(fp.cookies[i].name, fp.cookies[i].domain)] == fp.cookies[i].sha256
  }

  ghost function PlacesOf<A>(s: seq<A>, p: A -> bool): set<nat> { set i: nat | i < |s| && p(s[i]) }

  lemma PlacesAppend<A>(s: seq<A>, x: A, p: A -> bool)
    ensures PlacesOf(s + [x], p) == PlacesOf(s, p) + (if p(x) then {|s|} else {}) && |s| !in PlacesOf(s, p)
  {
  }

  lemma {:induction false} FilterPlaces<A(!new)>(s: seq<A>, p: A -> bool)
    ensures |Filter(s, p)| == |PlacesOf(s, p)|
  {
    if s == [] {
      assert PlacesOf(s, p) == {};
    } else {
      var rest, last := s[..|s| - 1], s[|s| - 1];
      FilterPlaces(rest, p);
      assert s == rest + [last] && [last][1..] == [];
      FilterAppend(rest, [last], p);
      PlacesAppend(rest, last, p);
      assert Filter([last], p) == if p(last) then [last] else [];
      hide PlacesOf, Filter;
    }
  }

  lemma {:induction false} FilterTwice<A(!new)>(s: seq<A>, p: A -> bool, q: A -> bool, both: A -> bool)
    requires forall x :: both(x) == (p(x) && q(x))
    ensures Filter(Filter(s, p), q) == Filter(s, both)
  {
    if s != [] {
      FilterTwice(s[1..], p, q, both);
      if p(s[0]) {
        assert ([s[0]] + Filter(s[1..], p))[1..] == Filter(s[1..], p);
      } else {
        assert [] + Filter(s[1..], p) == Filter(s[1..], p);
      }
    }
  }

  lemma RotatingIff(name: string)
    ensures IsRotating(name) <==> exists r :: r in ROTATING && T.EqualIgnoringCase(name, r)
  {
  }

  lemma NoneLasts(fp: Fingerprint)
    ensures Filter(fp.cookies, (c: Cookie) => c.auth && !IsRotating(c.name)) == [] <==> forall j: nat :: !Lasts(fp, j)
  {
    hide T.EqualIgnoringCase;
    var p := (c: Cookie) => c.auth && !IsRotating(c.name);
    forall j: nat | j < |fp.cookies|
      ensures Lasts(fp, j) <==> p(fp.cookies[j])
    {
      RotatingIff(fp.cookies[j].name);
    }
    hide IsRotating, Lasts;
    var kept := Filter(fp.cookies, p);
    if kept != [] {
      assert kept[0] in kept;
      var j :| 0 <= j < |fp.cookies| && fp.cookies[j] == kept[0];
      assert p(fp.cookies[j]);
    }
    forall j: nat | j < |fp.cookies| && p(fp.cookies[j])
      ensures kept != []
    {
      assert fp.cookies[j] in kept;
    }
  }

  lemma {:induction false} FilterSame<A(!new)>(s: seq<A>, p: A -> bool, q: A -> bool)
    requires forall x :: x in s ==> p(x) == q(x)
    ensures Filter(s, p) == Filter(s, q)
  {
    if s != [] {
      FilterSame(s[1..], p, q);
    }
  }

  lemma {:induction false} FilterAll<A(!new)>(s: seq<A>, p: A -> bool)
    requires forall x :: x in s ==> p(x)
    ensures Filter(s, p) == s
  {
    if s != [] {
      FilterAll(s[1..], p);
    }
  }

  /** The counted cookies are those of the pool, place by place. */
  lemma PoolIs(fp: Fingerprint, p: Cookie -> bool)
    requires forall c :: p(c) == ((c.auth && !IsRotating(c.name)) || forall j: nat :: !Lasts(fp, j))
    ensures Pool(fp) == Filter(fp.cookies, p)
    ensures forall i: nat :: i < |fp.cookies| ==> (Counts(fp, i) <==> p(fp.cookies[i]))
  {
    hide T.EqualIgnoringCase;
    NoneLasts(fp);
    forall j: nat | j < |fp.cookies|
      ensures Lasts(fp, j) <==> fp.cookies[j].auth && !IsRotating(fp.cookies[j].name)
    {
      RotatingIff(fp.cookies[j].name);
    }
    hide Lasts, IsRotating;
    if forall j: nat :: !Lasts(fp, j) {
      FilterAll(fp.cookies, p);
    } else {
      FilterSame(fp.cookies, (c: Cookie) => c.auth && !IsRotating(c.name), p);
    }
  }

  /** A score counts cookies: in all, those that speak for the account, and as matched those the browser holds. */
  lemma ScoreCounts(fp: Fingerprint, live: Live)
    ensures ScoreOf(fp, live) == Score(|MatchedAt(fp, live)|, |CountedAt(fp)|)
  {
    var none := forall j: nat :: !Lasts(fp, j);
    var p, q := (c: Cookie) => (c.auth && !IsRotating(c.name)) || none, (c: Cookie) => IsLive(c, live);
    hide Lasts, IsRotating, Pool, Counts;
    PoolIs(fp, p);
    FilterPlaces(fp.cookies, p);
    var both := (c: Cookie) => p(c) && q(c);
    FilterTwice(fp.cookies, p, q, both);
    FilterPlaces(fp.cookies, both);
    assert CountedAt(fp) == PlacesOf(fp.cookies, p);
    assert MatchedAt(fp, live) == PlacesOf(fp.cookies, both);
  }

  function Max(a: nat, b: nat): nat { if a >= b then a else b }

  /** The per-mille rate that accounts are ranked by, rounded down. */
  function Rate(s: Score): nat {
    s.matched * 1000 / Max(s.total, 1)
  }

  lemma {:induction false} FloorBound(a: nat, b: nat, q: nat)
    requires b > 0
    ensures a / b >= q <==> a >= q * b
  {
    assert a == b * (a / b) + a % b;
    if a / b >= q {
      assert b * (a / b) >= b * q;
    } else {
      assert b * (a / b) + b <= b * q by {
        assert b * (a / b + 1) <= b * q;
      }
    }
  }

  /** Rounding down loses no match: a score is a match exactly when its rate is 600 or more. */
  lemma {:induction false} MatchIsRate(s: Score)
    requires s.matched <= s.total
    ensures IsMatch(s) <==> Rate(s) >= 600
  {
    FloorBound(s.matched * 1000, Max(s.total, 1), 600);
  }

  // ---- ranking ----

  datatype Ranked = Ranked(fp: Fingerprint, score: Score)

  predicate Descending(s: seq<Ranked>) {
    forall i, j :: 0 <= i < j < |s| ==> Rate(s[i].score) >= Rate(s[j].score)
  }

  /** The stable order: an account goes before those ranked lower and after those ranked the same. */
  function Insert(s: seq<Ranked>, x: Ranked): seq<Ranked> {
    if s == [] || Rate(s[|s| - 1].score) >= Rate(x.score) then s + [x]
    else Insert(s[..|s| - 1], x) + [s[|s| - 1]]
  }

  function Rank(s: seq<Ranked>): seq<Ranked> {
    if s == [] then [] else Insert(Rank(s[..|s| - 1]), s[|s| - 1])
  }

  lemma {:induction false} InsertRanks(s: seq<Ranked>, x: Ranked)
    requires Descending(s)
    ensures Descending(Insert(s, x)) && multiset(Insert(s, x)) == multiset(s) + multiset{x}
  {
    hide Rate;
    if s != [] && Rate(s[|s| - 1].score) < Rate(x.score) {
      var rest, last := s[..|s| - 1], s[|s| - 1];
      InsertRanks(rest, x);
      assert s == rest + [last];
      var r := Insert(rest, x);
      forall i | 0 <= i < |r|
        ensures Rate(r[i].score) >= Rate(last.score)
      {
        assert r[i] in multiset(r);
      }
    }
  }

  lemma {:induction false} RankRanks(s: seq<Ranked>)
    ensures Descending(Rank(s)) && multiset(Rank(s)) == multiset(s)
  {
    hide Rate, Insert;
    if s != [] {
      RankRanks(s[..|s| - 1]);
      InsertRanks(Rank(s[..|s| - 1]), s[|s| - 1]);
      assert s == s[..|s| - 1] + [s[|s| - 1]];
    }
  }

  /** Accounts with one rate stay in the order in which they were listed. */
  lemma {:induction false} RankIsStable(s: seq<Ranked>, rate: nat)
    ensures Filter(Rank(s), (x: Ranked) => Rate(x.score) == rate) == Filter(s, (x: Ranked) => Rate(x.score) == rate)
  {
    if s != [] {
      var rest, last := s[..|s| - 1], s[|s| - 1];
      RankIsStable(rest, rate);
      RankRanks(rest);
      InsertIsStable(Rank(rest), last, rate);
      FilterAppend(rest, [last], (x: Ranked) => Rate(x.score) == rate);
      assert s == rest + [last];
    }
  }

  lemma {:induction false} InsertIsStable(s: seq<Ranked>, x: Ranked, rate: nat)
    requires Descending(s)
    ensures Filter(Insert(s, x), (y: Ranked) => Rate(y.score) == rate) ==
            Filter(s, (y: Ranked) => Rate(y.score) == rate) + Filter([x], (y: Ranked) => Rate(y.score) == rate)
  {
    var p := (y: Ranked) => Rate(y.score) == rate;
    if s == [] || Rate(s[|s| - 1].score) >= Rate(x.score) {
      FilterAppend(s, [x], p);
    } else {
      var rest, last := s[..|s| - 1], s[|s| - 1];
      InsertIsStable(rest, x, rate);
      FilterAppend(Insert(rest, x), [last], p);
      FilterAppend(rest, [last], p);
      assert s == rest + [last];
      assert Filter([x], p) == [] || Filter([last], p) == [];
    }
  }

  function Scored(accounts: seq<Fingerprint>, live: Live): (r: seq<Ranked>)
    ensures |r| == |accounts|
    ensures forall i :: 0 <= i < |r| ==> r[i] == Ranked(accounts[i], ScoreOf(accounts[i], live))
  {
    if accounts == [] then []
    else
      var last := accounts[|accounts| - 1];
      Scored(accounts[..|accounts| - 1], live) + [Ranked(last, ScoreOf(last, live))]
  }

  /** The account reported for a site: the first after ranking, if it is a match at all. */
  function Best(accounts: seq<Fingerprint>, live: Live): Option<Ranked> {
    var ranked := Rank(Scored(accounts, live));
    if ranked == [] || !IsMatch(ranked[0].score) then None else Some(ranked[0])
  }

  lemma ScoresAreBounded(fp: Fingerprint, live: Live)
    ensures ScoreOf(fp, live).matched <= ScoreOf(fp, live).total
  {
  }

  /** An account is reported exactly when some account matches; no account of the site has a higher rate. */
  lemma {:induction false} BestIsAMatch(accounts: seq<Fingerprint>, live: Live)
    ensures Best(accounts, live).Some? <==> exists i :: 0 <= i < |accounts| && IsMatch(ScoreOf(accounts[i], live))
    ensures Best(accounts, live).Some? ==>
              && Best(accounts, live).value.fp in accounts
              && Best(accounts, live).value.score == ScoreOf(Best(accounts, live).value.fp, live)
              && forall i :: 0 <= i < |accounts| ==>
                    Rate(Best(accounts, live).value.score) >= Rate(ScoreOf(accounts[i], live))
  {
    hide IsMatch, Rate, ScoreOf;
    var scored := Scored(accounts, live);
    var ranked := Rank(scored);
    RankRanks(scored);
    forall i | 0 <= i < |accounts|
      ensures ranked != [] && Rate(ranked[0].score) >= Rate(ScoreOf(accounts[i], live))
      ensures IsMatch(ScoreOf(accounts[i], live)) ==> IsMatch(ranked[0].score)
    {
      assert scored[i] in multiset(ranked);
      var k :| 0 <= k < |ranked| && ranked[k] == scored[i];
      assert ranked[0] in multiset(scored);
      var j :| 0 <= j < |scored| && scored[j] == ranked[0];
      ScoresAreBounded(accounts[i], live);
      ScoresAreBounded(accounts[j], live);
      MatchIsRate(ScoreOf(accounts[i], live));
      MatchIsRate(ScoreOf(accounts[j], live));
    }
    if ranked != [] {
      assert ranked[0] in multiset(scored);
      var j :| 0 <= j < |scored| && scored[j] == ranked[0];
      assert accounts[j] in accounts;
    }
  }

  // ---- whoami ----

  predicate EndsWith(s: string, end: string) {
    |s| >= |end| && s[|s| - |end|..] == end
  }

  /** The browser holds some cookie of one of the account's domains. */
  predicate Present(fp: Fingerprint, live: Live) {
    exists key, i :: key in live && 0 <= i < |fp.domains| && EndsWith(key.1, fp.domains[i])
  }

  datatype Site = Site(name: string, accounts: seq<Fingerprint>)

  ghost predicate HasSite(sites: seq<Site>, name: string) {
    exists k :: 0 <= k < |sites| && sites[k].name == name
  }

  /** The accounts by site, sites in order of first appearance and accounts in the order listed. */
  ghost predicate Groups(sites: seq<Site>, fps: seq<Fingerprint>) {
    && (forall j, k :: 0 <= j < k < |sites| ==> sites[j].name != sites[k].name)
    && (forall k :: 0 <= k < |sites| ==>
          sites[k].accounts != [] && sites[k].accounts == Filter(fps, (f: Fingerprint) => f.site == sites[k].name))
    && (forall i :: 0 <= i < |fps| ==> HasSite(sites, fps[i].site))
  }

  method FindSite(sites: seq<Site>, name: string) returns (k: nat)
    ensures k <= |sites| && (k < |sites| ==> sites[k].name == name)
    ensures k == |sites| ==> forall j :: 0 <= j < |sites| ==> sites[j].name != name
  {
    k := 0;
    while k < |sites| && sites[k].name != name
      invariant k <= |sites| && forall j :: 0 <= j < k ==> sites[j].name != name
    {
      k := k + 1;
    }
  }

  method GroupBySite(fps: seq<Fingerprint>) returns (sites: seq<Site>)
    ensures Groups(sites, fps)
  {
    sites := [];
    for i := 0 to |fps|
      invariant Groups(sites, fps[..i])
    {
      var fp := fps[i];
      var k := FindSite(sites, fp.site);
      ghost var before := sites;
      if k < |sites| {
        sites := sites[k := sites[k].(accounts := sites[k].accounts + [fp])];
      } else {
        sites := sites + [Site(fp.site, [fp])];
      }
      GroupOneMore(before, fps[..i], fp, k, sites);
      assert fps[..i + 1] == fps[..i] + [fp];
    }
    assert fps[..|fps|] == fps;
  }

  lemma GroupOneMore(before: seq<Site>, fps: seq<Fingerprint>, fp: Fingerprint, k: nat, after: seq<Site>)
    requires Groups(before, fps) && k <= |before|
    requires if k < |before| then before[k].name == fp.site
             && after == before[k := before[k].(accounts := before[k].accounts + [fp])]
             else
               && (forall j :: 0 <= j < |before| ==> before[j].name != fp.site)
               && after == before + [Site(fp.site, [fp])]
    ensures Groups(after, fps + [fp])
  {
    forall j | 0 <= j < |after|
      ensures after[j].accounts != []
              && after[j].accounts == Filter(fps + [fp], (f: Fingerprint) => f.site == after[j].name)
    {
      var p := (f: Fingerprint) => f.site == after[j].name;
      FilterAppend(fps, [fp], p);
      if j == |before| {
        NobodyYet(fps, before, p, fp.site);
      } else {
        assert before[j].accounts == Filter(fps, (f: Fingerprint) => f.site == before[j].name);
        SamePredicate(fps, (f: Fingerprint) => f.site == before[j].name, p);
      }
    }
    forall i | 0 <= i < |fps + [fp]|
      ensures HasSite(after, (fps + [fp])[i].site)
    {
      if i < |fps| {
        var j :| 0 <= j < |before| && before[j].name == fps[i].site;
        assert after[j].name == fps[i].site;
      } else {
        assert after[k].name == fp.site;
      }
    }
  }

  lemma {:induction false} SamePredicate(s: seq<Fingerprint>, p: Fingerprint -> bool, q: Fingerprint -> bool)
    requires forall f :: p(f) == q(f)
    ensures Filter(s, p) == Filter(s, q)
  {
    if s != [] {
      SamePredicate(s[1..], p, q);
    }
  }

  lemma NobodyYet(fps: seq<Fingerprint>, sites: seq<Site>, p: Fingerprint -> bool, name: string)
    requires forall i :: 0 <= i < |fps| ==> HasSite(sites, fps[i].site)
    requires !HasSite(sites, name)
    requires forall f :: p(f) <==> f.site == name
    ensures Filter(fps, p) == []
  {
    FilterNone(fps, p);
  }

  /** What is reported for a site: the account, if one matches, and all its accounts in their order of rank. */
  datatype Identity = Identity(site: string, account: Option<Ranked>, candidates: seq<Ranked>)

  function IdentityOf(site: Site, live: Live): Identity {
    Identity(site.name, Best(site.accounts, live), Rank(Scored(site.accounts, live)))
  }

  /** A site where the browser holds no cookie is left out, unless accounts were asked for by a filter. */
  predicate Shown(site: Site, live: Live, filtered: bool) {
    filtered || exists i :: 0 <= i < |site.accounts| && Present(site.accounts[i], live)
  }

  /** A site is shown on request, or when the browser holds a cookie whose domain ends in one of an account's. */
  lemma ShownIff(site: Site, live: Live, filtered: bool)
    ensures Shown(site, live, filtered) <==>
      filtered || exists fp, domain, key, front: string ::
        fp in site.accounts && domain in fp.domains && key in live && key.1 == front + domain
  {
    if i :| 0 <= i < |site.accounts| && Present(site.accounts[i], live) {
      var fp := site.accounts[i];
      var key, j :| key in live && 0 <= j < |fp.domains| && EndsWith(key.1, fp.domains[j]);
      var domain := fp.domains[j];
      var front := key.1[..|key.1| - |domain|];
      assert fp in site.accounts && domain in fp.domains && key in live && key.1 == front + domain;
    }
    if fp, domain, key, front: string :|
      fp in site.accounts && domain in fp.domains && key in live && key.1 == front + domain
    {
      var i :| 0 <= i < |site.accounts| && site.accounts[i] == fp;
      var j :| 0 <= j < |fp.domains| && fp.domains[j] == domain;
      assert key.1[|key.1| - |domain|..] == domain;
      assert EndsWith(key.1, fp.domains[j]);
      assert Present(site.accounts[i], live);
    }
  }

  function Identities(sites: seq<Site>, live: Live, filtered: bool): (r: seq<Identity>)
    ensures forall k :: 0 <= k < |sites| && Shown(sites[k], live, filtered) ==>
              IdentityOf(sites[k], live) in r
  {
    if sites == [] then []
    else
      assert sites == sites[..|sites| - 1] + [sites[|sites| - 1]];
      var rest, site := Identities(sites[..|sites| - 1], live, filtered), sites[|sites| - 1];
      if Shown(site, live, filtered) then rest + [IdentityOf(site, live)] else rest
  }

  /** What is reported: exactly the sites that are shown. */
  lemma {:induction false} ReportedIff(sites: seq<Site>, live: Live, filtered: bool, r: Identity)
    ensures r in Identities(sites, live, filtered) <==>
              exists k :: 0 <= k < |sites| && Shown(sites[k], live, filtered) && r == IdentityOf(sites[k], live)
  {
    hide Shown, IdentityOf;
    if sites != [] {
      var rest, last := sites[..|sites| - 1], sites[|sites| - 1];
      ReportedIff(rest, live, filtered, r);
      assert sites == rest + [last];
      assert forall k :: 0 <= k < |rest| ==> sites[k] == rest[k];
    }
  }

  /** `run_whoami` after the live cookies were read. */
  method WhoAmI(fps: seq<Fingerprint>, live: Live, filtered: bool) returns (results: seq<Identity>, sites: seq<Site>)
    ensures Groups(sites, fps) && results == Identities(sites, live, filtered)
  {
    hide Best, Shown, Groups;
    sites := GroupBySite(fps);
    results := [];
    for k := 0 to |sites|
      invariant results == Identities(sites[..k], live, filtered)
    {
      assert sites[..k + 1][..k] == sites[..k];
      if Shown(sites[k], live, filtered) {
        var scored := Scored(sites[k].accounts, live);
        var ranked := Rank(scored);
        var best := FirstMatch(ranked, sites[k].accounts, live);
        results := results + [Identity(sites[k].name, best, ranked)];
      }
    }
    assert sites[..|sites|] == sites;
  }

  method FirstMatch(ranked: seq<Ranked>, ghost accounts: seq<Fingerprint>, ghost live: Live)
    returns (best: Option<Ranked>)
    requires ranked == Rank(Scored(accounts, live))
    ensures best == Best(accounts, live)
  {
    best := if ranked == [] || !IsMatch(ranked[0].score) then None else Some(ranked[0]);
  }

  /**
   * Every account that matches on a shown site has that site reported, as itself or as one with no lower rate, and is
   * itself among the site's candidates.
   */
  lemma MatchIsReported(fps: seq<Fingerprint>, live: Live, filtered: bool, sites: seq<Site>, i: nat)
    requires Groups(sites, fps) && i < |fps| && IsMatch(ScoreOf(fps[i], live)) && (filtered || Present(fps[i], live))
    ensures exists r :: r in Identities(sites, live, filtered) && r.site == fps[i].site && r.account.Some?
                        && r.account.value.fp.site == fps[i].site && IsMatch(r.account.value.score)
                        && Rate(r.account.value.score) >= Rate(ScoreOf(fps[i], live))
                        && Ranked(fps[i], ScoreOf(fps[i], live)) in r.candidates
  {
    hide *;
    var k, j := Grouped(fps, sites, i);
    BestOfShown(sites, live, filtered, k, j);
  }

  /** Where an account stands in its group. */
  lemma Grouped(fps: seq<Fingerprint>, sites: seq<Site>, i: nat) returns (k: nat, j: nat)
    requires Groups(sites, fps) && i < |fps|
    ensures k < |sites| && j < |sites[k].accounts| && sites[k].accounts[j] == fps[i] && sites[k].name == fps[i].site
    ensures forall f :: f in sites[k].accounts ==> f.site == sites[k].name
  {
    assert HasSite(sites, fps[i].site);
    var n :| 0 <= n < |sites| && sites[n].name == fps[i].site;
    k := n;
    assert fps[i] in sites[k].accounts;
    var m :| 0 <= m < |sites[k].accounts| && sites[k].accounts[m] == fps[i];
    j := m;
  }

  lemma BestOfShown(sites: seq<Site>, live: Live, filtered: bool, k: nat, j: nat)
    requires k < |sites| && j < |sites[k].accounts|
    requires forall f :: f in sites[k].accounts ==> f.site == sites[k].name
    requires var f := sites[k].accounts[j]; IsMatch(ScoreOf(f, live)) && (filtered || Present(f, live))
    ensures exists r :: r in Identities(sites, live, filtered) && r.site == sites[k].name && r.account.Some?
                        && r.account.value.fp.site == sites[k].name && IsMatch(r.account.value.score)
                        && Rate(r.account.value.score) >= Rate(ScoreOf(sites[k].accounts[j], live))
                        && Ranked(sites[k].accounts[j], ScoreOf(sites[k].accounts[j], live)) in r.candidates
  {
    hide IsMatch, ScoreOf, Rate, Present, Best, Identities, Rank, Scored;
    var accounts := sites[k].accounts;
    BestIsAMatch(accounts, live);
    BestMatches(accounts, live);
    assert Shown(sites[k], live, filtered);
    RankedIsKept(accounts, live, j);
    assert IdentityOf(sites[k], live) in Identities(sites, live, filtered);
  }

  lemma RankedIsKept(accounts: seq<Fingerprint>, live: Live, j: nat)
    requires j < |accounts|
    ensures Ranked(accounts[j], ScoreOf(accounts[j], live)) in Rank(Scored(accounts, live))
  {
    hide ScoreOf, Rank;
    var scored := Scored(accounts, live);
    RankRanks(scored);
    assert scored[j] in multiset(scored);
    assert scored[j] in multiset(Rank(scored));
  }

  lemma BestMatches(accounts: seq<Fingerprint>, live: Live)
    ensures Best(accounts, live).Some? ==> IsMatch(Best(accounts, live).value.score)
  {
  }

  // ---- acting as an account ----

  datatype Refusal = Unclear(count: nat) | Unreadable | Mismatch(s: Score) | SwitchFailed | StillMismatch(s: Score)

  /** The account meant: the one of that very id, else the only one. */
  function Meant(fps: seq<Fingerprint>, account: string): Option<Fingerprint> {
    var exact := Filter(fps, (f: Fingerprint) => f.id == account);
    if exact != [] then Some(exact[0]) else if |fps| == 1 then Some(fps[0]) else None
  }

  /** The account meant is the first of that id, or the only one there is; otherwise none is. */
  lemma MeantIff(fps: seq<Fingerprint>, account: string)
    ensures forall i :: 0 <= i < |fps| && fps[i].id == account && (forall j :: 0 <= j < i ==> fps[j].id != account) ==>
              Meant(fps, account) == Some(fps[i])
    ensures (forall i :: 0 <= i < |fps| ==> fps[i].id != account) ==>
              Meant(fps, account) == if |fps| == 1 then Some(fps[0]) else None
  {
    var p := (f: Fingerprint) => f.id == account;
    forall i | 0 <= i < |fps| && fps[i].id == account && (forall j :: 0 <= j < i ==> fps[j].id != account)
      ensures Meant(fps, account) == Some(fps[i])
    {
      var before, rest := fps[..i], fps[i..];
      assert fps == before + rest && rest[0] == fps[i];
      FilterAppend(before, rest, p);
      FilterNone(before, p);
      assert Filter(rest, p) == [rest[0]] + Filter(rest[1..], p);
    }
    if forall i :: 0 <= i < |fps| ==> fps[i].id != account {
      FilterNone(fps, p);
    }
  }

  method FindAccount(fps: seq<Fingerprint>, account: string) returns (fp: Option<Fingerprint>)
    ensures fp == Meant(fps, account)
  {
    var p := (f: Fingerprint) => f.id == account;
    for i := 0 to |fps|
      invariant Filter(fps[..i], p) == []
    {
      assert fps == fps[..i] + fps[i..];
      assert fps[..i + 1] == fps[..i] + [fps[i]];
      FilterAppend(fps[..i], fps[i..], p);
      FilterAppend(fps[..i], [fps[i]], p);
      if fps[i].id == account {
        return Some(fps[i]);
      }
    }
    assert fps[..|fps|] == fps;
    return if |fps| == 1 then Some(fps[0]) else None;
  }

  /**
   * Check, switch, check again. `before` and `after` are what the browser's cookies would be read as before and
   * after a switch, and `applied` whether the switch went through. The command may run only if the session that it
   * would run in was last seen to be the meant account, and a switch is tried only on an observed mismatch.
   */
  method EnforceAs(fps: seq<Fingerprint>, account: string, strict: bool, before: Option<Live>, applied: bool,
                   after: Option<Live>)
    returns (r: Result<(), Refusal>, switched: bool)
    ensures var fp := Meant(fps, account);
      && (switched <==> fp.Some? && before.Some? && !strict && !IsMatch(ScoreOf(fp.value, before.value)))
      && (r.Ok? <==>
            && fp.Some? && before.Some?
            && (if switched then applied && after.Some? && IsMatch(ScoreOf(fp.value, after.value))
                else IsMatch(ScoreOf(fp.value, before.value))))
  {
    switched := false;
    var found := FindAccount(fps, account);
    if found.None? {
      return Err(Unclear(|fps|)), false;
    }
    var fp := found.value;
    if before.None? {
      return Err(Unreadable), false;
    }
    var s := ScoreOf(fp, before.value);
    if IsMatch(s) {
      return Ok(()), false;
    }
    if strict {
      return Err(Mismatch(s)), false;
    }
    switched := true;
    if !applied {
      return Err(SwitchFailed), true;
    }
    if after.None? {
      return Err(Unreadable), true;
    }
    s := ScoreOf(fp, after.value);
    if !IsMatch(s) {
      return Err(StillMismatch(s)), true;
    }
    return Ok(()), true;
  }
}
