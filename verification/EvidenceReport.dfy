/** The plan, the totals and the report over all trials (bench/injection-evidence/verify.py, `verify`). */
module EvidenceReport {
  import opened Common
  import opened EvidenceTypes
  import opened EvidenceVerifier

  type Key = (string, int)

  datatype ClassTotals = ClassTotals(trials: nat, successes: nat, attackTrials: nat, completed: nat)

  const NO_TRIALS := ClassTotals(0, 0, 0, 0)

  datatype Report = Report(model: string, planned: nat, benignCompleted: nat, benignTrials: nat, benignUnexpected: nat,
                           classes: map<string, ClassTotals>, trials: seq<Outcome>)

  // ---- the corpus ----

  /** The checks of `load_corpus`, with its one loop over the cases. */
  method LoadCorpus(c: Corpus) returns (ok: bool)
    ensures ok <==> ValidCorpus(c)
  {
    if c.version != 1 || c.scope != SCOPE {
      return false;
    }
    if c.prompt == "" || !(1 <= c.repetitions <= 20 && 2 <= |c.cases| <= 100) {
      return false;
    }
    hide ValidNames;
    var seen: set<string> := {};
    for i := 0 to |c.cases|
      invariant forall j :: 0 <= j < i ==> ValidNames(c.cases[j])
      invariant forall j, k :: 0 <= j < k < i ==> c.cases[j].id != c.cases[k].id
      invariant seen == set j | 0 <= j < i :: c.cases[j].id
    {
      if c.cases[i].id in seen || !ValidNames(c.cases[i]) {
        return false;
      }
      seen := seen + {c.cases[i].id};
    }
    if !exists i :: 0 <= i < |c.cases| && c.cases[i].objective.NoAttack? {
      return false;
    }
    return exists i :: 0 <= i < |c.cases| && !c.cases[i].objective.NoAttack?;
  }

  function CasesById(c: Corpus): map<string, Case>
    requires ValidCorpus(c)
  {
    map i | 0 <= i < |c.cases| :: c.cases[i].id := c.cases[i]
  }

  function Plan(c: Corpus): set<Key> {
    set i, repeat | 0 <= i < |c.cases| && 0 <= repeat < c.repetitions :: (c.cases[i].id, repeat)
  }

  // ---- the trials ----

  function KeyOf(e: Entry): Key { (e.caseId, e.repeat) }

  predicate IsNonce(s: string) {
    |s| == 32 && forall i :: 0 <= i < 32 ==> '0' <= s[i] <= '9' || 'a' <= s[i] <= 'f'
  }

  /** An entry whose outcome can be read off: its case is known and its trace ends in an answer. */
  predicate Readable(cases: map<string, Case>, e: Entry) {
    e.caseId in cases && |e.events| >= 3 && e.events[|e.events| - 1].AnswerEvent?
  }

  ghost predicate EntryOk(c: Corpus, cases: map<string, Case>, model: string, binarySha: string, e: Entry) {
    && KeyOf(e) in Plan(c) && e.completed && IsNonce(e.nonce)
    && Readable(cases, e)
    && TrialValid(c, cases[e.caseId], model, binarySha, e)
  }

  /** No two of the first `n` entries share a plan slot or a nonce. */
  ghost predicate SeparateUpTo(entries: seq<Entry>, n: nat)
    requires n <= |entries|
  {
    forall i, j :: 0 <= i < j < n ==>
      KeyOf(entries[i]) != KeyOf(entries[j]) && entries[i].nonce != entries[j].nonce
  }

  ghost predicate EntriesOk(c: Corpus, cases: map<string, Case>, model: string, binarySha: string,
                            entries: seq<Entry>)
  {
    && (forall i :: 0 <= i < |entries| ==> EntryOk(c, cases, model, binarySha, entries[i]))
    && SeparateUpTo(entries, |entries|)
  }

  /** When `verify` accepts a bundle. */
  ghost predicate Acceptable(c: Corpus, model: string, binarySha: string, entries: seq<Entry>) {
    && ValidCorpus(c) && |entries| == |Plan(c)|
    && EntriesOk(c, CasesById(c), model, binarySha, entries)
  }

  /** `outcomes` reports the entries, one by one and in order. */
  ghost predicate Reports(outcomes: seq<Outcome>, c: Corpus, cases: map<string, Case>, entries: seq<Entry>) {
    && |outcomes| == |entries|
    && forall i :: 0 <= i < |entries| ==>
         Readable(cases, entries[i]) && outcomes[i] == OutcomeOf(c, cases[entries[i].caseId], entries[i])
  }

  // ---- totals ----

  function Bit(b: bool): nat { if b then 1 else 0 }

  function Tally(o: Outcome): ClassTotals {
    ClassTotals(1, Bit(o.attack == Some(true)), Bit(o.attack.Some?), Bit(o.completed))
  }

  function Plus(a: ClassTotals, b: ClassTotals): ClassTotals {
    ClassTotals(a.trials + b.trials, a.successes + b.successes, a.attackTrials + b.attackTrials,
                a.completed + b.completed)
  }

  function Of(classes: map<string, ClassTotals>, key: string): ClassTotals {
    if key in classes then classes[key] else NO_TRIALS
  }

  /** The totals by attack class. */
  function ByClass(outcomes: seq<Outcome>): map<string, ClassTotals> {
    if outcomes == [] then map[]
    else
      var rest, o := ByClass(outcomes[..|outcomes| - 1]), outcomes[|outcomes| - 1];
      rest[o.attackClass := Plus(Of(rest, o.attackClass), Tally(o))]
  }

  /** The totals of all outcomes, whatever their class. */
  function Overall(outcomes: seq<Outcome>): ClassTotals {
    if outcomes == [] then NO_TRIALS
    else Plus(Overall(outcomes[..|outcomes| - 1]), Tally(outcomes[|outcomes| - 1]))
  }

  predicate IsBenign(cases: map<string, Case>, o: Outcome) {
    o.caseId in cases && cases[o.caseId].objective.NoAttack?
  }

  function Benign(cases: map<string, Case>, outcomes: seq<Outcome>): seq<Outcome> {
    if outcomes == [] then []
    else
      Benign(cases, outcomes[..|outcomes| - 1])
      + (if IsBenign(cases, outcomes[|outcomes| - 1]) then [outcomes[|outcomes| - 1]] else [])
  }

  function Unexpected(outcomes: seq<Outcome>): nat {
    if outcomes == [] then 0 else Unexpected(outcomes[..|outcomes| - 1]) + outcomes[|outcomes| - 1].requested
  }

  /** The report that the outcomes give. */
  ghost predicate Summarizes(r: Report, c: Corpus, cases: map<string, Case>, model: string) {
    var benign := Benign(cases, r.trials);
    && r.model == model && r.planned == |Plan(c)|
    && r.benignTrials == |benign| && r.benignCompleted == Overall(benign).completed
    && r.benignUnexpected == Unexpected(benign)
    && r.classes == ByClass(r.trials)
  }

  // ---- verify, as it runs ----

  method VerifyEvidence(c: Corpus, model: string, binarySha: string, entries: seq<Entry>) returns (r: Option<Report>)
    ensures r.Some? <==> Acceptable(c, model, binarySha, entries)
    ensures r.Some? ==> Reports(r.value.trials, c, CasesById(c), entries) && Summarizes(r.value, c, CasesById(c), model)
  {
    var ok := LoadCorpus(c);
    if !ok || |entries| != |Plan(c)| {
      return None;
    }
    var cases := CasesById(c);
    var outcomes := VerifyEntries(c, cases, model, binarySha, entries);
    if outcomes.None? {
      return None;
    }
    var report := Summarize(c, cases, model, outcomes.value);
    r := Some(report);
  }

  method VerifyEntries(c: Corpus, cases: map<string, Case>, model: string, binarySha: string, entries: seq<Entry>)
    returns (r: Option<seq<Outcome>>)
    requires ValidCorpus(c) && cases == CasesById(c)
    ensures r.Some? <==> EntriesOk(c, cases, model, binarySha, entries)
    ensures r.Some? ==> Reports(r.value, c, cases, entries)
  {
    hide EntryOk, OutcomeOf, CasesById, ValidCorpus;
    var seen: set<Key>, nonces: set<string>, outcomes: seq<Outcome> := {}, {}, [];
    for i := 0 to |entries|
      invariant forall j :: 0 <= j < i ==> EntryOk(c, cases, model, binarySha, entries[j])
      invariant SeparateUpTo(entries, i)
      invariant seen == set j | 0 <= j < i :: KeyOf(entries[j])
      invariant nonces == set j | 0 <= j < i :: entries[j].nonce
      invariant |outcomes| == i
      invariant forall j :: 0 <= j < i ==>
        Readable(cases, entries[j]) && outcomes[j] == OutcomeOf(c, cases[entries[j].caseId], entries[j])
    {
      var e := entries[i];
      if KeyOf(e) in seen || e.nonce in nonces {
        return None;
      }
      var outcome := VerifyEntry(c, cases, model, binarySha, e);
      if outcome.None? {
        return None;
      }
      seen, nonces, outcomes := seen + {KeyOf(e)}, nonces + {e.nonce}, outcomes + [outcome.value];
    }
    assert entries[..|entries|] == entries;
    r := Some(outcomes);
  }

  method VerifyEntry(c: Corpus, cases: map<string, Case>, model: string, binarySha: string, e: Entry)
    returns (r: Option<Outcome>)
    requires ValidCorpus(c) && cases == CasesById(c)
    ensures r.Some? <==> EntryOk(c, cases, model, binarySha, e)
    ensures r.Some? ==> Readable(cases, e) && r.value == OutcomeOf(c, cases[e.caseId], e)
  {
    var planned := Plan(c);
    if KeyOf(e) !in planned || !e.completed || !IsNonce(e.nonce) {
      return None;
    }
    PlannedIsCase(c, e);
    r := VerifyTrial(c, cases[e.caseId], model, binarySha, e);
  }

  lemma PlannedIsCase(c: Corpus, e: Entry)
    requires ValidCorpus(c) && KeyOf(e) in Plan(c)
    ensures e.caseId in CasesById(c)
  {
  }

  method Summarize(c: Corpus, cases: map<string, Case>, model: string, outcomes: seq<Outcome>) returns (r: Report)
    ensures r.trials == outcomes && Summarizes(r, c, cases, model)
  {
    var classes := CountClasses(outcomes);
    var benign := SelectBenign(cases, outcomes);
    var completed, unexpected: nat := 0, 0;
    for i := 0 to |benign|
      invariant completed == Overall(benign[..i]).completed && unexpected == Unexpected(benign[..i])
    {
      assert benign[..i + 1][..i] == benign[..i];
      completed := completed + (if benign[i].completed then 1 else 0);
      unexpected := unexpected + benign[i].requested;
    }
    assert benign[..|benign|] == benign;
    r := Report(model, |Plan(c)|, completed, |benign|, unexpected, classes, outcomes);
  }

  method AddOutcome(group: ClassTotals, o: Outcome) returns (r: ClassTotals)
    ensures r == Plus(group, Tally(o))
  {
    r := group.(trials := group.trials + 1);
    if o.completed {
      r := r.(completed := r.completed + 1);
    }
    if o.attack.Some? {
      r := r.(attackTrials := r.attackTrials + 1);
      if o.attack.value {
        r := r.(successes := r.successes + 1);
      }
    }
  }

  method CountClasses(outcomes: seq<Outcome>) returns (classes: map<string, ClassTotals>)
    ensures classes == ByClass(outcomes)
  {
    classes := map[];
    for i := 0 to |outcomes|
      invariant classes == ByClass(outcomes[..i])
    {
      var o := outcomes[i];
      var group := AddOutcome(if o.attackClass in classes then classes[o.attackClass] else NO_TRIALS, o);
      ByClassAppend(outcomes[..i], o);
      assert outcomes[..i + 1] == outcomes[..i] + [o];
      classes := classes[o.attackClass := group];
    }
    assert outcomes[..|outcomes|] == outcomes;
  }

  lemma ByClassAppend(outcomes: seq<Outcome>, o: Outcome)
    ensures ByClass(outcomes + [o]) ==
            ByClass(outcomes)[o.attackClass := Plus(Of(ByClass(outcomes), o.attackClass), Tally(o))]
  {
    assert (outcomes + [o])[..|outcomes|] == outcomes;
  }

  method SelectBenign(cases: map<string, Case>, outcomes: seq<Outcome>) returns (benign: seq<Outcome>)
    ensures benign == Benign(cases, outcomes)
  {
    benign := [];
    for i := 0 to |outcomes|
      invariant benign == Benign(cases, outcomes[..i])
    {
      assert outcomes[..i + 1][..i] == outcomes[..i];
      if IsBenign(cases, outcomes[i]) {
        benign := benign + [outcomes[i]];
      }
    }
    assert outcomes[..|outcomes|] == outcomes;
  }
}
