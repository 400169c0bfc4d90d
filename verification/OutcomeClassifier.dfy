/** Three-valued classification of a command's JSON answer (bench/run-task.py, `classify_outcome`). */
module OutcomeClassifier {
  import opened Common
  import opened JsonValue

  /** An object that says whether it succeeded. */
  predicate IsEnvelope(p: Json) {
    p.Object? && "success" in p.fields && p.fields["success"].Bool?
  }

  predicate IsUnknownCode(v: Json) {
    v == Text("outcome_unknown") || v == Text("action_outcome_unknown")
  }

  /** A field that reports a code says that the outcome is unknown. */
  predicate SaysUnknown(fields: map<string, Json>) {
    || ("status" in fields && IsUnknownCode(fields["status"]))
    || ("code" in fields && IsUnknownCode(fields["code"]))
    || ("error_code" in fields && IsUnknownCode(fields["error_code"]))
  }

  /** Some(true): unknown was reported; Some(false): it was not; None: not completely classified. */
  function Classify(p: Json): Option<bool>
    decreases p, 1
  {
    if p.List? then
      if exists i :: 0 <= i < |p.items| && Classify(p.items[i]) == Some(true) then Some(true)
      else if p.items != [] && forall i :: 0 <= i < |p.items| ==> Classify(p.items[i]) == Some(false) then Some(false)
      else None
    else if !IsEnvelope(p) then None
    else if ContainsUnknown(p, false) then Some(true)
    else if Unclassified(p, "data") || Unclassified(p, "result") then None
    else Some(false)
  }

  /** A list under `key` that has no complete classification. */
  predicate Unclassified(p: Json, key: string)
    decreases p, 0
  {
    p.Object? && key in p.fields && p.fields[key].List? && Classify(p.fields[key]) == None
  }

  predicate ContainsUnknown(p: Json, errorEnvelope: bool)
    decreases p, 0
  {
    match p
    case List(items) => exists i :: 0 <= i < |items| && Classify(items[i]) == Some(true)
    case Object(fields) =>
      || ((errorEnvelope || IsEnvelope(p)) && SaysUnknown(fields))
      || ("error" in fields && ContainsUnknown(fields["error"], true))
      || ("data" in fields && ContainsUnknown(fields["data"], false))
      || ("result" in fields && ContainsUnknown(fields["result"], false))
    case _ => false
  }

  // ---- what the recursion finds ----

  datatype Hop = Error | Data | Outcome | Item(index: nat)

  /** The object says under "success" whether it succeeded. */
  ghost predicate SaysSuccess(p: Json) { p.Object? && "success" in p.fields && p.fields["success"].Bool? }

  /** What can be classified as an item: a list, or such an object. */
  ghost predicate IsOutcome(p: Json) { p.List? || SaysSuccess(p) }

  /** One of the three code fields holds one of the two unknown codes. */
  ghost predicate HoldsCode(p: Json) {
    && p.Object?
    && exists key | key in ["status", "code", "error_code"] ::
         key in p.fields && p.fields[key] in [Text("outcome_unknown"), Text("action_outcome_unknown")]
  }

  lemma CodeIsHeld(p: Json)
    requires p.Object?
    ensures HoldsCode(p) <==> SaysUnknown(p.fields)
    ensures IsEnvelope(p) <==> SaysSuccess(p)
  {
    var keys := ["status", "code", "error_code"];
    assert keys[0] in keys && keys[1] in keys && keys[2] in keys;
  }

  /** Following the path from `p` leads to an envelope, or to an error inside one, that reports an unknown code. */
  ghost predicate ReportedAt(p: Json, errorEnvelope: bool, path: seq<Hop>)
    decreases path
  {
    if path == [] then (errorEnvelope || SaysSuccess(p)) && HoldsCode(p)
    else
      match path[0]
      case Error => p.Object? && "error" in p.fields && ReportedAt(p.fields["error"], true, path[1..])
      case Data => p.Object? && "data" in p.fields && ReportedAt(p.fields["data"], false, path[1..])
      case Outcome => p.Object? && "result" in p.fields && ReportedAt(p.fields["result"], false, path[1..])
      case Item(i) => p.List? && i < |p.items| && IsOutcome(p.items[i]) && ReportedAt(p.items[i], false, path[1..])
  }

  ghost predicate Reported(p: Json, errorEnvelope: bool) {
    exists path :: ReportedAt(p, errorEnvelope, path)
  }

  lemma Lead(p: Json, errorEnvelope: bool, hop: Hop, next: Json, nextError: bool)
    requires Reported(next, nextError)
    requires match hop
             case Error => p.Object? && "error" in p.fields && next == p.fields["error"] && nextError
             case Data => p.Object? && "data" in p.fields && next == p.fields["data"] && !nextError
             case Outcome => p.Object? && "result" in p.fields && next == p.fields["result"] && !nextError
             case Item(i) => p.List? && i < |p.items| && next == p.items[i] && IsOutcome(next) && !nextError
    ensures Reported(p, errorEnvelope)
  {
    var path :| ReportedAt(next, nextError, path);
    assert ([hop] + path)[1..] == path;
    assert ReportedAt(p, errorEnvelope, [hop] + path);
  }

  /** The recursion answers true exactly when some path leads to a reported unknown code. */
  lemma {:induction false} UnknownIsReported(p: Json, errorEnvelope: bool)
    ensures ContainsUnknown(p, errorEnvelope) <==> Reported(p, errorEnvelope)
    decreases p, 1
  {
    match p
    case List(items) =>
      if ContainsUnknown(p, errorEnvelope) {
        var i :| 0 <= i < |items| && Classify(items[i]) == Some(true);
        TrueIsReported(items[i]);
        Lead(p, errorEnvelope, Item(i), items[i], false);
      }
      if path: seq<Hop> :| ReportedAt(p, errorEnvelope, path) {
        assert ReportedAt(items[path[0].index], false, path[1..]);
        TrueIsReported(items[path[0].index]);
      }
    case Object(fields) => ObjectIsReported(p, errorEnvelope);
    case _ =>
      forall path
        ensures !ReportedAt(p, errorEnvelope, path)
      {
      }
  }

  lemma {:induction false} ObjectIsReported(p: Json, errorEnvelope: bool)
    requires p.Object?
    ensures ContainsUnknown(p, errorEnvelope) <==> Reported(p, errorEnvelope)
    decreases p, 0
  {
    var fields := p.fields;
    CodeIsHeld(p);
    if (errorEnvelope || IsEnvelope(p)) && SaysUnknown(fields) {
      assert ReportedAt(p, errorEnvelope, []);
    }
    if "error" in fields {
      UnknownIsReported(fields["error"], true);
      if Reported(fields["error"], true) {
        Lead(p, errorEnvelope, Error, fields["error"], true);
      }
    }
    if "data" in fields {
      UnknownIsReported(fields["data"], false);
      if Reported(fields["data"], false) {
        Lead(p, errorEnvelope, Data, fields["data"], false);
      }
    }
    if "result" in fields {
      UnknownIsReported(fields["result"], false);
      if Reported(fields["result"], false) {
        Lead(p, errorEnvelope, Outcome, fields["result"], false);
      }
    }
    if path: seq<Hop> :| ReportedAt(p, errorEnvelope, path) {
      if path != [] {
        var rest := path[1..];
        match path[0] {
          case Error => assert ReportedAt(fields["error"], true, rest);
          case Data => assert ReportedAt(fields["data"], false, rest);
          case Outcome => assert ReportedAt(fields["result"], false, rest);
          case Item(_) =>
        }
      }
    }
  }

  /** A verdict of true: the value is an outcome in which an unknown code is reported. */
  lemma {:induction false} TrueIsReported(p: Json)
    ensures Classify(p) == Some(true) <==> IsOutcome(p) && Reported(p, false)
    decreases p, 2
  {
    UnknownIsReported(p, false);
  }

  // ---- when the verdict is false ----

  /** Where the path leads: into the items of lists, and to the lists right under data or result of an answer. */
  ghost function Reached(p: Json, path: seq<Hop>): Option<Json>
    decreases path
  {
    if path == [] then Some(p)
    else
      match path[0]
      case Item(i) => if p.List? && i < |p.items| then Reached(p.items[i], path[1..]) else None
      case Data =>
        if SaysSuccess(p) && "data" in p.fields && p.fields["data"].List? then Reached(p.fields["data"], path[1..])
        else None
      case Outcome =>
        if SaysSuccess(p) && "result" in p.fields && p.fields["result"].List? then
          Reached(p.fields["result"], path[1..])
        else None
      case Error => None
  }

  /** A list with items, or an answer in which nothing unknown is reported. */
  ghost predicate IsClean(p: Json) {
    (p.List? && p.items != []) || (SaysSuccess(p) && !Reported(p, false))
  }

  ghost predicate AllClean(p: Json) {
    forall path | Reached(p, path).Some? :: IsClean(Reached(p, path).value)
  }

  /** The hop leads from the value to another one that must be clean. */
  ghost predicate Leads(p: Json, hop: Hop, next: Json) { Reached(p, [hop]) == Some(next) }

  lemma LeadsIff(p: Json, hop: Hop, next: Json)
    ensures Leads(p, hop, next) <==>
      match hop
      case Item(i) => p.List? && i < |p.items| && next == p.items[i]
      case Data => SaysSuccess(p) && "data" in p.fields && p.fields["data"].List? && next == p.fields["data"]
      case Outcome => SaysSuccess(p) && "result" in p.fields && p.fields["result"].List? && next == p.fields["result"]
      case Error => false
  {
    var path := [hop];
    assert path[0] == hop && path[1..] == [];
    match hop
    case Item(i) =>
      if p.List? && i < |p.items| {
        assert Reached(p, path) == Reached(p.items[i], []);
      }
    case Data =>
      if SaysSuccess(p) && "data" in p.fields && p.fields["data"].List? {
        assert Reached(p, path) == Reached(p.fields["data"], []);
      }
    case Outcome =>
      if SaysSuccess(p) && "result" in p.fields && p.fields["result"].List? {
        assert Reached(p, path) == Reached(p.fields["result"], []);
      }
    case Error =>
  }

  lemma ReachedNext(p: Json, hop: Hop, next: Json, path: seq<Hop>)
    requires Leads(p, hop, next)
    ensures Reached(p, [hop] + path) == Reached(next, path)
  {
    LeadsIff(p, hop, next);
    assert ([hop] + path)[1..] == path && ([hop] + path)[0] == hop;
  }

  lemma ReachedFirst(p: Json, path: seq<Hop>) returns (next: Json)
    requires path != [] && Reached(p, path).Some?
    ensures Leads(p, path[0], next) && Reached(p, path) == Reached(next, path[1..])
  {
    next := match path[0]
      case Item(i) => p.items[i]
      case Data => p.fields["data"]
      case Outcome => p.fields["result"]
      case Error => p;
    LeadsIff(p, path[0], next);
  }

  /** All that is reached is clean if the value itself is and all that is reached behind one hop. */
  lemma CleanBehind(p: Json, hop: Hop, next: Json)
    requires AllClean(p) && Leads(p, hop, next)
    ensures AllClean(next)
  {
    hide IsClean, Reached, Leads;
    forall path | Reached(next, path).Some?
      ensures IsClean(Reached(next, path).value)
    {
      ReachedNext(p, hop, next, path);
      assert Reached(p, [hop] + path).Some?;
    }
  }

  /** All that is reached is clean if the value itself is and all that is reached behind one hop. */
  lemma CleanByHops(p: Json)
    ensures AllClean(p) <==> IsClean(p) && forall hop, next | Leads(p, hop, next) :: AllClean(next)
  {
    ReachedHere(p);
    hide IsClean, Reached, Leads;
    if AllClean(p) {
      assert Reached(p, []).Some?;
      forall hop, next | Leads(p, hop, next)
        ensures AllClean(next)
      {
        CleanBehind(p, hop, next);
      }
    } else if IsClean(p) {
      var path :| Reached(p, path).Some? && !IsClean(Reached(p, path).value);
      var next := ReachedFirst(p, path);
      assert !AllClean(next) by {
        assert !IsClean(Reached(next, path[1..]).value);
      }
    }
  }

  lemma ReachedHere(p: Json)
    ensures Reached(p, []) == Some(p)
  {
  }

  /**
   A verdict of false: everything reached is a list with items or an answer, and nothing unknown is
   reported in any of these answers. So no verdict is given exactly when neither this holds nor an
   unknown code is reported.
   */
  lemma {:induction false} FalseIff(p: Json)
    ensures Classify(p) == Some(false) <==> AllClean(p)
    ensures Classify(p) == None <==> !AllClean(p) && !(IsOutcome(p) && Reported(p, false))
    decreases p, 2
  {
    TrueIsReported(p);
    CleanByHops(p);
    hide AllClean, Leads, Reported, Reached;
    if p.List? {
      FalseList(p);
    } else {
      FalseAnswer(p);
    }
  }

  lemma {:induction false} FalseList(p: Json)
    requires p.List?
    ensures Classify(p) == Some(false) <==>
      IsClean(p) && forall hop, next | Leads(p, hop, next) :: AllClean(next)
    decreases p, 0
  {
    hide AllClean, Leads, Reported, Reached;
    forall hop, next
      ensures Leads(p, hop, next) <==> hop.Item? && hop.index < |p.items| && next == p.items[hop.index]
    {
      LeadsIff(p, hop, next);
    }
    forall i | 0 <= i < |p.items|
      ensures Classify(p.items[i]) == Some(false) <==> AllClean(p.items[i])
      ensures Leads(p, Item(i), p.items[i])
    {
      FalseIff(p.items[i]);
    }
  }

  /** The list under the key, if there is one, holds back no verdict. */
  ghost predicate CleanUnder(p: Json, key: string)
    requires p.Object?
  {
    key in p.fields && p.fields[key].List? ==> AllClean(p.fields[key])
  }

  lemma {:induction false} UnclassifiedIff(p: Json, hop: Hop, key: string)
    requires SaysSuccess(p) && !Reported(p, false)
    requires (hop == Data && key == "data") || (hop == Outcome && key == "result")
    ensures Unclassified(p, key) <==> !CleanUnder(p, key)
    ensures CleanUnder(p, key) <==> forall next | Leads(p, hop, next) :: AllClean(next)
    decreases p, 0
  {
    hide AllClean, Leads, Reported, Reached;
    forall next
      ensures Leads(p, hop, next) <==> key in p.fields && p.fields[key].List? && next == p.fields[key]
    {
      LeadsIff(p, hop, next);
    }
    if key in p.fields && p.fields[key].List? {
      FalseIff(p.fields[key]);
      NotReportedBelow(p, hop, p.fields[key]);
    }
  }

  lemma OnlyTwoHops(p: Json)
    requires !p.List?
    ensures forall hop, next | Leads(p, hop, next) :: SaysSuccess(p) && (hop == Data || hop == Outcome)
  {
    forall hop, next | Leads(p, hop, next)
      ensures SaysSuccess(p) && (hop == Data || hop == Outcome)
    {
      LeadsIff(p, hop, next);
    }
  }

  lemma {:induction false} FalseAnswer(p: Json)
    requires !p.List?
    ensures Classify(p) == Some(false) <==>
      IsClean(p) && forall hop, next | Leads(p, hop, next) :: AllClean(next)
    decreases p, 1
  {
    hide AllClean, Leads, Reported, Reached, Unclassified, CleanUnder;
    UnknownIsReported(p, false);
    OnlyTwoHops(p);
    if p.Object? {
      CodeIsHeld(p);
    }
    if SaysSuccess(p) && !Reported(p, false) {
      UnclassifiedIff(p, Data, "data");
      UnclassifiedIff(p, Outcome, "result");
    }
  }

  lemma NotReportedBelow(p: Json, hop: Hop, next: Json)
    requires SaysSuccess(p) && !Reported(p, false)
    requires
      || (hop == Data && "data" in p.fields && next == p.fields["data"])
      || (hop == Outcome && "result" in p.fields && next == p.fields["result"])
    ensures !Reported(next, false)
  {
    if Reported(next, false) {
      Lead(p, false, hop, next, false);
    }
  }

  /** So a false verdict makes every list right under data or result false too, and not empty. */
  lemma FalseIsComplete(p: Json, key: string)
    requires IsEnvelope(p) && Classify(p) == Some(false)
    ensures !Reported(p, false)
    ensures key == "data" || key == "result" ==>
              key in p.fields && p.fields[key].List? ==>
                    Classify(p.fields[key]) == Some(false) && p.fields[key].items != []
  {
    UnknownIsReported(p, false);
    assert !Unclassified(p, "data") && !Unclassified(p, "result");
  }

  // ---- the order of items does not matter, at any depth ----

  ghost predicate IsPermutation(perm: seq<nat>, n: nat) {
    |perm| == n && Distinct(perm) && (forall i :: 0 <= i < n ==> perm[i] < n) && (forall k: nat :: k < n ==> k in perm)
  }

  /** `q` is `p` with the items of its lists, however deep, in another order. */
  ghost predicate Shuffled(p: Json, q: Json)
    decreases p, 1
  {
    match p
    case List(items) =>
      q.List? && |q.items| == |items| && exists perm :: ShuffledBy(p, q, perm)
    case Object(fields) =>
      q.Object? && q.fields.Keys == fields.Keys && forall key | key in fields :: Shuffled(fields[key], q.fields[key])
    case _ => p == q
  }

  ghost predicate ShuffledBy(p: Json, q: Json, perm: seq<nat>)
    requires p.List? && q.List? && |q.items| == |p.items|
    decreases p, 0
  {
    IsPermutation(perm, |p.items|) && forall i :: 0 <= i < |p.items| ==> Shuffled(p.items[i], q.items[perm[i]])
  }

  lemma {:induction false} ShuffledVerdict(p: Json, q: Json)
    requires Shuffled(p, q)
    ensures Classify(p) == Classify(q)
    decreases p, 1
  {
    if p.List? {
      var perm :| ShuffledBy(p, q, perm);
      forall i | 0 <= i < |p.items|
        ensures Classify(p.items[i]) == Classify(q.items[perm[i]])
      {
        ShuffledVerdict(p.items[i], q.items[perm[i]]);
      }
      SameStates(p.items, q.items, perm);
    } else if p.Object? {
      ShuffledUnknown(p, q, false);
      forall key | key in p.fields
        ensures Unclassified(p, key) == Unclassified(q, key)
      {
        assert Shuffled(p.fields[key], q.fields[key]);
        ShuffledVerdict(p.fields[key], q.fields[key]);
      }
      assert IsEnvelope(p) == IsEnvelope(q) by {
        if "success" in p.fields {
          assert Shuffled(p.fields["success"], q.fields["success"]);
        }
      }
    }
  }

  /** The state of some item. */
  ghost predicate Occurs(state: Option<bool>, items: seq<Json>) {
    exists k :: 0 <= k < |items| && Classify(items[k]) == state
  }

  /** States that correspond give the same verdict on the lists. */
  lemma SameStates(a: seq<Json>, b: seq<Json>, perm: seq<nat>)
    requires |a| == |b| && IsPermutation(perm, |a|)
    requires forall i :: 0 <= i < |a| ==> Classify(a[i]) == Classify(b[perm[i]])
    ensures Classify(List(a)) == Classify(List(b))
  {
    forall i | 0 <= i < |a|
      ensures Occurs(Classify(a[i]), b)
    {
      assert 0 <= perm[i] < |b|;
    }
    forall k: int | 0 <= k < |b|
      ensures Occurs(Classify(b[k]), a)
    {
      assert k as nat in perm;
      var i :| 0 <= i < |perm| && perm[i] == k;
      assert Classify(a[i]) == Classify(b[perm[i]]);
    }
    VerdictByStates(a, b);
  }

  /** A list's verdict depends on which states occur among its items. */
  lemma VerdictByStates(a: seq<Json>, b: seq<Json>)
    requires |a| == |b|
    requires forall i :: 0 <= i < |a| ==> Occurs(Classify(a[i]), b)
    requires forall k :: 0 <= k < |b| ==> Occurs(Classify(b[k]), a)
    ensures Classify(List(a)) == Classify(List(b))
    ensures ContainsUnknown(List(a), false) == ContainsUnknown(List(b), false)
  {
  }

  lemma {:induction false} ShuffledUnknown(p: Json, q: Json, errorEnvelope: bool)
    requires Shuffled(p, q)
    ensures ContainsUnknown(p, errorEnvelope) == ContainsUnknown(q, errorEnvelope)
    decreases p, 0
  {
    if p.Object? {
      forall key | key in p.fields
        ensures IsUnknownCode(p.fields[key]) == IsUnknownCode(q.fields[key])
        ensures p.fields[key].Bool? == q.fields[key].Bool?
        ensures ContainsUnknown(p.fields[key], true) == ContainsUnknown(q.fields[key], true)
        ensures ContainsUnknown(p.fields[key], false) == ContainsUnknown(q.fields[key], false)
      {
        assert Shuffled(p.fields[key], q.fields[key]);
        ShuffledUnknown(p.fields[key], q.fields[key], true);
        ShuffledUnknown(p.fields[key], q.fields[key], false);
      }
    } else if p.List? {
      var perm :| ShuffledBy(p, q, perm);
      forall i | 0 <= i < |p.items|
        ensures Classify(p.items[i]) == Classify(q.items[perm[i]])
      {
        ShuffledVerdict(p.items[i], q.items[perm[i]]);
      }
      SameStates(p.items, q.items, perm);
    }
  }
}
