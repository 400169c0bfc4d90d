/** The machine taxonomy of command failures (cli/src/error_envelope.rs). */
module ErrorEnvelope {
  import opened JsonValue
  import T = Text

  datatype Metadata = Metadata(code: string, retryable: bool)

  // ---- phrases that a refusal writes and a rule looks for ----

  function KeptMark(): string { "kept_ref_unverified:" }
  function Changed(): string { " no longer matches" + " its snapshot." }
  function NotResolved(): string { " could not be resolved" + " to the element it named " }
  function AmbiguousMark(): string { "selector_ambiguous:" }
  function IncompleteMark(): string { "navigation_incomplete:" }
  function CommitUnknown(): string { "whether this navigation" + " committed is unknown" }
  function CoverMark(): string { "cover_selection" + "_required:" }
  function UnknownMark(): string { "action_outcome_unknown:" }
  function IsOccluded(): string { "is occluded by" }
  function StillOccluded(): string { "at the click point" + " (still occluded after" }
  function OccludedBy(): string { " " + IsOccluded() + " " }
  function AtClickPoint(): string { " " + StillOccluded() + " " }
  function Refused(): string { "click refused: " }
  function CoveredBy(): string { " is covered by " }
  function HitInstead(): string { " at its click point" + ", so a click there" + " would hit that instead." }

  // ---- the rules that come before every generic one; each takes the lower-cased message ----

  predicate KeptRef(l: string) { T.Contains(l, KeptMark()) }

  predicate StaleRef(l: string) {
    "ref " <= l
    && (T.Contains(l, Changed()) || T.Contains(l, NotResolved()))
  }

  predicate AmbiguousSelector(l: string) { T.Contains(l, AmbiguousMark()) }

  predicate UnfinishedOpen(l: string) { T.Contains(l, IncompleteMark()) }

  predicate CoverSelection(l: string) { CoverMark() <= l }

  predicate UnknownOutcome(l: string) { T.Contains(l, UnknownMark()) }

  predicate OccludedRef(l: string) {
    "ref " <= l && T.Contains(l, OccludedBy()) && T.Contains(l, AtClickPoint())
  }

  predicate ClickRefused(l: string) {
    && Refused() <= l && T.Contains(l, CoveredBy())
    && T.Contains(l, HitInstead())
  }

  predicate Occluded(l: string) { OccludedRef(l) || ClickRefused(l) }

  // ---- the rest of the chain ----

  predicate Has(l: string, part: string) { T.Contains(l, part) }

  function FirstTab(l: string): Metadata {
    if Has(l, "profile not open") then Metadata("profile_not_open", false)
    else if Has(l, "profile window unavailable") then Metadata("profile_window_unavailable", false)
    else if Has(l, "first tab outcome unknown") then Metadata("first_tab_outcome_unknown", false)
    else if Has(l, "first tab refused") then Metadata("first_tab_refused", false)
    else if Has(l, "first tab cleanup incomplete") then Metadata("first_tab_cleanup_incomplete", false)
    else if Has(l, "first tab setup failed") then Metadata("first_tab_setup_failed", true)
    else Reply(l)
  }

  function Reply(l: string): Metadata {
    if Has(l, "reply_too_large:") then Metadata("reply_too_large", false)
    else if Has(l, "request_evicted:") then Metadata("request_evicted", false)
    else Download(l)
  }

  function Download(l: string): Metadata {
    if Has(l, "downloadurl: interrupted (user_canceled)") || Has(l, "download was canceled") then
      Metadata("download_canceled", false)
    else if Has(l, "downloadurl: interrupted") then Metadata("download_interrupted", true)
    else if Has(l, "downloadurl: timed out") || Has(l, "timeout waiting for download to complete")
         || (Has(l, "timed out") && Has(l, "abext.downloadurl")) then
      Metadata("download_timeout", false)
    else Transport(l)
  }

  function Transport(l: string): Metadata {
    if Has(l, "debugger_access_denied:")
       || (Has(l, "cannot access a chrome-extension://") && Has(l, "different extension")) then
      Metadata("debugger_access_denied", false)
    else if Has(l, "timeout") || Has(l, "timed out") then Metadata("timeout", true)
    else if Has(l, "stale session") || Has(l, "stale target") || Has(l, "detached") || Has(l, "target closed")
         || Has(l, "target is gone") then
      Metadata("stale_target", true)
    else if Has(l, "connection") || Has(l, "event stream closed") || Has(l, "failed to connect")
         || Has(l, "relay is not") then
      Metadata("connection_failed", true)
    else if Has(l, "browser not launched") then Metadata("browser_not_launched", true)
    else Command(l)
  }

  function Command(l: string): Metadata {
    if Has(l, "element not found") || Has(l, "no element matches selector") || Has(l, "could not locate element")
       || Has(l, "unknown ref") then
      Metadata("element_not_found", false)
    else if Has(l, "missing '") || Has(l, "invalid ") || Has(l, "unknown command") || Has(l, "unknown subcommand")
         || Has(l, "not yet implemented") then
      Metadata("invalid_request", false)
    else if Has(l, "requires ab-connect") || Has(l, "not supported") || Has(l, "unsupported")
         || Has(l, "permission") then
      Metadata("unsupported", false)
    else Metadata("command_failed", false)
  }

  function ClassifyLower(l: string): Metadata {
    if KeptRef(l) then Metadata("kept_ref_unverified", false)
    else if StaleRef(l) then Metadata("stale_ref", false)
    else if AmbiguousSelector(l) then Metadata("selector_ambiguous", false)
    else if UnfinishedOpen(l) then
      Metadata(if Has(l, CommitUnknown()) then "navigation_commit_unknown" else "navigation_incomplete", false)
    else if CoverSelection(l) then Metadata("cover_selection_required", false)
    else if UnknownOutcome(l) then Metadata("action_outcome_unknown", false)
    else if Occluded(l) then Metadata("element_occluded", false)
    else FirstTab(l)
  }

  function ClassifyError(message: string): Metadata { ClassifyLower(T.Lower(message)) }

  /** The codes under which a failure may be retried. */
  const RETRYABLE: seq<string> :=
    ["first_tab_setup_failed", "download_interrupted", "timeout", "stale_target", "connection_failed",
     "browser_not_launched"]

  ghost predicate ByCode(m: Metadata) { m.retryable <==> m.code in RETRYABLE }

  lemma CommandByCode(l: string)
    ensures ByCode(Command(l))
  {
    hide T.Contains;
  }

  lemma TransportByCode(l: string)
    ensures ByCode(Transport(l))
  {
    hide T.Contains, Command;
    CommandByCode(l);
    assert RETRYABLE[2] in RETRYABLE && RETRYABLE[3] in RETRYABLE && RETRYABLE[4] in RETRYABLE;
    assert RETRYABLE[5] in RETRYABLE;
  }

  lemma ReplyByCode(l: string)
    ensures ByCode(Reply(l))
  {
    hide T.Contains, Transport;
    TransportByCode(l);
    assert RETRYABLE[1] in RETRYABLE;
  }

  lemma FirstTabByCode(l: string)
    ensures ByCode(FirstTab(l))
  {
    hide T.Contains, Reply;
    ReplyByCode(l);
    assert RETRYABLE[0] in RETRYABLE;
  }

  /** Whatever the message: a failure may be retried exactly under one of six codes. */
  lemma RetryableByCode(message: string)
    ensures var m := ClassifyError(message); m.retryable <==> m.code in RETRYABLE
  {
    hide T.Contains, T.Lower, FirstTab, KeptRef, StaleRef, AmbiguousSelector, UnfinishedOpen, CoverSelection;
    hide UnknownOutcome, Occluded;
    FirstTabByCode(T.Lower(message));
  }

  // ---- refusals that quote the page ----

  /** The refusals, with every text in them that the page, the caller or another error supplies. */
  datatype Refusal =
    | Kept(rest: string)
    | Stale(ref: string, rest: string)
    | Unresolved(ref: string, rest: string)
    | Ambiguous(rest: string)
    | Unfinished(rest: string)
    | Unknown(context: string, rest: string)
    | OccludedAt(ref: string, cover: string, rest: string)
    | Covered(target: string, cover: string, rest: string)

  function Message(r: Refusal): string {
    match r
    case Kept(rest) => KeptMark() + rest
    case Stale(ref, rest) => "Ref " + ref + Changed() + rest
    case Unresolved(ref, rest) => "Ref " + ref + NotResolved() + rest
    case Ambiguous(rest) => AmbiguousMark() + rest
    case Unfinished(rest) => IncompleteMark() + rest
    case Unknown(context, rest) => context + UnknownMark() + rest
    case OccludedAt(ref, cover, rest) =>
      "Ref " + ref + OccludedBy() + cover + AtClickPoint() + rest
    case Covered(target, cover, rest) =>
      Refused() + target + CoveredBy() + cover + HitInstead() + rest
  }

  /** The texts that are not the refusal's own, as the rules read them. */
  function Supplied(r: Refusal): seq<string> {
    match r
    case Kept(rest) => [T.Lower(rest)]
    case Stale(ref, rest) => [T.Lower(ref), T.Lower(rest)]
    case Unresolved(ref, rest) => [T.Lower(ref), T.Lower(rest)]
    case Ambiguous(rest) => [T.Lower(rest)]
    case Unfinished(rest) => [T.Lower(rest)]
    case Unknown(context, rest) => [T.Lower(context), T.Lower(rest)]
    case OccludedAt(ref, cover, rest) => [T.Lower(ref), T.Lower(cover), T.Lower(rest)]
    case Covered(target, cover, rest) => [T.Lower(target), T.Lower(cover), T.Lower(rest)]
  }

  /** One of the supplied texts holds the phrase. */
  ghost predicate Says(r: Refusal, phrase: string) { T.AnyContains(Supplied(r), phrase) }

  /** The code a refusal is meant to have. */
  function OwnCode(r: Refusal): string {
    match r
    case Kept(_) => "kept_ref_unverified"
    case Stale(_, _) => "stale_ref"
    case Unresolved(_, _) => "stale_ref"
    case Ambiguous(_) => "selector_ambiguous"
    case Unfinished(rest) =>
      if T.Contains(T.Lower(rest), CommitUnknown()) then "navigation_commit_unknown" else "navigation_incomplete"
    case Unknown(_, _) => "action_outcome_unknown"
    case OccludedAt(_, _, _) => "element_occluded"
    case Covered(_, _, _) => "element_occluded"
  }

  /** The marks of earlier rules that a supplied text can bring into the message. */
  function MarksBefore(r: Refusal): seq<string> {
    match r
    case Kept(_) => []
    case Stale(_, _) => [KeptMark()]
    case Unresolved(_, _) => [KeptMark()]
    case Ambiguous(_) => [KeptMark()]
    case Unfinished(_) => [KeptMark(), AmbiguousMark()]
    case Unknown(_, _) => [KeptMark(), AmbiguousMark(), IncompleteMark()]
    case _ => [KeptMark(), AmbiguousMark(), IncompleteMark(), UnknownMark()]
  }

  /** The supplied text with the blanks that stand around it in an occluded refusal, which a stale sentence may use. */
  function Blanked(r: Refusal): seq<string>
    requires r.OccludedAt?
  {
    [" " + T.Lower(r.ref) + " ", " " + T.Lower(r.cover) + " ", " " + T.Lower(r.rest)]
  }

  ghost predicate AnyStale(texts: seq<string>) {
    T.AnyContains(texts, Changed()) || T.AnyContains(texts, NotResolved())
  }

  /**
   * What the supplied texts must not say for the refusal to keep its code: no mark of an earlier rule; the context of
   * an unknown outcome does not open as a cover selection does, nor as a stale ref does with a stale sentence anywhere;
   * and no text of an occluded ref holds a stale sentence.
   */
  ghost predicate KeepsCode(r: Refusal) {
    && (forall mark | mark in MarksBefore(r) :: !Says(r, mark))
    && (r.Unknown? ==> !(CoverMark() <= T.Lower(r.context)) && !("ref " <= T.Lower(r.context) && AnyStale(Supplied(r))))
    && (r.OccludedAt? ==> !AnyStale(Blanked(r)))
  }

  /** The refusal's own rule holds of its message. */
  predicate OwnRule(r: Refusal, l: string) {
    match r
    case Kept(_) => KeptRef(l)
    case Stale(_, _) => StaleRef(l)
    case Unresolved(_, _) => StaleRef(l)
    case Ambiguous(_) => AmbiguousSelector(l)
    case Unfinished(_) => UnfinishedOpen(l)
    case Unknown(_, _) => UnknownOutcome(l)
    case _ => Occluded(l)
  }

  lemma MarksAreLower()
    ensures T.Lower(KeptMark()) == KeptMark() && T.Lower(AmbiguousMark()) == AmbiguousMark()
    ensures T.Lower(IncompleteMark()) == IncompleteMark() && T.Lower(UnknownMark()) == UnknownMark()
  {
    hide T.Lower;
    T.LowerFixed(KeptMark());
    T.LowerFixed(AmbiguousMark());
    T.LowerFixed(IncompleteMark());
    T.LowerFixed(UnknownMark());
  }

  lemma CoverMarksAreLower()
    ensures T.Lower(OccludedBy()) == OccludedBy() && T.Lower(CoveredBy()) == CoveredBy()
            && T.Lower(Refused()) == Refused()
  {
    hide T.Lower;
    T.LowerFixed(OccludedBy());
    T.LowerFixed(CoveredBy());
    T.LowerFixed(Refused());
  }

  lemma StaleSentencesAreLower()
    ensures T.Lower(Changed()) == Changed() && T.Lower(NotResolved()) == NotResolved()
  {
    hide T.Lower;
    T.LowerFixed(Changed());
    T.LowerFixed(NotResolved());
  }

  lemma CoverSentencesAreLower()
    ensures T.Lower(AtClickPoint()) == AtClickPoint() && T.Lower(HitInstead()) == HitInstead()
  {
    hide T.Lower;
    AtClickPointIsLower();
    T.LowerFixed(HitInstead());
  }

  lemma AtClickPointIsLower()
    ensures T.Lower(AtClickPoint()) == AtClickPoint()
  {
    hide T.Lower;
    T.LowerFixed(AtClickPoint());
  }

  /** A lower-case phrase written into a message is found in the lower-cased message. */
  lemma Written(before: string, phrase: string, after: string)
    requires T.Lower(phrase) == phrase
    ensures T.Contains(T.Lower(before + phrase + after), phrase)
  {
    hide T.Lower, T.Contains;
    T.LowerConcat(before, phrase);
    T.LowerConcat(before + phrase, after);
    T.ContainsItself(phrase);
    T.ContainsInside(T.Lower(before), phrase, T.Lower(after), phrase);
  }

  lemma StartsLower(before: string, after: string)
    ensures T.Lower(before) <= T.Lower(before + after)
  {
    T.LowerConcat(before, after);
  }

  lemma RefIsLower()
    ensures T.Lower("Ref ") == "ref "
  {
  }

  lemma StaleRuleHolds(ref: string, rest: string)
    ensures StaleRef(T.Lower("Ref " + ref + Changed() + rest))
    ensures StaleRef(T.Lower("Ref " + ref + NotResolved() + rest))
  {
    hide T.Lower, T.Contains, Changed, NotResolved;
    RefIsLower();
    StaleSentencesAreLower();
    Written("Ref " + ref, Changed(), rest);
    Written("Ref " + ref, NotResolved(), rest);
    StartsLower("Ref ", ref + Changed() + rest);
    StartsLower("Ref ", ref + NotResolved() + rest);
    assert "Ref " + (ref + Changed() + rest) == "Ref " + ref + Changed() + rest;
    assert "Ref " + (ref + NotResolved() + rest) == "Ref " + ref + NotResolved() + rest;
  }

  lemma OccludedRuleHolds(ref: string, cover: string, rest: string)
    ensures OccludedRef(T.Lower("Ref " + ref + OccludedBy() + cover + AtClickPoint() + rest))
  {
    hide T.Lower, T.Contains, OccludedBy, AtClickPoint;
    var message := "Ref " + ref + OccludedBy() + cover + AtClickPoint() + rest;
    RefIsLower();
    CoverMarksAreLower();
    CoverSentencesAreLower();
    Written("Ref " + ref, OccludedBy(), cover + AtClickPoint() + rest);
    Written("Ref " + ref + OccludedBy() + cover, AtClickPoint(), rest);
    StartsLower("Ref ", ref + OccludedBy() + cover + AtClickPoint() + rest);
    assert "Ref " + ref + OccludedBy() + (cover + AtClickPoint() + rest) == message;
    assert "Ref " + (ref + OccludedBy() + cover + AtClickPoint() + rest) == message;
  }

  lemma CoveredRuleHolds(target: string, cover: string, rest: string)
    ensures ClickRefused(T.Lower(Refused() + target + CoveredBy() + cover + HitInstead() + rest))
  {
    hide T.Lower, T.Contains, Refused, CoveredBy, HitInstead;
    var message := Refused() + target + CoveredBy() + cover + HitInstead() + rest;
    CoverMarksAreLower();
    CoverSentencesAreLower();
    Written(Refused() + target, CoveredBy(), cover + HitInstead() + rest);
    Written(Refused() + target + CoveredBy() + cover, HitInstead(), rest);
    StartsLower(Refused(), target + CoveredBy() + cover + HitInstead() + rest);
    assert Refused() + target + CoveredBy() + (cover + HitInstead() + rest) == message;
    assert Refused() + (target + CoveredBy() + cover + HitInstead() + rest) == message;
  }

  lemma MarkRuleHolds(before: string, rest: string)
    ensures KeptRef(T.Lower(before + KeptMark() + rest)) && AmbiguousSelector(T.Lower(before + AmbiguousMark() + rest))
    ensures UnfinishedOpen(T.Lower(before + IncompleteMark() + rest))
            && UnknownOutcome(T.Lower(before + UnknownMark() + rest))
  {
    hide T.Lower, T.Contains, KeptMark, AmbiguousMark, IncompleteMark, UnknownMark;
    MarksAreLower();
    Written(before, KeptMark(), rest);
    Written(before, AmbiguousMark(), rest);
    Written(before, IncompleteMark(), rest);
    Written(before, UnknownMark(), rest);
  }

  lemma MarkOpens(rest: string)
    ensures KeptRef(T.Lower(KeptMark() + rest)) && AmbiguousSelector(T.Lower(AmbiguousMark() + rest))
    ensures UnfinishedOpen(T.Lower(IncompleteMark() + rest))
  {
    hide T.Lower, T.Contains, KeptMark, AmbiguousMark, IncompleteMark, UnknownMark, KeptRef, AmbiguousSelector,
         UnfinishedOpen, UnknownOutcome;
    MarkRuleHolds("", rest);
    NothingBefore(KeptMark());
    NothingBefore(AmbiguousMark());
    NothingBefore(IncompleteMark());
  }

  lemma NothingBefore(s: string)
    ensures "" + s == s
  {
  }

  lemma OwnRuleHolds(r: Refusal)
    ensures OwnRule(r, T.Lower(Message(r)))
  {
    hide T.Lower, T.Contains, KeptMark, AmbiguousMark, IncompleteMark, UnknownMark, Changed, NotResolved, OccludedBy,
         AtClickPoint, Refused, CoveredBy, HitInstead, KeptRef, StaleRef, AmbiguousSelector, UnfinishedOpen,
         UnknownOutcome, Occluded;
    match r
    case Kept(rest) => { MarkOpens(rest); }
    case Stale(ref, rest) => { StaleRuleHolds(ref, rest); }
    case Unresolved(ref, rest) => { StaleRuleHolds(ref, rest); }
    case Ambiguous(rest) => { MarkOpens(rest); }
    case Unfinished(rest) => { MarkOpens(rest); }
    case Unknown(context, rest) => { MarkRuleHolds(context, rest); }
    case _ => { CoverRuleHolds(r); }
  }

  lemma CoverRuleHolds(r: Refusal)
    requires r.OccludedAt? || r.Covered?
    ensures Occluded(T.Lower(Message(r)))
  {
    hide T.Lower, OccludedBy, AtClickPoint, Refused, CoveredBy, HitInstead, OccludedRef, ClickRefused;
    match r
    case OccludedAt(ref, cover, rest) => { OccludedRuleHolds(ref, cover, rest); }
    case Covered(target, cover, rest) => { CoveredRuleHolds(target, cover, rest); }
  }

  // ---- a mark in a message lies in one of the supplied texts ----

  /** The refusal's own texts around the supplied ones, in lower case. */
  function Around(r: Refusal): (fixed: seq<string>)
    ensures |fixed| == |Supplied(r)| + 1
  {
    match r
    case Kept(_) => [KeptMark(), ""]
    case Stale(_, _) => ["ref ", Changed(), ""]
    case Unresolved(_, _) => ["ref ", NotResolved(), ""]
    case Ambiguous(_) => [AmbiguousMark(), ""]
    case Unfinished(_) => [IncompleteMark(), ""]
    case Unknown(_, _) => ["", UnknownMark(), ""]
    case OccludedAt(_, _, _) => ["ref ", OccludedBy(), AtClickPoint(), ""]
    case Covered(_, _, _) => [Refused(), CoveredBy(), HitInstead(), ""]
  }

  lemma FillOne(fixed: seq<string>, free: seq<string>)
    requires |fixed| == 2 && |free| == 1
    ensures T.Fill(fixed, free) == fixed[0] + free[0] + fixed[1]
  {
    assert T.Fill([fixed[1]], []) == fixed[1];
    assert fixed[1..] == [fixed[1]] && free[1..] == [];
  }

  lemma FillTwo(fixed: seq<string>, free: seq<string>)
    requires |fixed| == 3 && |free| == 2
    ensures T.Fill(fixed, free) == fixed[0] + free[0] + fixed[1] + free[1] + fixed[2]
  {
    FillOne(fixed[1..], free[1..]);
  }

  lemma FillThree(fixed: seq<string>, free: seq<string>)
    requires |fixed| == 4 && |free| == 3
    ensures T.Fill(fixed, free) == fixed[0] + free[0] + fixed[1] + free[1] + fixed[2] + free[2] + fixed[3]
  {
    FillTwo(fixed[1..], free[1..]);
  }

  lemma LowerTwo(a: string, x: string, b: string, y: string)
    ensures T.Lower(a + x + b + y) == T.Lower(a) + T.Lower(x) + T.Lower(b) + T.Lower(y)
  {
    hide T.Lower;
    T.LowerConcat(a, x);
    T.LowerConcat(a + x, b);
    T.LowerConcat(a + x + b, y);
  }

  lemma LowerThree(a: string, x: string, b: string, y: string, c: string, z: string)
    ensures T.Lower(a + x + b + y + c + z)
         == T.Lower(a) + T.Lower(x) + T.Lower(b) + T.Lower(y) + T.Lower(c) + T.Lower(z)
  {
    hide T.Lower;
    LowerTwo(a, x, b, y);
    T.LowerConcat(a + x + b + y, c);
    T.LowerConcat(a + x + b + y + c, z);
  }

  lemma OneIsFilled(r: Refusal)
    requires r.Kept? || r.Ambiguous? || r.Unfinished?
    ensures T.Lower(Message(r)) == T.Fill(Around(r), Supplied(r))
  {
    hide T.Lower, T.Fill, KeptMark, AmbiguousMark, IncompleteMark, UnknownMark, Changed, NotResolved, OccludedBy,
         AtClickPoint, Refused, CoveredBy, HitInstead;
    MarksAreLower();
    FillOne(Around(r), Supplied(r));
    match r
    case Kept(rest) => T.LowerConcat(KeptMark(), rest);
    case Ambiguous(rest) => T.LowerConcat(AmbiguousMark(), rest);
    case Unfinished(rest) => T.LowerConcat(IncompleteMark(), rest);
  }

  lemma TwoAreFilled(r: Refusal)
    requires r.Stale? || r.Unresolved? || r.Unknown?
    ensures T.Lower(Message(r)) == T.Fill(Around(r), Supplied(r))
  {
    hide T.Lower, T.Fill, KeptMark, AmbiguousMark, IncompleteMark, UnknownMark, Changed, NotResolved, OccludedBy,
         AtClickPoint, Refused, CoveredBy, HitInstead;
    MarksAreLower();
    RefIsLower();
    StaleSentencesAreLower();
    FillTwo(Around(r), Supplied(r));
    match r
    case Stale(ref, rest) => LowerTwo("Ref ", ref, Changed(), rest);
    case Unresolved(ref, rest) => LowerTwo("Ref ", ref, NotResolved(), rest);
    case Unknown(context, rest) =>
      T.LowerConcat(context, UnknownMark());
      T.LowerConcat(context + UnknownMark(), rest);
  }

  lemma ThreeAreFilled(r: Refusal)
    requires r.OccludedAt? || r.Covered?
    ensures T.Lower(Message(r)) == T.Fill(Around(r), Supplied(r))
  {
    hide T.Lower, T.Fill, KeptMark, AmbiguousMark, IncompleteMark, UnknownMark, Changed, NotResolved, OccludedBy,
         AtClickPoint, Refused, CoveredBy, HitInstead;
    RefIsLower();
    CoverMarksAreLower();
    CoverSentencesAreLower();
    FillThree(Around(r), Supplied(r));
    match r
    case OccludedAt(ref, cover, rest) => LowerThree("Ref ", ref, OccludedBy(), cover, AtClickPoint(), rest);
    case Covered(target, cover, rest) => LowerThree(Refused(), target, CoveredBy(), cover, HitInstead(), rest);
  }

  lemma MessageIsFilled(r: Refusal)
    ensures T.Lower(Message(r)) == T.Fill(Around(r), Supplied(r))
  {
    hide T.Lower, T.Fill, Message, Around, Supplied;
    match r
    case Kept(_) => OneIsFilled(r);
    case Stale(_, _) => TwoAreFilled(r);
    case Unresolved(_, _) => TwoAreFilled(r);
    case Ambiguous(_) => OneIsFilled(r);
    case Unfinished(_) => OneIsFilled(r);
    case Unknown(_, _) => TwoAreFilled(r);
    case OccludedAt(_, _, _) => ThreeAreFilled(r);
    case Covered(_, _, _) => ThreeAreFilled(r);
  }

  predicate IsMark(m: string) {
    m == KeptMark() || m == AmbiguousMark() || m == IncompleteMark() || m == UnknownMark()
  }

  /** How the marks are spelt. */
  predicate MarkSpelling(m: string) {
    && '_' in m && ' ' !in m && '.' !in m && PlainColonAndAc(m)
  }

  predicate PlainColonAndAc(m: string) {
    && (forall k :: 0 <= k < |m| - 1 ==> m[k] != ':')
    && (forall k :: 0 < k < |m| && m[k] == 'a' ==> k + 1 < |m| && m[k + 1] != 'c')
  }

  lemma KeptIsSpelt()
    ensures MarkSpelling(KeptMark())
  {
    assert KeptMark()[4] == '_';
  }

  lemma AmbiguousIsSpelt()
    ensures MarkSpelling(AmbiguousMark())
  {
    assert AmbiguousMark()[8] == '_';
  }

  lemma IncompleteIsSpelt()
    ensures MarkSpelling(IncompleteMark())
  {
    assert IncompleteMark()[10] == '_';
  }

  lemma UnknownIsSpelt()
    ensures MarkSpelling(UnknownMark())
  {
    assert UnknownMark()[6] == '_';
  }

  lemma MarksAreSpelt(m: string)
    requires IsMark(m)
    ensures MarkSpelling(m)
  {
    hide MarkSpelling, KeptMark, AmbiguousMark, IncompleteMark, UnknownMark;
    KeptIsSpelt();
    AmbiguousIsSpelt();
    IncompleteIsSpelt();
    UnknownIsSpelt();
  }

  /** A sentence that stands between blanks and has no underscore. */
  predicate Sentence(s: string) {
    s != "" && '_' !in s && s[|s| - 1] in {' ', '.'}
  }

  lemma MiddlesAreSentences()
    ensures Sentence("ref ") && Sentence(OccludedBy()) && Sentence(CoveredBy()) && Sentence(Refused())
    ensures OccludedBy()[0] == ' ' && CoveredBy()[0] == ' '
  {
  }

  lemma StaleAreSentences()
    ensures Sentence(Changed()) && Sentence(NotResolved()) && Changed()[0] == ' ' && NotResolved()[0] == ' '
  {
  }

  lemma ClickPointIsSentence()
    ensures Sentence(AtClickPoint()) && AtClickPoint()[0] == ' '
  {
  }

  lemma HitIsSentence()
    ensures Sentence(HitInstead()) && HitInstead()[0] == ' '
  {
  }

  /** No mark lies in sentences or across their ends. */
  lemma SentencesAreSealed(fixed: seq<string>, m: string)
    requires MarkSpelling(m) && |fixed| > 1 && fixed[|fixed| - 1] == ""
    requires forall i :: 0 <= i < |fixed| - 1 ==> Sentence(fixed[i])
    requires forall i :: 0 < i < |fixed| - 1 ==> fixed[i] != "" && fixed[i][0] == ' '
    ensures T.Sealed(fixed, m)
  {
    hide T.Contains, T.AvoidsTail, T.AvoidsHead;
    assert forall k :: 0 <= k < |m| ==> m[k] in m;
    forall i | 0 <= i < |fixed|
      ensures !T.Contains(fixed[i], m)
    {
      T.MissingChar(fixed[i], m, '_');
    }
    forall i | 0 <= i < |fixed| - 1
      ensures T.AvoidsTail(m, fixed[i])
    {
      T.TailByLastChar(m, fixed[i]);
    }
    forall i | 0 < i < |fixed| - 1
      ensures T.AvoidsHead(m, fixed[i])
    {
      T.HeadByFirstChar(m, fixed[i]);
    }
  }

  /** No phrase lies in a mark without one of its letters, or begins at its colon. */
  lemma OpeningIsSealed(opening: string, m: string, c: char)
    requires PlainColonAndAc(m) && opening != "" && opening[|opening| - 1] == ':' && c in m && c !in opening
    ensures T.Sealed([opening, ""], m)
  {
    hide T.Contains, T.AvoidsTail, T.AvoidsHead;
    T.MissingChar(opening, m, c);
    T.MissingChar("", m, c);
    T.TailByLastChar(m, opening);
  }

  lemma InnerIsSealed(inner: string, m: string, c: char)
    requires PlainColonAndAc(m) && "ac" <= inner && inner[|inner| - 1] == ':' && c in m && c !in inner
    ensures T.Sealed(["", inner, ""], m)
  {
    hide T.Contains, T.AvoidsTail, T.AvoidsHead;
    T.MissingChar(inner, m, c);
    T.MissingChar("", m, c);
    T.TailByLastChar(m, inner);
    AcAvoided(m);
    T.LongerHead(m, "ac", inner[2..]);
    assert inner == "ac" + inner[2..];
  }

  lemma AcAvoided(m: string)
    requires forall k :: 0 < k < |m| && m[k] == 'a' ==> k + 1 < |m| && m[k + 1] != 'c'
    ensures T.AvoidsHead(m, "ac")
  {
    forall k: nat | 0 < k < |m|
      ensures T.DiffersFrom(m, k, "ac")
    {
      if m[k] == 'a' {
        assert m[k + 1] != "ac"[1];
      } else {
        assert m[k + 0] != "ac"[0];
      }
    }
  }

  lemma KeptLetters()
    ensures 'k' in KeptMark() && 'p' in KeptMark()
  {
    assert KeptMark()[0] == 'k' && KeptMark()[2] == 'p';
  }

  lemma AmbiguousLetters()
    ensures 's' in AmbiguousMark() && 'k' !in AmbiguousMark() && AmbiguousMark() != ""
    ensures AmbiguousMark()[0] == 's' && AmbiguousMark()[|AmbiguousMark()| - 1] == ':'
  {
    assert AmbiguousMark()[0] == 's';
  }

  lemma IncompleteLetters()
    ensures 'v' in IncompleteMark() && 'k' !in IncompleteMark() && 's' !in IncompleteMark() && ' ' !in IncompleteMark()
    ensures IncompleteMark() != "" && IncompleteMark()[0] == 'n' && IncompleteMark()[|IncompleteMark()| - 1] == ':'
  {
    assert IncompleteMark()[2] == 'v';
  }

  lemma UnknownLetters()
    ensures 'p' !in UnknownMark() && 's' !in UnknownMark() && 'v' !in UnknownMark() && ' ' !in UnknownMark()
    ensures "ac" <= UnknownMark() && UnknownMark()[|UnknownMark()| - 1] == ':'
  {
  }

  lemma AroundIsSealed(r: Refusal, mark: string)
    requires mark in MarksBefore(r)
    ensures T.Sealed(Around(r), mark)
  {
    hide T.Sealed, MarkSpelling, Sentence, PlainColonAndAc, KeptMark, AmbiguousMark, IncompleteMark, UnknownMark,
         Changed, NotResolved, OccludedBy, AtClickPoint, Refused, CoveredBy, HitInstead;
    MarksAreSpelt(mark);
    if r.Ambiguous? || r.Unfinished? || r.Unknown? {
      MarkIsSealed(r, mark);
    } else {
      MiddlesAreSentences();
      StaleAreSentences();
      ClickPointIsSentence();
      HitIsSentence();
      NoEmptySentence(Around(r)[1]);
      NoEmptySentence(Around(r)[2]);
      SentencesAreSealed(Around(r), mark);
    }
  }

  lemma NoEmptySentence(s: string)
    ensures Sentence(s) ==> s != ""
  {
  }

  lemma MarkIsSealed(r: Refusal, mark: string)
    requires (r.Ambiguous? || r.Unfinished? || r.Unknown?) && mark in MarksBefore(r)
    ensures T.Sealed(Around(r), mark)
  {
    hide T.Sealed, PlainColonAndAc, KeptMark, AmbiguousMark, IncompleteMark, UnknownMark;
    MarksAreSpelt(mark);
    KeptLetters();
    AmbiguousLetters();
    IncompleteLetters();
    UnknownLetters();
    if r.Unknown? {
      var letter := if mark == KeptMark() then 'p' else if mark == AmbiguousMark() then 's' else 'v';
      InnerIsSealed(UnknownMark(), mark, letter);
    } else if r.Ambiguous? {
      OpeningIsSealed(AmbiguousMark(), mark, 'k');
    } else {
      OpeningIsSealed(IncompleteMark(), mark, if mark == KeptMark() then 'k' else 's');
    }
  }

  /** An earlier mark is in the message exactly if a supplied text says it. */
  lemma MarkIsSupplied(r: Refusal, mark: string)
    requires mark in MarksBefore(r)
    ensures T.Contains(T.Lower(Message(r)), mark) <==> Says(r, mark)
  {
    hide T.Contains, T.Lower, T.Fill, T.Sealed, T.AnyContains, Message, Around, MarksBefore, Supplied;
    MessageIsFilled(r);
    AroundIsSealed(r, mark);
    T.FillContains(Around(r), Supplied(r), mark);
  }

  // ---- a stale sentence lies in a supplied text ----

  predicate IsStaleSentence(s: string) { s == Changed() || s == NotResolved() }

  predicate NoIs(s: string) {
    forall k :: 0 < k < |s| && s[k] == 'i' ==> k + 1 < |s| && s[k + 1] != 's'
  }

  predicate NoAt(s: string) {
    forall k :: 0 < k < |s| && s[k] == 'a' ==> k + 1 < |s| && (s[k + 1] != 't' || (k + 2 < |s| && s[k + 2] != ' '))
  }

  predicate NoTeBefore(s: string, k: nat)
    requires k <= |s|
  {
    k > 0 && (s[k - 1] != 'e' || (k > 1 && s[k - 2] != 't'))
  }

  predicate NoTer(s: string) {
    forall k :: 0 <= k < |s| - 1 && s[k] == 'r' ==> NoTeBefore(s, k)
  }

  /** How the stale sentences are spelt. */
  predicate StaleSpelling(s: string) {
    ' ' in s && 'm' in s && 'f' !in s && 'y' !in s && PlainColonAndAc(s) && NoIs(s) && NoAt(s) && NoTer(s)
  }

  lemma ChangedLetters()
    ensures ' ' in Changed() && 'm' in Changed() && 'f' !in Changed() && 'y' !in Changed()
  {
    assert Changed()[0] == ' ' && Changed()[11] == 'm';
  }

  lemma ChangedColonAndAc()
    ensures PlainColonAndAc(Changed())
  {
  }

  lemma ChangedIs()
    ensures NoIs(Changed())
  {
  }

  lemma ChangedAt()
    ensures NoAt(Changed())
  {
  }

  lemma ChangedTer()
    ensures NoTer(Changed())
  {
  }

  lemma ChangedIsSpelt()
    ensures StaleSpelling(Changed())
  {
    hide Changed, PlainColonAndAc, NoIs, NoAt, NoTer;
    ChangedLetters();
    ChangedColonAndAc();
    ChangedIs();
    ChangedAt();
    ChangedTer();
  }

  lemma NotResolvedLetters()
    ensures ' ' in NotResolved() && 'm' in NotResolved()
  {
    assert NotResolved()[0] == ' ' && NotResolved()[|NotResolved()| - 4] == 'm';
  }

  lemma NotResolvedLacks()
    ensures 'f' !in NotResolved() && 'y' !in NotResolved()
  {
  }

  lemma NotResolvedA()
    ensures ':' !in NotResolved() && |NotResolved()| > 43 && NotResolved()[43] == 'm'
    ensures forall k :: 0 <= k < |NotResolved()| && NotResolved()[k] == 'a' ==> k == 42
  {
    var first, second := " could not be resolved", " to the element it named ";
    assert 'a' !in first && |first| == 22 && second[21] == 'm';
    assert forall k :: 0 <= k < |first| ==> first[k] in first;
    assert forall k :: 0 <= k < |second| && second[k] == 'a' ==> k == 20;
    assert forall k :: 0 <= k < |first| + |second| && (first + second)[k] == 'a' ==> k == 42;
  }

  lemma NotResolvedColonAndAc()
    ensures PlainColonAndAc(NotResolved()) && NoAt(NotResolved())
  {
    hide NotResolved;
    NotResolvedA();
    assert forall k :: 0 <= k < |NotResolved()| ==> NotResolved()[k] in NotResolved();
  }

  lemma NotResolvedIs()
    ensures NoIs(NotResolved())
  {
  }

  lemma NotResolvedTer()
    ensures NoTer(NotResolved())
  {
    var first, second := " could not be resolved", " to the element it named ";
    assert first[13] == ' ' && 'r' !in second;
    assert forall k :: 0 <= k < |first| && first[k] == 'r' ==> k == 14;
    assert forall k :: 0 <= k < |second| ==> second[k] in second;
    assert forall k :: 0 <= k < |first| + |second| && (first + second)[k] == 'r' ==> k == 14;
  }

  lemma NotResolvedIsSpelt()
    ensures StaleSpelling(NotResolved())
  {
    hide NotResolved, PlainColonAndAc, NoIs, NoAt, NoTer;
    NotResolvedLetters();
    NotResolvedLacks();
    NotResolvedColonAndAc();
    NotResolvedIs();
    NotResolvedTer();
  }

  lemma StaleAreSpelt(s: string)
    requires IsStaleSentence(s)
    ensures StaleSpelling(s)
  {
    hide StaleSpelling, Changed, NotResolved;
    ChangedIsSpelt();
    NotResolvedIsSpelt();
  }

  lemma UnknownHoldsNoStale(r: Refusal, s: string)
    requires r.Unknown? && IsStaleSentence(s)
    ensures T.Contains(T.Lower(Message(r)), s) <==> Says(r, s)
  {
    hide T.Contains, T.Lower, T.Fill, T.Sealed, T.AnyContains, Message, Supplied, IsStaleSentence, PlainColonAndAc,
         UnknownMark;
    MessageIsFilled(r);
    StaleAreSpelt(s);
    UnknownLetters();
    InnerIsSealed(UnknownMark(), s, ' ');
    T.FillContains(Around(r), Supplied(r), s);
  }

  /** The words of an occluded refusal, without the blanks around them. */
  function OccludedWords(): seq<string> { ["ref", IsOccluded(), StillOccluded(), ""] }

  lemma WordsLackM()
    ensures 'm' !in "ref" && 'm' !in IsOccluded() && 'm' !in StillOccluded()
  {
  }

  lemma IsOccludedEnds()
    ensures IsOccluded() != "" && IsOccluded()[|IsOccluded()| - 1] == 'y' && "is" <= IsOccluded()
  {
  }

  lemma StillOccludedBegins()
    ensures "at " <= StillOccluded()
  {
    assert "at " <= "at the click point";
  }

  lemma StillOccludedEnds()
    ensures exists before :: StillOccluded() == before + "ter"
  {
    assert " (still occluded after" == " (still occluded af" + "ter";
    assert StillOccluded() == ("at the click point" + " (still occluded af") + "ter";
  }

  lemma WordTails(s: string)
    requires StaleSpelling(s)
    ensures T.AvoidsTail(s, "ref") && T.AvoidsTail(s, IsOccluded()) && T.AvoidsTail(s, StillOccluded())
  {
    hide T.AvoidsTail, IsOccluded, StillOccluded;
    IsOccludedEnds();
    StillOccludedEnds();
    assert forall k :: 0 <= k < |s| ==> s[k] in s;
    T.TailByLastChar(s, "ref");
    T.TailByLastChar(s, IsOccluded());
    TerAvoided(s);
    var before :| StillOccluded() == before + "ter";
    T.LongerTail(s, before, "ter");
  }

  lemma TerAvoided(s: string)
    requires StaleSpelling(s)
    ensures T.AvoidsTail(s, "ter")
  {
    var tail := "ter";
    forall k: nat | 0 < k < |s|
      ensures T.DiffersBefore(s, k, tail)
    {
      if s[k - 1] != 'r' {
        assert tail[2] != s[k - 3 + 2];
      } else {
        RComesAfter(s, k);
        if s[k - 2] != 'e' {
          assert tail[1] != s[k - 3 + 1];
        } else {
          assert tail[0] != s[k - 3 + 0];
        }
      }
    }
  }

  lemma RComesAfter(s: string, k: nat)
    requires NoTer(s) && 0 < k < |s| && s[k - 1] == 'r'
    ensures k > 1 && (s[k - 2] != 'e' || (k > 2 && s[k - 3] != 't'))
  {
    assert NoTeBefore(s, k - 1);
  }

  lemma WordHeads(s: string)
    requires StaleSpelling(s)
    ensures T.AvoidsHead(s, IsOccluded()) && T.AvoidsHead(s, StillOccluded())
  {
    hide T.AvoidsHead, IsOccluded, StillOccluded;
    IsOccludedEnds();
    StillOccludedBegins();
    IsAvoided(s);
    AtAvoided(s);
    T.LongerHead(s, "is", IsOccluded()[2..]);
    assert IsOccluded() == "is" + IsOccluded()[2..];
    T.LongerHead(s, "at ", StillOccluded()[3..]);
    assert StillOccluded() == "at " + StillOccluded()[3..];
  }

  lemma IsAvoided(s: string)
    requires StaleSpelling(s)
    ensures T.AvoidsHead(s, "is")
  {
    forall k: nat | 0 < k < |s|
      ensures T.DiffersFrom(s, k, "is")
    {
      if s[k] != 'i' {
        assert s[k + 0] != "is"[0];
      } else {
        assert s[k + 1] != "is"[1];
      }
    }
  }

  lemma AtAvoided(s: string)
    requires StaleSpelling(s)
    ensures T.AvoidsHead(s, "at ")
  {
    forall k: nat | 0 < k < |s|
      ensures T.DiffersFrom(s, k, "at ")
    {
      if s[k] != 'a' {
        assert s[k + 0] != "at "[0];
      } else if s[k + 1] != 't' {
        assert s[k + 1] != "at "[1];
      } else {
        AtGoesOn(s, k);
        assert s[k + 2] != "at "[2];
      }
    }
  }

  lemma AtGoesOn(s: string, k: nat)
    requires NoAt(s) && 0 < k && k + 1 < |s| && s[k] == 'a' && s[k + 1] == 't'
    ensures k + 2 < |s| && s[k + 2] != ' '
  {
  }

  lemma OccludedWordsAreSealed(s: string)
    requires IsStaleSentence(s)
    ensures T.Sealed(OccludedWords(), s)
  {
    hide T.Contains, T.AvoidsTail, T.AvoidsHead, IsStaleSentence, IsOccluded, StillOccluded;
    StaleAreSpelt(s);
    WordsLackM();
    T.MissingChar("ref", s, 'm');
    T.MissingChar(IsOccluded(), s, 'm');
    T.MissingChar(StillOccluded(), s, 'm');
    T.MissingChar("", s, 'm');
    WordTails(s);
    WordHeads(s);
  }

  lemma BlanksRegroup(a: string, x: string, b: string, y: string, c: string, z: string)
    ensures a + (" " + x + " ") + b + (" " + y + " ") + c + (" " + z) + ""
         == (a + " ") + x + (" " + b + " ") + y + (" " + c + " ") + z + ""
  {
  }

  lemma BlanksMove(r: Refusal)
    requires r.OccludedAt?
    ensures T.Fill(OccludedWords(), Blanked(r)) == T.Fill(Around(r), Supplied(r))
  {
    hide T.Fill, T.Lower, IsOccluded, StillOccluded;
    FillThree(OccludedWords(), Blanked(r));
    FillThree(Around(r), Supplied(r));
    assert "ref " == "ref" + " ";
    BlanksRegroup("ref", T.Lower(r.ref), IsOccluded(), T.Lower(r.cover), StillOccluded(), T.Lower(r.rest));
  }

  lemma OccludedHoldsNoStale(r: Refusal, s: string)
    requires r.OccludedAt? && IsStaleSentence(s)
    ensures T.Contains(T.Lower(Message(r)), s) <==> T.AnyContains(Blanked(r), s)
  {
    hide T.Contains, T.Lower, T.Fill, T.Sealed, T.AnyContains, Message, Supplied, Around, IsStaleSentence,
         IsOccluded, StillOccluded;
    MessageIsFilled(r);
    BlanksMove(r);
    OccludedWordsAreSealed(s);
    T.FillContains(OccludedWords(), Blanked(r), s);
  }

  // ---- how the messages begin ----

  lemma FirstFixed(fixed: seq<string>, free: seq<string>)
    requires |fixed| == |free| + 1
    ensures fixed[0] <= T.Fill(fixed, free)
  {
  }

  /** A prefix without the letter that comes next ends before it. */
  lemma PrefixStays(p: string, c: string, u: string)
    requires u != "" && u[0] !in p
    ensures p <= c + u <==> p <= c
  {
    if p <= c + u {
      assert forall j :: 0 <= j < |p| ==> (c + u)[j] == p[j] && p[j] in p;
      assert (c + u)[|c|] == u[0];
      assert |p| <= |c|;
      assert p == (c + u)[..|p|] == c[..|p|];
    }
    if p <= c {
      assert (c + u)[..|p|] == c[..|p|];
    }
  }

  lemma PrefixesLackA()
    ensures 'a' !in "ref " && 'a' !in CoverMark()
  {
  }

  lemma UnknownBegins(r: Refusal)
    requires r.Unknown?
    ensures CoverSelection(T.Lower(Message(r))) <==> CoverMark() <= T.Lower(r.context)
    ensures "ref " <= T.Lower(Message(r)) <==> "ref " <= T.Lower(r.context)
  {
    hide T.Lower, T.Fill, Message, UnknownMark, CoverMark;
    MessageIsFilled(r);
    FillTwo(Around(r), Supplied(r));
    UnknownLetters();
    PrefixesLackA();
    var u := UnknownMark() + T.Lower(r.rest);
    assert T.Lower(Message(r)) == T.Lower(r.context) + u;
    PrefixStays("ref ", T.Lower(r.context), u);
    PrefixStays(CoverMark(), T.Lower(r.context), u);
  }

  /**
   * All other refusals begin as they are written, which is neither as a cover selection nor, but for three, as a
   * ref.
   */
  lemma OthersBegin(r: Refusal)
    requires !r.Unknown? && !r.Kept?
    ensures !CoverSelection(T.Lower(Message(r)))
    ensures "ref " <= T.Lower(Message(r)) <==> r.Stale? || r.Unresolved? || r.OccludedAt?
  {
    hide T.Lower, T.Fill, Message, AmbiguousMark, IncompleteMark;
    MessageIsFilled(r);
    FirstFixed(Around(r), Supplied(r));
    AmbiguousLetters();
    IncompleteLetters();
    var l := T.Lower(Message(r));
    assert l[0] == Around(r)[0][0] && l[1] == Around(r)[0][1];
    assert CoverMark()[0] == 'c' && CoverMark()[1] == 'o';
  }

  // ---- which refusals keep their code ----

  /** A rule that comes before the refusal's own holds of the message. */
  predicate EarlierRule(r: Refusal, l: string) {
    match r
    case Kept(_) => false
    case Stale(_, _) => KeptRef(l)
    case Unresolved(_, _) => KeptRef(l)
    case Ambiguous(_) => KeptRef(l) || StaleRef(l)
    case Unfinished(_) => KeptRef(l) || StaleRef(l) || AmbiguousSelector(l)
    case Unknown(_, _) => KeptRef(l) || StaleRef(l) || AmbiguousSelector(l) || UnfinishedOpen(l) || CoverSelection(l)
    case _ =>
      KeptRef(l) || StaleRef(l) || AmbiguousSelector(l) || UnfinishedOpen(l) || CoverSelection(l) || UnknownOutcome(l)
  }

  lemma MarksAreSupplied(r: Refusal)
    ensures forall mark | mark in MarksBefore(r) :: T.Contains(T.Lower(Message(r)), mark) <==> Says(r, mark)
  {
    hide T.Contains, T.Lower, Message, Says, MarksBefore;
    forall mark | mark in MarksBefore(r)
      ensures T.Contains(T.Lower(Message(r)), mark) <==> Says(r, mark)
    {
      MarkIsSupplied(r, mark);
    }
  }

  lemma KeepsUnlessEarlier(r: Refusal)
    ensures KeepsCode(r) <==> !EarlierRule(r, T.Lower(Message(r)))
  {
    hide T.Contains, T.Lower, T.AnyContains, Message, Supplied, Blanked, KeptMark, AmbiguousMark, IncompleteMark,
         UnknownMark, Changed, NotResolved, CoverMark;
    MarksAreSupplied(r);
    if r.Unknown? {
      UnknownBegins(r);
      UnknownHoldsNoStale(r, Changed());
      UnknownHoldsNoStale(r, NotResolved());
    } else if !r.Kept? {
      OthersBegin(r);
      if r.OccludedAt? {
        OccludedHoldsNoStale(r, Changed());
        OccludedHoldsNoStale(r, NotResolved());
      }
    }
  }

  lemma CommitSpelling()
    ensures PlainColonAndAc(CommitUnknown()) && ' ' in CommitUnknown()
  {
    assert CommitUnknown()[7] == ' ';
  }

  lemma CommitIsSupplied(r: Refusal)
    requires r.Unfinished?
    ensures T.Contains(T.Lower(Message(r)), CommitUnknown()) <==> T.Contains(T.Lower(r.rest), CommitUnknown())
  {
    hide T.Contains, T.Lower, T.Fill, T.Sealed, Message, IncompleteMark, CommitUnknown, PlainColonAndAc;
    MessageIsFilled(r);
    IncompleteLetters();
    CommitSpelling();
    OpeningIsSealed(IncompleteMark(), CommitUnknown(), ' ');
    T.FillContains(Around(r), Supplied(r), CommitUnknown());
  }

  lemma CodesByRule(r: Refusal, l: string)
    requires OwnRule(r, l)
    requires r.Unfinished? ==> (T.Contains(l, CommitUnknown()) <==> T.Contains(T.Lower(r.rest), CommitUnknown()))
    ensures !ClassifyLower(l).retryable
    ensures ClassifyLower(l).code == OwnCode(r) <==> !EarlierRule(r, l)
  {
    hide KeptRef, StaleRef, AmbiguousSelector, UnfinishedOpen, CoverSelection, UnknownOutcome, Occluded, FirstTab,
         T.Contains, T.Lower, CommitUnknown;
  }

  /**
   * Whatever the page, the caller or a quoted cause says: none of these refusals is ever retryable, and each keeps
   * its own code exactly when the supplied texts say nothing that an earlier rule looks for.
   */
  lemma QuotedTextDoesNotInterfere(r: Refusal)
    ensures !ClassifyError(Message(r)).retryable
    ensures ClassifyError(Message(r)).code == OwnCode(r) <==> KeepsCode(r)
  {
    hide T.Contains, T.Lower, Message, OwnRule, EarlierRule, OwnCode, KeepsCode, ClassifyLower, CommitUnknown;
    OwnRuleHolds(r);
    if r.Unfinished? {
      CommitIsSupplied(r);
    }
    CodesByRule(r, T.Lower(Message(r)));
    KeepsUnlessEarlier(r);
  }

  // ---- adding the metadata to an error value ----

  /** A failed answer with an error text. */
  predicate IsFailure(v: Json) {
    && v.Object? && "success" in v.fields && v.fields["success"] == Bool(false)
    && "error" in v.fields && v.fields["error"].Text?
  }

  function Added(fields: map<string, Json>, key: string, value: Json): map<string, Json> {
    if key in fields then fields else fields[key := value]
  }

  function Enriched(v: Json): Json {
    if !IsFailure(v) then v
    else
      var metadata := ClassifyError(v.fields["error"].s);
      Object(Added(Added(v.fields, "code", Text(metadata.code)), "retryable", Bool(metadata.retryable)))
  }

  class ErrorValue {
    var value: Json

    method Enrich()
      modifies this
      ensures value == Enriched(old(value))
    {
      if !value.Object? || "success" !in value.fields || value.fields["success"] != Bool(false) {
        return;
      }
      if "error" !in value.fields || !value.fields["error"].Text? {
        return;
      }
      var metadata := ClassifyError(value.fields["error"].s);
      if "code" !in value.fields {
        value := Object(value.fields["code" := Text(metadata.code)]);
      }
      if "retryable" !in value.fields {
        value := Object(value.fields["retryable" := Bool(metadata.retryable)]);
      }
    }
  }

  /**
   * Enriching keeps every field, adds at most the two, adds them to every failure, and a second time changes
   * nothing.
   */
  lemma EnrichingIsConservative(v: Json)
    ensures Enriched(Enriched(v)) == Enriched(v)
    ensures v.Object? ==> Enriched(v).Object? && v.fields.Keys <= Enriched(v).fields.Keys
    ensures v.Object? ==> forall key | key in v.fields :: Enriched(v).fields[key] == v.fields[key]
    ensures v.Object? ==> Enriched(v).fields.Keys <= v.fields.Keys + {"code", "retryable"}
    ensures IsFailure(v) <==> IsFailure(Enriched(v))
    ensures IsFailure(v) ==> "code" in Enriched(v).fields && "retryable" in Enriched(v).fields
  {
    hide ClassifyError;
  }

  /**
   What enriching puts in: into a failure with an error text, and into nothing else, the code and the
   flag of that text, each where there was none.
   */
  lemma EnrichingFills(v: Json)
    ensures var failed := v.Object? && "success" in v.fields && v.fields["success"] == Bool(false)
                          && "error" in v.fields && v.fields["error"].Text?;
      && (!failed ==> Enriched(v) == v)
      && (failed ==>
            var r, m := Enriched(v), ClassifyError(v.fields["error"].s);
            && r.Object? && "code" in r.fields && "retryable" in r.fields
            && ("code" !in v.fields ==> r.fields["code"] == Text(m.code))
            && ("retryable" !in v.fields ==> r.fields["retryable"] == Bool(m.retryable)))
  {
    hide ClassifyError;
  }
}
