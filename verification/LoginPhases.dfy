/** Signing in through child processes, with a one-time code in a second phase (cli/src/bwu_login.rs). */
module LoginPhases {
  import opened Common
  import opened Text
  import opened LoginValues

  /** What the child's response says, as far as the parent reads it. */
  datatype Data = Data(
    otp: Option<string>, needs: Option<string>, next: Option<string>, confirmationRequired: bool,
    confirmationId: Option<string>, site: Option<string>, signedIn: bool, alreadySignedIn: bool,
    filled: Option<seq<string>>, warning: Option<string>)

  datatype Response = Response(success: bool, error: Option<string>, data: Option<Data>)

  datatype Manager = Bitwarden | OnePassword

  function Flag(m: Manager): string {
    match m
    case Bitwarden => "--bwu"
    case OnePassword => "--1password"
  }

  /** The chosen account: its manager, the page's host, the item's name and the values to read. */
  datatype Account = Account(manager: Manager, host: string, name: string, values: Values)

  /** A child that was started: the values it was handed, and whether it types a code only. */
  datatype Child = Child(envs: seq<Env>, totp: bool)

  type Answer = Result<Response, string>

  /** How every error of the second phase begins. */
  function Stopped(error: string): string {
    "TOTP" + " verification stopped" + ("; inspect the current page before trying again: " + error)
  }

  // ---- the two phases ----

  /** The first phase ended at an observed code challenge that the second one may answer. */
  predicate Continues(p: Account, first: Answer) {
    && p.values.deferOtp && first.Ok? && first.value.success && first.value.data.Some?
    && first.value.data.value.otp == Some("deferred") && first.value.data.value.needs == Some("a verification code")
  }

  function OrElse(o: Option<string>, default: string): string {
    if o.Some? then o.value else default
  }

  function MergeData(before: Data, after: Data): Data {
    after.(
      filled := if before.filled.Some? && after.filled.Some? then Some(before.filled.value + after.filled.value)
                else after.filled,
      warning := if before.warning.None? then after.warning
                 else Some(before.warning.value + (if after.warning.Some? then ". " + after.warning.value else "")))
  }

  /** The answer of the second phase, told together with the first. */
  function Merge(first: Response, second: Answer): Answer {
    if second.Err? then Err(Stopped(second.error))
    else
      var next := if second.value.success then second.value
                  else second.value.(error := Some(Stopped(OrElse(second.value.error, "no result"))));
      Ok(if first.data.Some? && next.data.Some? then next.(data := Some(MergeData(first.data.value, next.data.value)))
         else next)
  }

  /** What the phases answer when the children from the n-th on answer as given. */
  function Phases(p: Account, answer: nat -> Answer, n: nat): Answer {
    if Continues(p, answer(n)) then Merge(answer(n).value, answer(n + 1)) else answer(n)
  }

  function Started(p: Account, answer: nat -> Answer, n: nat): seq<Child> {
    [Child(p.values.envs, false)] + (if Continues(p, answer(n)) then [Child([OneTimeCode], true)] else [])
  }

  // ---- what a login's answer means ----

  // The fixed sentence, in parts.
  function AskTheUser(): string { ". Ask the user" }
  function ToApprove(): string { " to approve" }
  function InTheChrome(): string { " in the chrome" }
  function UsePanel(): string { "-use side panel" }
  function ThenConfirm(): string { ", then run confirm" }
  function InSession(): string { " in the same session" }
  function DoNotReport(): string { "; do not report" }
  function ALogin(): string { " a completed login." }

  function Ask(): string {
    AskTheUser() + ToApprove() + InTheChrome() + UsePanel() + ThenConfirm() + InSession() + DoNotReport() + ALogin()
  }

  function LoginAw(): string { "login aw" }
  function AitsConfirmation(): string { "aits confirmation " }

  function Awaits(id: string, site: string): string {
    LoginAw() + AitsConfirmation() + id + " for " + site + Ask()
  }

  function Needs(needs: string, next: string): string {
    "login needs " + needs + ". " + next
  }

  function NotConfirmed(m: Manager): string {
    "auth login " + Flag(m) + " did not confirm a sign-in"
  }

  function CompleteIt(): string { "Complete verification" }
  function OnThePage(): string { " on the current page." }
  function Complete(): string { CompleteIt() + OnThePage() }

  function Judge(p: Account, r: Answer): Result<(), string> {
    match r
    case Err(e) => Err(e)
    case Ok(response) =>
      if !response.success then Err(OrElse(response.error, "auth login " + Flag(p.manager) + " failed"))
      else
        match response.data
        case None => Err(NotConfirmed(p.manager))
        case Some(d) =>
          if d.confirmationRequired then Err(Awaits(OrElse(d.confirmationId, ""), OrElse(d.site, p.host)))
          else if d.needs.Some? then Err(Needs(d.needs.value, OrElse(d.next, Complete())))
          else if d.signedIn || d.alreadySignedIn then Ok(())
          else Err(NotConfirmed(p.manager))
  }

  const STOPPED_PHRASE := "totp verification stopped"
  const CODE_PHRASE := "one-time code"
  const UNKNOWN_PHRASE := "action_outcome_unknown"
  const UNCONFIRMED_PHRASE := "the sign-in was not confirmed"
  const PAGE_PHRASE := "the page says"

  predicate Retry(error: string) {
    var e := Lower(error);
    && !Contains(e, STOPPED_PHRASE) && !Contains(e, CODE_PHRASE)
    && (Contains(e, UNKNOWN_PHRASE) || (Contains(e, UNCONFIRMED_PHRASE) && !Contains(e, PAGE_PHRASE)))
  }

  /** The first login is worth one more try. */
  predicate TriesAgain(p: Account, answer: nat -> Answer, n: nat, loginPage: bool) {
    var r := Judge(p, Phases(p, answer, n));
    r.Err? && Retry(r.error) && loginPage
  }

  // ---- what a login comes to, try by try ----

  /** The first phase stopped at a code challenge, with the code left to a second one. */
  ghost predicate Deferred(p: Account, a: Answer) {
    && p.values.deferOtp && a.Ok? && a.value.success && a.value.data.Some?
    && a.value.data.value.otp == Some("deferred") && a.value.data.value.needs == Some("a verification code")
  }

  /** Two reports in one: everything from the later, the filled fields of both, and the warnings of both. */
  ghost predicate Told(before: Data, after: Data, d: Data) {
    && d.(filled := after.filled, warning := after.warning) == after
    && d.filled == (match (before.filled, after.filled)
                    case (Some(a), Some(b)) => Some(a + b)
                    case _ => after.filled)
    && d.warning == (match (before.warning, after.warning)
                     case (Some(a), Some(b)) => Some(a + ". " + b)
                     case (Some(a), None) => Some(a)
                     case _ => after.warning)
  }

  /** The answer of a second phase: its errors say where they come from, its report is told with the first. */
  ghost predicate Joined(first: Response, second: Answer, r: Answer) {
    var stopped := "TOTP verification stopped" + "; inspect the current page before trying again: ";
    match second
    case Err(e) => r == Err(stopped + e)
    case Ok(next) =>
      && r.Ok? && r.value.success == next.success
      && r.value.error == (if next.success then next.error
                           else Some(stopped + (if next.error.Some? then next.error.value else "no result")))
      && (first.data.None? || next.data.None? ==> r.value.data == next.data)
      && (first.data.Some? && next.data.Some? ==>
            r.value.data.Some? && Told(first.data.value, next.data.value, r.value.data.value))
  }

  /** One try from the n-th child on: one child with all values, and at a code challenge one more with the code. */
  ghost predicate OneTry(p: Account, answer: nat -> Answer, n: nat, r: Answer, started: seq<Child>) {
    if Deferred(p, answer(n)) then
      && started == [Child(p.values.envs, false), Child([OneTimeCode], true)]
      && Joined(answer(n).value, answer(n + 1), r)
    else started == [Child(p.values.envs, false)] && r == answer(n)
  }

  lemma StoppedIs(error: string)
    ensures Stopped(error)
         == "TOTP verification stopped" + "; inspect the current page before trying again: " + error
  {
    var head, middle := "TOTP" + " verification stopped", "; inspect the current page before trying again: ";
    assert head == "TOTP verification stopped";
    Regroup(head, middle, error);
  }

  lemma DataTold(before: Data, after: Data)
    ensures Told(before, after, MergeData(before, after))
  {
    if before.warning.Some? && after.warning.Some? {
      Regroup(before.warning.value, ". ", after.warning.value);
    } else if before.warning.Some? {
      assert before.warning.value + "" == before.warning.value;
    }
  }

  lemma MergeTells(first: Response, second: Answer)
    ensures Joined(first, second, Merge(first, second))
  {
    hide Stopped, Told, MergeData;
    match second
    case Err(e) => StoppedIs(e);
    case Ok(next) =>
      StoppedIs(OrElse(next.error, "no result"));
      if first.data.Some? && next.data.Some? {
        DataTold(first.data.value, next.data.value);
      }
  }

  lemma PhasesTell(p: Account, answer: nat -> Answer, n: nat)
    ensures OneTry(p, answer, n, Phases(p, answer, n), Started(p, answer, n))
  {
    hide Merge, Joined;
    if Deferred(p, answer(n)) {
      MergeTells(answer(n).value, answer(n + 1));
    }
  }

  /** A sign-in is confirmed only by a successful answer that awaits and needs nothing and says so. */
  ghost predicate SignedIn(r: Answer) {
    && r.Ok? && r.value.success && r.value.data.Some?
    && !r.value.data.value.confirmationRequired && r.value.data.value.needs.None?
    && (r.value.data.value.signedIn || r.value.data.value.alreadySignedIn)
  }

  /** What an answer means that confirms no sign-in. */
  ghost function Complaint(p: Account, r: Answer): string
    requires !SignedIn(r)
  {
    var flag := if p.manager.Bitwarden? then "--bwu" else "--1password";
    if r.Err? then r.error
    else if !r.value.success then
      if r.value.error.Some? then r.value.error.value else "auth login " + flag + " failed"
    else if r.value.data.Some? && r.value.data.value.confirmationRequired then
      var d := r.value.data.value;
      "login aw" + "aits confirmation " + (if d.confirmationId.Some? then d.confirmationId.value else "") + " for "
      + (if d.site.Some? then d.site.value else p.host) + Ask()
    else if r.value.data.Some? && r.value.data.value.needs.Some? then
      var d := r.value.data.value;
      "login needs " + d.needs.value + ". "
      + (if d.next.Some? then d.next.value else "Complete verification" + " on the current page.")
    else "auth login " + flag + " did not confirm a sign-in"
  }

  lemma JudgeTells(p: Account, r: Answer)
    ensures Judge(p, r).Ok? <==> SignedIn(r)
    ensures !SignedIn(r) ==> Judge(p, r) == Err(Complaint(p, r))
  {
    hide Ask;
  }

  /** An outcome that is not known, and neither a code phase nor a code nor a page's own word stands against a retry. */
  ghost predicate IsWorthRetrying(error: string) {
    var e := Lower(error);
    && !Contains(e, "totp verification stopped") && !Contains(e, "one-time code")
    && (|| Contains(e, "action_outcome_unknown")
        || (Contains(e, "the sign-in was not confirmed") && !Contains(e, "the page says")))
  }

  lemma RetryIff(error: string)
    ensures Retry(error) <==> IsWorthRetrying(error)
  {
    hide Contains, Lower;
  }

  /** How a login went: its last answer, and the children it started. */
  ghost predicate Went(p: Account, answer: nat -> Answer, n: nat, loginPage: bool, retried: bool, r: Answer,
                       started: seq<Child>)
  {
    exists first, c :: OneTry(p, answer, n, first, c)
      && (retried <==> !SignedIn(first) && IsWorthRetrying(Complaint(p, first)) && loginPage)
      && (!retried ==> r == first && started == c)
      && (retried ==> exists d :: OneTry(p, answer, n + |c|, r, d) && started == c + d)
  }

  lemma LoginWent(p: Account, answer: nat -> Answer, n: nat, loginPage: bool)
    ensures Went(p, answer, n, loginPage, TriesAgain(p, answer, n, loginPage),
                 Phases(p, answer, LastTry(p, answer, n, loginPage)), AllStarted(p, answer, n, loginPage))
  {
    hide Phases, Started, OneTry, Judge, Retry, IsWorthRetrying, Complaint, SignedIn;
    var first, c := Phases(p, answer, n), Started(p, answer, n);
    PhasesTell(p, answer, n);
    JudgeTells(p, first);
    if !SignedIn(first) {
      RetryIff(Complaint(p, first));
    }
    PhasesTell(p, answer, n + |c|);
    assert c + [] == c;
  }

  // ---- the parent ----

  /** How going back to the page that asked for the login ended: at which address, or with what error. */
  datatype Arrival = Arrived(url: string) | NotReturned(error: Option<string>)

  /** What the navigation answers: the address it reports, if it reports one. */
  datatype Navigation = Loaded(url: Option<string>) | Failed(error: Option<string>)

  datatype Outcome = Outcome(ok: bool, item: Option<string>, error: Option<string>, retried: bool,
                             returned: Option<Arrival>)

  /** A report without the address of the page counts as having arrived where it was sent. */
  function ArrivalAt(back: string, n: Navigation): Arrival {
    if n.Failed? then NotReturned(n.error) else Arrived(OrElse(n.url, back))
  }

  class Parent {
    /** How the k-th child that is started will answer. */
    const answer: nat -> Answer
    var children: seq<Child>
    /** The pages the parent itself went to. */
    var visited: seq<string>

    constructor (answer: nat -> Answer)
      ensures this.answer == answer && children == [] && visited == []
    {
      this.answer := answer;
      children, visited := [], [];
    }

    method LoginResponse(envs: seq<Env>, totp: bool) returns (r: Answer)
      modifies this`children
      ensures children == old(children) + [Child(envs, totp)] && r == answer(|old(children)|)
    {
      children := children + [Child(envs, totp)];
      r := answer(|children| - 1);
    }

    method RunLoginPhases(p: Account) returns (r: Answer)
      modifies this`children
      ensures r == Phases(p, answer, |old(children)|)
      ensures children == old(children) + Started(p, answer, |old(children)|)
    {
      var first := LoginResponse(p.values.envs, false);
      if !Continues(p, first) {
        return first;
      }
      var second := LoginResponse([OneTimeCode], true);
      if second.Err? {
        return Err(Stopped(second.error));
      }
      var next := second.value;
      if !next.success {
        next := next.(error := Some(Stopped(OrElse(next.error, "no result"))));
      }
      if first.value.data.Some? && next.data.Some? {
        var before, after := first.value.data.value, next.data.value;
        if before.filled.Some? && after.filled.Some? {
          after := after.(filled := Some(before.filled.value + after.filled.value));
        }
        if before.warning.Some? {
          after := after.(warning := Some(
            before.warning.value + (if after.warning.Some? then ". " + after.warning.value else "")));
        }
        next := next.(data := Some(after));
      }
      return Ok(next);
    }

    /**
     The login of a wall, tried at most twice, the second time from the sign-in page. Without an account
     nothing is started; only a login that succeeded goes back to the page that asked for it.
     */
    method AutoLogin(prepared: Result<Account, string>, signInPage: Option<string>, returnTo: Option<string>,
                     navigate: string -> Navigation)
      returns (out: Outcome)
      modifies this
      ensures prepared.Err? ==>
        children == old(children) && out == Outcome(false, None, Some(prepared.error), false, None)
      ensures prepared.Ok? ==>
        var p, n, loginPage := prepared.value, |old(children)|, signInPage.Some?;
        var r := Judge(p, Phases(p, answer, LastTry(p, answer, n, loginPage)));
        && children == old(children) + AllStarted(p, answer, n, loginPage)
        && out.retried == TriesAgain(p, answer, n, loginPage) && out.item == Some(p.name)
        && out.ok == r.Ok? && out.error == if r.Err? then Some(r.error) else None
      ensures prepared.Ok? ==>
        exists r, started ::
          && Went(prepared.value, answer, |old(children)|, signInPage.Some?, out.retried, r, started)
          && children == old(children) + started && (out.ok <==> SignedIn(r))
          && out.error == if SignedIn(r) then None else Some(Complaint(prepared.value, r))
      ensures out.returned
           == if out.ok && returnTo.Some? then Some(ArrivalAt(returnTo.value, navigate(returnTo.value))) else None
      ensures out.retried ==> signInPage.Some?
      ensures visited == old(visited) + (if out.retried then [signInPage.value] else [])
                         + (if out.ok && returnTo.Some? then [returnTo.value] else [])
    {
      hide Retry, Judge, Phases, Started, Went, SignedIn, Complaint;
      out := Outcome(false, None, None, false, None);
      if prepared.Err? {
        return out.(error := Some(prepared.error));
      }
      var p, loginPage := prepared.value, signInPage.Some?;
      out := out.(item := Some(p.name));
      var attempt := 0;
      ghost var n := |children|;
      LoginWent(p, answer, n, loginPage);
      JudgeTells(p, Phases(p, answer, LastTry(p, answer, n, loginPage)));
      while !out.ok
        invariant attempt <= 2 && out.returned == None && out.error == None && out.item == Some(p.name)
        invariant out.retried ==> loginPage
        invariant visited == old(visited) + (if out.retried then [signInPage.value] else [])
        invariant attempt == 0 ==> children == old(children) && !out.retried && !out.ok
        invariant attempt == 1 && !out.ok ==>
          TriesAgain(p, answer, n, loginPage) && out.retried && children == old(children) + Started(p, answer, n)
        invariant out.ok ==>
          Finished(p, n, loginPage, old(children)) && out.retried == TriesAgain(p, answer, n, loginPage)
        invariant attempt == 2 ==> out.ok
        decreases 2 - attempt
      {
        attempt := attempt + 1;
        var response := RunLoginPhases(p);
        var r := Judge(p, response);
        if r.Ok? {
          out := out.(ok := true);
        } else if attempt == 1 && Retry(r.error) && loginPage {
          visited := visited + [signInPage.value];
          out := out.(retried := true);
        } else {
          return out.(error := Some(r.error));
        }
      }
      if returnTo.Some? {
        visited := visited + [returnTo.value];
        out := out.(returned := Some(ArrivalAt(returnTo.value, navigate(returnTo.value))));
      }
    }

    /** All children of a login were started, and the last try succeeded. */
    ghost predicate Finished(p: Account, n: nat, loginPage: bool, before: seq<Child>)
      reads this
    {
      && children == before + AllStarted(p, answer, n, loginPage)
      && Judge(p, Phases(p, answer, LastTry(p, answer, n, loginPage))).Ok?
    }
  }

  /** Where the last try of a login starts among the children. */
  function LastTry(p: Account, answer: nat -> Answer, n: nat, loginPage: bool): nat {
    if TriesAgain(p, answer, n, loginPage) then n + |Started(p, answer, n)| else n
  }

  function AllStarted(p: Account, answer: nat -> Answer, n: nat, loginPage: bool): seq<Child> {
    Started(p, answer, n)
    + (if TriesAgain(p, answer, n, loginPage) then Started(p, answer, n + |Started(p, answer, n)|) else [])
  }
}
