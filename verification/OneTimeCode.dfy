/** At most one child ever receives the one-time code (cli/src/bwu_login.rs). */
module OneTimeCode {
  import opened Common
  import opened Text
  import opened LoginValues
  import opened LoginPhases

  /** The five phrases that the retry test looks for. */
  predicate IsPhrase(part: string) {
    || part == STOPPED_PHRASE || part == CODE_PHRASE || part == UNKNOWN_PHRASE || part == UNCONFIRMED_PHRASE
    || part == PAGE_PHRASE
  }

  // ---- no phrase can begin or end in the fixed texts of a message ----

  /** The blanks of a phrase stand between characters that the fixed texts do not have around theirs. */
  predicate PlainBlank(part: string, k: nat)
    requires k < |part|
  {
    && 3 <= k && k + 1 < |part| && part[k + 1] !in {'f', 'i', 't', 'a', 'o'}
    && part[k - 1] != 'r' && (part[k - 1] == 's' ==> part[k - 2] != 'd')
    && (part[k - 1] == 'n' ==> part[k - 2] != 'o' || (k >= 6 && part[k - 6] != 'm'))
  }

  /** The first blank stands behind the first word, the others in what follows. */
  lemma BlankBehind(word: string, rest: string, k: nat)
    requires ' ' !in word && k < |word + " " + rest| && (word + " " + rest)[k] == ' '
    ensures k == |word| || (k > |word| && rest[k - |word| - 1] == ' ')
  {
    assert forall j :: 0 <= j < |word| ==> (word + " " + rest)[j] in word;
  }

  lemma StoppedBlanks(k: nat)
    requires k < |STOPPED_PHRASE| && STOPPED_PHRASE[k] == ' '
    ensures PlainBlank(STOPPED_PHRASE, k)
  {
    BlankBehind("totp", "verification stopped", k);
    if k > 4 {
      BlankBehind("verification", "stopped", k - 5);
      assert ' ' !in "stopped";
    }
    assert k == 4 || k == 17;
  }

  lemma CodeBlanks(k: nat)
    requires k < |CODE_PHRASE| && CODE_PHRASE[k] == ' '
    ensures PlainBlank(CODE_PHRASE, k)
  {
    assert k == 8;
  }

  lemma UnconfirmedBlanks(k: nat)
    requires k < |UNCONFIRMED_PHRASE| && UNCONFIRMED_PHRASE[k] == ' '
    ensures PlainBlank(UNCONFIRMED_PHRASE, k)
  {
    assert k == 3 || k == 11 || k == 15 || k == 19;
  }

  lemma PageBlanks(k: nat)
    requires k < |PAGE_PHRASE| && PAGE_PHRASE[k] == ' '
    ensures PlainBlank(PAGE_PHRASE, k)
  {
    assert k == 3 || k == 8;
  }

  lemma BlanksArePlain(part: string, k: nat)
    requires IsPhrase(part) && k < |part| && part[k] == ' '
    ensures PlainBlank(part, k)
  {
    hide PlainBlank;
    if part == STOPPED_PHRASE {
      StoppedBlanks(k);
    } else if part == CODE_PHRASE {
      CodeBlanks(k);
    } else if part == UNCONFIRMED_PHRASE {
      UnconfirmedBlanks(k);
    } else if part == PAGE_PHRASE {
      PageBlanks(k);
    }
  }

  lemma PunctuationIsForeign(part: string, c: char)
    requires IsPhrase(part) && (c == '.' || c == ',' || c == ';')
    ensures c !in part
  {
  }

  lemma HyphenGoesOn(part: string, k: nat)
    requires IsPhrase(part) && k < |part| && part[k] == '-'
    ensures k + 1 < |part| && part[k + 1] != 'u'
  {
  }

  lemma TailsAvoided(part: string, tail: string)
    requires IsPhrase(part) && (tail == "mation " || tail == "or " || tail == "ds " || tail == ". ")
    ensures AvoidsTail(part, tail)
  {
    hide IsPhrase;
    PunctuationIsForeign(part, '.');
    forall k: nat | 0 < k < |part|
      ensures DiffersBefore(part, k, tail)
    {
      var last := |tail| - 1;
      if part[k - 1] != ' ' {
        assert tail[last] != part[k - |tail| + last];
      } else {
        BlanksArePlain(part, k - 1);
        assert part[k - 2] in part && part[k - 3] in part;
        TailDiffers(part, k, tail);
      }
    }
  }

  lemma TailDiffers(part: string, k: nat, tail: string)
    requires tail == "mation " || tail == "or " || tail == "ds " || tail == ". "
    requires 0 < k < |part| && PlainBlank(part, k - 1) && part[k - 2] != '.'
    ensures DiffersBefore(part, k, tail)
  {
    var n := |tail|;
    if tail == "mation " {
      assert tail[5] == 'n' && tail[4] == 'o' && tail[0] == 'm';
      assert tail[5] != part[k - n + 5] || tail[4] != part[k - n + 4] || (k >= 7 && tail[0] != part[k - n + 0]);
    } else if tail == "ds " {
      assert tail[1] != part[k - n + 1] || tail[0] != part[k - n + 0];
    } else if tail == "or " {
      assert tail[1] != part[k - n + 1];
    } else {
      assert tail[0] != part[k - n + 0];
    }
  }

  lemma StopsAvoided(part: string, head: string)
    requires IsPhrase(part) && (head == "." || head == "," || head == ";")
    ensures AvoidsHead(part, head)
  {
    hide IsPhrase;
    PunctuationIsForeign(part, head[0]);
    assert forall k :: 0 <= k < |part| ==> part[k] in part;
    HeadByFirstChar(part, head);
  }

  lemma HeadsAvoided(part: string, head: string)
    requires IsPhrase(part)
             && (head == " f" || head == " i" || head == " t" || head == " a" || head == " o" || head == "-u")
    ensures AvoidsHead(part, head)
  {
    hide IsPhrase;
    forall k: nat | 0 < k < |part|
      ensures DiffersFrom(part, k, head)
    {
      if part[k + 0] != head[0] {
        assert part[k + 0] != head[0];
      } else if head[0] == ' ' {
        BlanksArePlain(part, k);
        assert part[k + 1] != head[1];
      } else {
        HyphenGoesOn(part, k);
        assert part[k + 1] != head[1];
      }
    }
  }

  lemma AiAvoided(part: string)
    requires IsPhrase(part)
    ensures AvoidsHead(part, "ai")
  {
    forall k: nat | 0 < k < |part|
      ensures DiffersFrom(part, k, "ai")
    {
      if part[k + 0] != "ai"[0] {
        assert part[k + 0] != "ai"[0];
      } else {
        AGoesOn(part, k);
        assert part[k + 1] != "ai"[1];
      }
    }
  }

  lemma AGoesOn(part: string, k: nat)
    requires IsPhrase(part) && k < |part| && part[k] == 'a'
    ensures k + 1 < |part| && part[k + 1] != 'i'
  {
  }

  // ---- no phrase lies in the fixed texts ----

  /** No letter of the text, in either case, is `c`. */
  predicate Lacks(s: string, c: char, upper: char) {
    c !in s && upper !in s
  }

  lemma LackingIsClean(s: string, part: string, c: char, upper: char)
    requires c in part && Lacks(s, c, upper) && forall x :: LowerChar(x) == c ==> x == c || x == upper
    ensures !Contains(Lower(s), part)
  {
    forall i | 0 <= i < |Lower(s)|
      ensures Lower(s)[i] != c
    {
      assert s[i] in s;
    }
    MissingChar(Lower(s), part, c);
  }

  /** Too short for a phrase, or too short for all but two and without some letter of each of these. */
  ghost predicate Plain(s: string) {
    |s| < 13
    || (|s| < 22
        && (Lacks(s, '-', '-') || Lacks(s, 't', 'T'))
        && (Lacks(s, 'g', 'G') || Lacks(s, 'y', 'Y') || Lacks(s, 't', 'T')))
  }

  lemma ShortIsClean(s: string, part: string)
    requires |s| < |part|
    ensures !Contains(Lower(s), part)
  {
  }

  lemma PlainIsClean(s: string, part: string)
    requires IsPhrase(part) && Plain(s)
    ensures !Contains(Lower(s), part)
  {
    hide Lacks, Contains, Lower;
    if |s| < |part| {
      ShortIsClean(s, part);
    } else if part == CODE_PHRASE {
      assert CODE_PHRASE[3] == '-' && CODE_PHRASE[4] == 't';
      if Lacks(s, '-', '-') {
        LackingIsClean(s, part, '-', '-');
      } else {
        LackingIsClean(s, part, 't', 'T');
      }
    } else {
      assert PAGE_PHRASE[0] == 't' && PAGE_PHRASE[6] == 'g' && PAGE_PHRASE[11] == 'y';
      if Lacks(s, 'g', 'G') {
        LackingIsClean(s, part, 'g', 'G');
      } else if Lacks(s, 'y', 'Y') {
        LackingIsClean(s, part, 'y', 'Y');
      } else {
        LackingIsClean(s, part, 't', 'T');
      }
    }
  }

  lemma AskIsPlain()
    ensures Plain(AskTheUser()) && Plain(ToApprove()) && Plain(InTheChrome()) && Plain(UsePanel())
  {
    assert Lacks(AskTheUser(), '-', '-') && Lacks(AskTheUser(), 'g', 'G');
    assert Lacks(InTheChrome(), '-', '-') && Lacks(InTheChrome(), 'g', 'G');
    assert Lacks(UsePanel(), 't', 'T');
  }

  lemma ConfirmIsPlain()
    ensures Plain(ThenConfirm()) && Plain(InSession())
  {
    assert Lacks(ThenConfirm(), '-', '-') && Lacks(ThenConfirm(), 'g', 'G');
    assert Lacks(InSession(), '-', '-') && Lacks(InSession(), 'g', 'G');
  }

  lemma ReportIsPlain()
    ensures Plain(DoNotReport()) && Plain(ALogin())
  {
    assert Lacks(DoNotReport(), '-', '-') && Lacks(DoNotReport(), 'g', 'G');
    assert Lacks(ALogin(), '-', '-') && Lacks(ALogin(), 'y', 'Y');
  }

  lemma OpeningsArePlain()
    ensures Plain(LoginAw()) && Plain(AitsConfirmation()) && Plain("login needs ")
  {
    assert Lacks(AitsConfirmation(), '-', '-') && Lacks(AitsConfirmation(), 'g', 'G');
  }

  lemma CompleteItIsPlain()
    ensures Plain(CompleteIt())
  {
    assert Lacks(CompleteIt(), '-', '-') && Lacks(CompleteIt(), 'g', 'G');
  }

  lemma OnThePageIsPlain()
    ensures Plain(OnThePage())
  {
    assert Lacks(OnThePage(), '-', '-') && Lacks(OnThePage(), 'y', 'Y');
  }

  /** Two texts that hold no phrase hold none together if the second begins as no phrase goes on. */
  lemma BothClean(a: string, b: string, part: string, head: string)
    requires IsPhrase(part) && !Contains(Lower(a), part) && !Contains(Lower(b), part)
    requires head <= Lower(b) && AvoidsHead(part, head)
    ensures !Contains(Lower(a + b), part)
  {
    hide Contains, AvoidsHead, Lower;
    LowerConcat(a, b);
    assert Lower(b) == head + Lower(b)[|head|..];
    LongerHead(part, head, Lower(b)[|head|..]);
    JointBefore(Lower(a), Lower(b), part);
    ContainsConcat(Lower(a), Lower(b), part);
  }

  lemma BeginsLower(head: string, rest: string)
    requires forall c :: c in head ==> !('A' <= c <= 'Z')
    ensures head <= Lower(head + rest)
  {
    LowerConcat(head, rest);
    LowerFixed(head);
  }

  lemma HeadsOfAsk()
    ensures "." <= Lower(AskTheUser()) && " t" <= Lower(ToApprove()) && " i" <= Lower(InTheChrome())
            && "-u" <= Lower(UsePanel())
    ensures "," <= Lower(ThenConfirm()) && " i" <= Lower(InSession()) && ";" <= Lower(DoNotReport())
            && " a" <= Lower(ALogin())
  {
    hide Lower;
    BeginsLower(".", " Ask the user");
    BeginsLower(" t", "o approve");
    BeginsLower(" i", "n the chrome");
    BeginsLower("-u", "se side panel");
    BeginsLower(",", " then run confirm");
    BeginsLower(" i", "n the same session");
    BeginsLower(";", " do not report");
    BeginsLower(" a", " completed login.");
  }

  lemma AskIsClean(part: string)
    requires IsPhrase(part)
    ensures !Contains(Lower(Ask()), part)
  {
    hide Contains, Lower, Plain, Lacks, AvoidsHead, IsPhrase,
         AskTheUser, ToApprove, InTheChrome, UsePanel, ThenConfirm, InSession, DoNotReport, ALogin;
    HeadsOfAsk();
    AskIsPlain();
    ConfirmIsPlain();
    ReportIsPlain();
    var said := AskTheUser();
    PlainIsClean(said, part);
    said := OnePieceMore(said, ToApprove(), part, " t");
    said := OnePieceMore(said, InTheChrome(), part, " i");
    said := OnePieceMore(said, UsePanel(), part, "-u");
    said := OnePieceMore(said, ThenConfirm(), part, ",");
    said := OnePieceMore(said, InSession(), part, " i");
    said := OnePieceMore(said, DoNotReport(), part, ";");
    said := OnePieceMore(said, ALogin(), part, " a");
  }

  lemma OnePieceMore(said: string, piece: string, part: string, head: string) returns (more: string)
    requires IsPhrase(part) && !Contains(Lower(said), part) && Plain(piece) && head <= Lower(piece)
    requires head in [" t", " i", "-u", ",", ";", " a", " o"]
    ensures more == said + piece && !Contains(Lower(more), part)
  {
    hide Contains, Lower, Plain, AvoidsHead, IsPhrase;
    PlainIsClean(piece, part);
    if head == "," || head == ";" {
      StopsAvoided(part, head);
    } else {
      HeadsAvoided(part, head);
    }
    BothClean(said, piece, part, head);
    more := said + piece;
  }

  function Opening(): string { LoginAw() + AitsConfirmation() }

  lemma OpeningIsClean(part: string)
    requires IsPhrase(part)
    ensures !Contains(Lower(Opening()), part) && AvoidsTail(part, Lower(Opening()))
  {
    hide Contains, Lower, Plain, Lacks, AvoidsTail, IsPhrase;
    OpeningsArePlain();
    PlainIsClean(LoginAw(), part);
    PlainIsClean(AitsConfirmation(), part);
    BeginsLower("ai", "ts confirmation ");
    AiAvoided(part);
    BothClean(LoginAw(), AitsConfirmation(), part, "ai");
    var before, tail := LoginAw() + "aits confir", "mation ";
    assert Opening() == before + tail;
    LowerConcat(before, tail);
    LowerFixed(tail);
    TailsAvoided(part, tail);
    LongerTail(part, Lower(before), tail);
  }

  lemma AskIsSealed(part: string)
    requires IsPhrase(part)
    ensures !Contains(Lower(Ask()), part) && AvoidsHead(part, Lower(Ask()))
  {
    hide Contains, Lower, AvoidsHead, IsPhrase;
    AskIsClean(part);
    StopsAvoided(part, ".");
    var rest := Ask()[1..];
    assert Ask() == "." + rest;
    LowerConcat(".", rest);
    LowerFixed(".");
    LongerHead(part, ".", Lower(rest));
  }

  lemma ForIsSealed(part: string)
    requires IsPhrase(part)
    ensures Lower(" for ") == " for " && !Contains(" for ", part)
    ensures AvoidsHead(part, " for ") && AvoidsTail(part, " for ")
  {
    hide Contains, Lower, AvoidsHead, AvoidsTail;
    LowerFixed(" for ");
    ShortIsClean(" for ", part);
    HeadsAvoided(part, " f");
    TailsAvoided(part, "or ");
    LongerHead(part, " f", "or ");
    LongerTail(part, " f", "or ");
    assert " for " == " f" + "or ";
  }

  lemma StopIsSealed(part: string)
    requires IsPhrase(part)
    ensures Lower(". ") == ". " && !Contains(". ", part) && AvoidsHead(part, ". ") && AvoidsTail(part, ". ")
  {
    hide Contains, Lower, AvoidsHead, AvoidsTail;
    LowerFixed(". ");
    ShortIsClean(". ", part);
    StopsAvoided(part, ".");
    LongerHead(part, ".", " ");
    assert ". " == "." + " ";
    TailsAvoided(part, ". ");
  }

  lemma NeedsOpeningIsClean(part: string)
    requires IsPhrase(part)
    ensures !Contains(Lower("login needs "), part) && AvoidsTail(part, Lower("login needs "))
  {
    hide Contains, Lower, AvoidsTail;
    ShortIsClean("login needs ", part);
    TailsAvoided(part, "ds ");
    LongerTail(part, "login nee", "ds ");
    assert "login needs " == "login nee" + "ds ";
    LowerFixed("login needs ");
  }

  // ---- a phrase in a message lies in one of the texts set into it ----

  /** One of two texts of the daemon's, in either case, holds the phrase. */
  predicate Quoted(a: string, b: string, part: string) {
    Contains(Lower(a), part) || Contains(Lower(b), part)
  }

  lemma AwaitsQuotes(id: string, site: string, part: string)
    requires IsPhrase(part)
    ensures Contains(Lower(Awaits(id, site)), part) <==> Quoted(id, site, part)
  {
    hide Contains, Lower, AvoidsTail, AvoidsHead, Ask, IsPhrase, LoginAw, AitsConfirmation;
    OpeningIsClean(part);
    ForIsSealed(part);
    AskIsSealed(part);
    NotEmpty(part);
    ThreeFixed(Opening(), id, " for ", site, Ask(), part);
    assert Awaits(id, site) == Opening() + id + " for " + site + Ask();
  }

  lemma NeedsQuotes(needs: string, next: string, part: string)
    requires IsPhrase(part)
    ensures Contains(Lower(Needs(needs, next)), part) <==> Quoted(needs, next, part)
  {
    hide Contains, Lower, AvoidsTail, AvoidsHead, IsPhrase;
    NeedsOpeningIsClean(part);
    StopIsSealed(part);
    NotEmpty(part);
    EmptyIsClean(part);
    ThreeFixed("login needs ", needs, ". ", next, "", part);
    assert Needs(needs, next) == "login needs " + needs + ". " + next + "";
  }

  lemma NotEmpty(part: string)
    requires IsPhrase(part)
    ensures part != ""
  {
  }

  lemma EmptyIsClean(part: string)
    requires part != ""
    ensures Lower("") == "" && !Contains("", part)
  {
  }

  lemma ThreeFixed(first: string, a: string, second: string, b: string, third: string, part: string)
    requires part != "" && !Contains(Lower(first), part) && !Contains(Lower(second), part)
             && !Contains(Lower(third), part)
    requires AvoidsTail(part, Lower(first)) && AvoidsTail(part, Lower(second))
    requires AvoidsHead(part, Lower(second)) && (Lower(third) == "" || AvoidsHead(part, Lower(third)))
    ensures Contains(Lower(first + a + second + b + third), part) <==> Quoted(a, b, part)
  {
    hide Contains, Lower, AvoidsTail, AvoidsHead;
    var fixed, free := [Lower(first), Lower(second), Lower(third)], [Lower(a), Lower(b)];
    assert Sealed(fixed, part);
    FillContains(fixed, free, part);
    LowerConcat(first, a);
    LowerConcat(first + a, second);
    LowerConcat(first + a + second, b);
    LowerConcat(first + a + second + b, third);
    FillThree(fixed, free);
    AnyOfTwo(free, part);
  }

  lemma FillThree(fixed: seq<string>, free: seq<string>)
    requires |fixed| == 3 && |free| == 2
    ensures Fill(fixed, free) == fixed[0] + free[0] + fixed[1] + free[1] + fixed[2]
  {
    assert fixed[1..][1..] == [fixed[2]] && free[1..][1..] == [];
    assert Fill([fixed[2]], []) == fixed[2];
  }

  lemma AnyOfTwo(free: seq<string>, part: string)
    requires |free| == 2
    ensures AnyContains(free, part) <==> Contains(free[0], part) || Contains(free[1], part)
  {
    hide Contains;
    AnyFirst(free, part);
    AnyFirst(free[1..], part);
  }

  // ---- which errors are tried again ----

  function Said(): string { "totp" + " verification stopped" }

  lemma SaidAloud(error: string)
    ensures exists rest :: Lower(Stopped(error)) == Said() + rest
  {
    var said, rest := " verification stopped", "; inspect the current page before trying again: " + error;
    hide Lower;
    LowerConcat("TOTP" + said, rest);
    LowerConcat("TOTP", said);
    LowerFixed(said);
    assert Lower("TOTP") == "totp";
    assert Lower(Stopped(error)) == Said() + Lower(rest);
  }

  /** An error of the code phase is final whatever text follows its prefix. */
  lemma StoppedIsFinal(error: string)
    ensures !Retry(Stopped(error))
  {
    hide Contains, Stopped, Lower;
    SaidAloud(error);
    assert Said() == STOPPED_PHRASE;
    var rest :| Lower(Stopped(error)) == Said() + rest;
    Found(Said() + rest, Said(), 0) by {
      assert (Said() + rest)[0..|Said()|] == Said();
    }
  }

  /** Of two texts in a message, what makes the message be tried again. */
  predicate RetriedFor(a: string, b: string) {
    && !Quoted(a, b, STOPPED_PHRASE) && !Quoted(a, b, CODE_PHRASE)
    && (Quoted(a, b, UNKNOWN_PHRASE) || (Quoted(a, b, UNCONFIRMED_PHRASE) && !Quoted(a, b, PAGE_PHRASE)))
  }

  /** The confirmation message is tried again exactly for what its id and its site quote. */
  lemma AwaitsRetried(id: string, site: string)
    ensures Retry(Awaits(id, site)) <==> RetriedFor(id, site)
  {
    hide Contains, Lower, Awaits, Quoted;
    AwaitsQuotes(id, site, STOPPED_PHRASE);
    AwaitsQuotes(id, site, CODE_PHRASE);
    AwaitsQuotes(id, site, UNKNOWN_PHRASE);
    AwaitsQuotes(id, site, UNCONFIRMED_PHRASE);
    AwaitsQuotes(id, site, PAGE_PHRASE);
  }

  /** The message about what a login needs is tried again exactly for what these two texts quote. */
  lemma NeedsRetried(needs: string, next: string)
    ensures Retry(Needs(needs, next)) <==> RetriedFor(needs, next)
  {
    hide Contains, Lower, Needs, Quoted;
    NeedsQuotes(needs, next, STOPPED_PHRASE);
    NeedsQuotes(needs, next, CODE_PHRASE);
    NeedsQuotes(needs, next, UNKNOWN_PHRASE);
    NeedsQuotes(needs, next, UNCONFIRMED_PHRASE);
    NeedsQuotes(needs, next, PAGE_PHRASE);
  }

  lemma CompleteIsClean(part: string)
    requires IsPhrase(part)
    ensures !Contains(Lower(Complete()), part)
  {
    hide Contains, Lower, Plain, Lacks, IsPhrase, CompleteIt, OnThePage;
    CompleteItIsPlain();
    OnThePageIsPlain();
    PlainIsClean(CompleteIt(), part);
    OnThePageBegins();
    var all := OnePieceMore(CompleteIt(), OnThePage(), part, " o");
  }

  lemma OnThePageBegins()
    ensures " o" <= Lower(OnThePage())
  {
    hide Lower;
    BeginsLower(" o", "n the current page.");
  }

  /** The advice the parent puts in when there is none adds nothing. */
  lemma AdviceIsSilent(needs: string)
    ensures RetriedFor(needs, Complete()) <==> RetriedFor(needs, "")
  {
    hide Contains, Lower, Complete;
    forall part | IsPhrase(part)
      ensures Quoted(needs, Complete(), part) <==> Quoted(needs, "", part)
    {
      NotEmpty(part);
      EmptyIsClean(part);
      CompleteIsClean(part);
    }
  }

  lemma NotConfirmedIsFinal(m: Manager)
    ensures !Retry(NotConfirmed(m))
  {
    hide Contains, Lower, Lacks, NotConfirmed;
    assert UNKNOWN_PHRASE[6] == '_' && UNCONFIRMED_PHRASE[2] == 'e';
    NoUnderscore(m);
    NoE(m);
    LackingIsClean(NotConfirmed(m), UNKNOWN_PHRASE, '_', '_');
    LackingIsClean(NotConfirmed(m), UNCONFIRMED_PHRASE, 'e', 'E');
  }

  lemma NoUnderscore(m: Manager)
    ensures Lacks(NotConfirmed(m), '_', '_')
  {
    assert Lacks("auth login ", '_', '_') && Lacks(Flag(m), '_', '_') && Lacks(" did not confirm a sign-in", '_', '_');
  }

  lemma NoE(m: Manager)
    ensures Lacks(NotConfirmed(m), 'e', 'E')
  {
    assert Lacks("auth login ", 'e', 'E') && Lacks(Flag(m), 'e', 'E') && Lacks(" did not confirm a sign-in", 'e', 'E');
  }

  /** The texts of a successful answer that make the parent try again: those of a confirmation, else of a need. */
  predicate QuotesRetry(p: Account, answer: Answer) {
    && answer.Ok? && answer.value.success && answer.value.data.Some?
    && var d := answer.value.data.value;
       if d.confirmationRequired then RetriedFor(OrElse(d.confirmationId, ""), OrElse(d.site, p.host))
       else d.needs.Some? && RetriedFor(d.needs.value, OrElse(d.next, ""))
  }

  /** After a code phase the parent tries again exactly if the daemon's answer quotes its way through the test. */
  lemma CodePhaseRetried(p: Account, first: Answer, second: Answer)
    requires Continues(p, first)
    ensures var r := Judge(p, Merge(first.value, second));
      r.Err? && Retry(r.error) <==> QuotesRetry(p, second)
  {
    hide Retry, RetriedFor, Awaits, Needs, NotConfirmed, Stopped, Complete;
    NotConfirmedIsFinal(p.manager);
    if second.Err? {
      StoppedIsFinal(second.error);
    } else if !second.value.success {
      StoppedIsFinal(OrElse(second.value.error, "no result"));
    } else if second.value.data.Some? {
      var d := second.value.data.value;
      AwaitsRetried(OrElse(d.confirmationId, ""), OrElse(d.site, p.host));
      NeedsRetried(OrElse(d.needs, ""), OrElse(d.next, Complete()));
      AdviceIsSilent(OrElse(d.needs, ""));
    }
  }

  // ---- how often the code is spent ----

  /** Only the last child receives the code, and it receives nothing else. */
  ghost predicate CodeGoesLast(children: seq<Child>) {
    forall i :: 0 <= i < |children| && OneTimeCode in children[i].envs ==>
      i == |children| - 1 && children[i].envs == [OneTimeCode]
  }

  lemma TriedAgainForQuotes(p: Account, answer: nat -> Answer, n: nat, loginPage: bool)
    requires Continues(p, answer(n))
    ensures TriesAgain(p, answer, n, loginPage) <==> loginPage && QuotesRetry(p, answer(n + 1))
  {
    hide Retry, Judge, Merge, QuotesRetry, Continues;
    CodePhaseRetried(p, answer(n), answer(n + 1));
  }

  /**
   * One login of a wall with a deferred code: a child receives the code and nothing else and none starts after it,
   * exactly unless the sign-in page is known, a code phase was reached, and the daemon's answer to it quotes a
   * phrase in the texts of a confirmation or of a need.
   */
  lemma CodeGoesLastIff(p: Account, answer: nat -> Answer, n: nat, loginPage: bool)
    requires p.values.deferOtp && OneTimeCode !in p.values.envs
    ensures CodeGoesLast(AllStarted(p, answer, n, loginPage)) <==>
            !(loginPage && Continues(p, answer(n)) && QuotesRetry(p, answer(n + 1)))
    ensures CodeGoesLast(AllStarted(p, answer, n, loginPage)) ==> |AllStarted(p, answer, n, loginPage)| <= 3
  {
    hide Retry, Judge, Merge, Continues, TriesAgain, QuotesRetry;
    var children := AllStarted(p, answer, n, loginPage);
    if Continues(p, answer(n)) {
      TriedAgainForQuotes(p, answer, n, loginPage);
      assert children[1].envs == [OneTimeCode];
    }
  }

  /** The text holds neither phrase that asks for another try. */
  predicate Clean(s: string) {
    !Contains(Lower(s), UNKNOWN_PHRASE) && !Contains(Lower(s), UNCONFIRMED_PHRASE)
  }

  /** The texts that a response puts into an error, and the host that stands in for its site, quote nothing. */
  ghost predicate Trusted(p: Account, answer: Answer) {
    && Clean(p.host)
    && (answer.Ok? && answer.value.data.Some? ==>
          var d := answer.value.data.value;
          && Clean(OrElse(d.confirmationId, "")) && Clean(OrElse(d.site, ""))
          && Clean(OrElse(d.needs, "")) && Clean(OrElse(d.next, "")))
  }

  /**
   * With texts of the daemon that quote nothing: at most three children start, at most one receives the code, that
   * one receives nothing else, and no child starts after it.
   */
  lemma CodeIsSpentOnce(p: Account, answer: nat -> Answer, n: nat, loginPage: bool)
    requires p.values.deferOtp && OneTimeCode !in p.values.envs
    requires Continues(p, answer(n)) ==> Trusted(p, answer(n + 1))
    ensures |AllStarted(p, answer, n, loginPage)| <= 3
    ensures CodeGoesLast(AllStarted(p, answer, n, loginPage))
  {
    hide Retry, Judge, Merge, Continues, TriesAgain, Contains, Lower;
    CodeGoesLastIff(p, answer, n, loginPage);
    if Continues(p, answer(n)) {
      TriedAgainForQuotes(p, answer, n, loginPage);
    }
  }

  lemma BlanklessIsSilent(s: string)
    requires ' ' !in s
    ensures !Contains(Lower(s), STOPPED_PHRASE) && !Contains(Lower(s), CODE_PHRASE)
  {
    hide Contains, Lower;
    assert STOPPED_PHRASE[4] == ' ' && CODE_PHRASE[8] == ' ';
    assert Lacks(s, ' ', ' ');
    LackingIsClean(s, STOPPED_PHRASE, ' ', ' ');
    LackingIsClean(s, CODE_PHRASE, ' ', ' ');
  }

  /** A host never has a blank, so one phrase in it is enough. */
  lemma HostIsRetried(id: string, host: string)
    requires Contains(Lower(host), UNKNOWN_PHRASE) && ' ' !in id && ' ' !in host
    ensures RetriedFor(id, host)
  {
    hide Contains, Lower;
    BlanklessIsSilent(id);
    BlanklessIsSilent(host);
  }

  /**
   * The trust is needed. The site of a confirmation is a host, and a host may have the label of a phrase: when the
   * code phase on such a site is held for approval, the login starts over and a second child receives the code.
   */
  lemma QuotingHostSpendsTwo(p: Account, site: string, id: string) returns (answer: nat -> Answer)
    requires p.values.deferOtp && Contains(Lower(site), UNKNOWN_PHRASE) && ' ' !in site && ' ' !in id
    ensures answer(1).Ok? && answer(1).value.success && answer(1).value.data.Some?
    ensures var d := answer(1).value.data.value;
      d.confirmationRequired && d.site == Some(site) && d.confirmationId == Some(id)
    ensures |AllStarted(p, answer, 0, true)| == 4
    ensures AllStarted(p, answer, 0, true)[1].envs == [OneTimeCode] == AllStarted(p, answer, 0, true)[3].envs
  {
    hide Retry, RetriedFor, Contains, Lower;
    var blank := Data(None, None, None, false, None, None, false, false, None, None);
    var challenged := blank.(otp := Some("deferred"), needs := Some("a verification code"));
    var held := blank.(confirmationRequired := true, confirmationId := Some(id), site := Some(site));
    answer := (k: nat) => Ok(Response(true, None, Some(if k == 1 then held else challenged)));
    HostIsRetried(id, site);
    assert Continues(p, answer(0)) && Continues(p, answer(2));
    TriedAgainForQuotes(p, answer, 0, true);
  }

  /** There is such a host. */
  lemma ExampleOfAHost()
    ensures Contains(Lower("action_outcome_unknown" + ".example.com"), UNKNOWN_PHRASE)
    ensures ' ' !in "action_outcome_unknown" + ".example.com"
  {
    hide Contains, Lower;
    LowerConcat(UNKNOWN_PHRASE, ".example.com");
    LowerFixed(UNKNOWN_PHRASE);
    ContainsItself(UNKNOWN_PHRASE);
    ContainsInside("", UNKNOWN_PHRASE, Lower(".example.com"), UNKNOWN_PHRASE);
    assert "" + UNKNOWN_PHRASE == UNKNOWN_PHRASE;
  }
}
