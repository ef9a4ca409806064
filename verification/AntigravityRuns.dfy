/**
 What one round of the Antigravity loop decides and does, as one table of cases with its numbers,
 and every run as a path through that table: where it goes and how it ends.
 */
module AntigravityRuns {
  import opened JsText
  import opened TransientErrors
  import opened AntigravityRetry

  // ----- the table -----

  datatype Verdict = Ends(ending: Ending) | Stays(ms: nat) | Leaves

  predicate IsLimited(reply: Reply) { reply.status == 429 || reply.status == 503 }

  /** The round asks once more with credits: for a used-up quota, once in a run, unless credits came first. */
  predicate AsksCredits(reply: Reply, tried: bool, creditsFirst: bool) {
    && reply.headerMs == 0 && reply.body.Parsed? && reply.body.category.QuotaExhausted?
    && !creditsFirst && !tried && reply.body.mayRetryWithCredits
  }

  /** The time to wait: that of the headers, else that of the message, else the default of its category, else none. */
  function WaitMs(reply: Reply): nat {
    if reply.headerMs > 0 then reply.headerMs
    else match reply.body
      case Unreadable(_) => 0
      case Parsed(category, parsedMs, _, _) =>
        if parsedMs > 0 then parsedMs
        else if category.SoftRateLimit? then 2_000
        else if category.RateLimited? then 60_000
        else if category.QuotaExhausted? then 86_400_000
        else 5_000
  }

  /** Without a time to wait, a 429 is retried in any case, a 503 if its text can be read. */
  predicate IsRetriable(reply: Reply) {
    if WaitMs(reply) > 0 then WaitMs(reply) <= 60_000 else reply.status == 429 || reply.message.Some?
  }

  /** The sleep before the next of at most three retries. */
  function SleepMs(reply: Reply, retries: nat): nat {
    if WaitMs(reply) > 0 then WaitMs(reply)
    else if retries == 0 then 2_000 else if retries == 1 then 4_000 else 8_000
  }

  /** An error goes on to the next URL unless it is an abort or there is none. */
  function Failed(aborted: bool, more: bool): Verdict {
    if aborted || !more then Ends(Threw(aborted)) else Leaves
  }

  function Answered(finish: Finish, more: bool): Verdict {
    match finish
    case FinishedWith(status) => Ends(Returned(status))
    case FinishThrows(aborted) => Failed(aborted, more)
  }

  /** What a round comes to; `retries` are those made on this URL, `more` says that there is another URL. */
  function VerdictOn(reply: Reply, retries: nat, tried: bool, more: bool, creditsFirst: bool): Verdict {
    if reply.preparation.EarlyResponse? then Ends(Returned(reply.preparation.status))
    else if reply.preparation.PreparationThrows? then Ends(Threw(reply.preparation.aborted))
    else if reply.sendThrows.Some? then Failed(reply.sendThrows.value, more)
    else if !IsLimited(reply) then Answered(reply.finish, more)
    else if reply.headerMs == 0 && reply.body == Unreadable(true) then Ends(Threw(true))
    else if AsksCredits(reply, tried, creditsFirst) && reply.body.credits.CreditsAnswer?
    then Ends(Returned(reply.body.credits.status))
    else if AsksCredits(reply, tried, creditsFirst) && reply.body.credits.CreditsAbort? then Ends(Threw(true))
    else if retries < 3 && IsRetriable(reply) then Stays(SleepMs(reply, retries))
    else if more then Leaves
    else if reply.status == 429 && WaitMs(reply) > 60_000 && reply.embeds then Ends(Returned(429))
    else Answered(reply.finish, false)
  }

  /** What a round does to credits and quota: marks when they are used up, and one attempt with credits at most. */
  function Marks(reply: Reply, url: nat, tried: bool, creditsFirst: bool): seq<Action> {
    var cooldown := Cooldown(url, WaitMs(reply));
    if !IsLimited(reply) || reply.headerMs > 0 || reply.body.Unreadable? || !reply.body.category.QuotaExhausted? then []
    else if !AsksCredits(reply, tried, creditsFirst)
    then if creditsFirst then [cooldown, CreditsFailure(url), CreditsExhausted(url)] else [cooldown]
    else match reply.body.credits
      case CreditsNothing(true) => [CreditsSend(url), CreditsFailure(url), CreditsExhausted(url), cooldown]
      case CreditsNothing(false) => [CreditsSend(url), CreditsFailure(url), cooldown]
      case _ => [CreditsSend(url)]
  }

  /** Everything a round does. */
  function Deeds(reply: Reply, url: nat, retries: nat, tried: bool, more: bool, creditsFirst: bool): seq<Action> {
    if !reply.preparation.Ready? then []
    else
      var verdict := VerdictOn(reply, retries, tried, more, creditsFirst);
      (if reply.secondFetch then [Send(url), SecondFetch(url)] else [Send(url)])
      + (if reply.sendThrows.Some? then [] else Marks(reply, url, tried, creditsFirst))
      + (if verdict.Stays? then [Sleep(url, verdict.ms)] else [])
  }

  /** The records after a round. */
  function After(l: Ledger, reply: Reply, url: nat, more: bool, creditsFirst: bool): Ledger {
    var verdict := VerdictOn(reply, l.At(url), l.creditsTried, more, creditsFirst);
    Ledger(if verdict.Stays? then l.attempts[url := l.At(url) + 1] else l.attempts,
           l.creditsTried || (reply.preparation.Ready? && reply.sendThrows.None? && IsLimited(reply)
                              && AsksCredits(reply, l.creditsTried, creditsFirst)),
           l.done + Deeds(reply, url, l.At(url), l.creditsTried, more, creditsFirst))
  }

  function MoveOn(verdict: Verdict, url: nat): Move {
    match verdict
    case Ends(ending) => End(ending)
    case Stays(_) => Goto(url)
    case Leaves => Goto(url + 1)
  }

  // ----- the code follows it -----

  lemma WaitIs(body: ErrorBody, reply: Reply)
    requires reply.body == body && reply.headerMs == 0 && body.Parsed?
    ensures Decide429(body.category, body.parsedMs) == WaitMs(reply) > 0
  {
  }

  lemma SleepIs(reply: Reply, retries: nat)
    requires retries < 3 && IsLimited(reply) && WaitMs(reply) == 0
    ensures BackoffMs(retries + 1, reply.status) == SleepMs(reply, retries)
  {
    assert Pow2(1) == 2 && Pow2(2) == 4 && Pow2(3) == 8;
  }

  /** What follows once the time to wait is known. */
  lemma AfterResolveIs(l: Ledger, reply: Reply, url: nat, urls: nat)
    requires IsLimited(reply)
    ensures var (next, l') := AfterResolve(l, WaitMs(reply), reply, url, urls);
      if l.At(url) < 3 && IsRetriable(reply) then next == SameUrl && l' == l.Wait(url, SleepMs(reply, l.At(url)))
      else l' == l && next == if url + 1 < urls then NextUrl else GoOn(WaitMs(reply))
  {
    if l.At(url) < 3 && WaitMs(reply) == 0 { SleepIs(reply, l.At(url)); }
  }

  /** The records once the marks are made. */
  function Marked(l: Ledger, reply: Reply, url: nat, creditsFirst: bool): Ledger {
    Ledger(l.attempts, l.creditsTried || AsksCredits(reply, l.creditsTried, creditsFirst),
           l.done + Marks(reply, url, l.creditsTried, creditsFirst))
  }

  lemma ResolveIs(l: Ledger, reply: Reply, url: nat, creditsFirst: bool)
    requires IsLimited(reply) && reply.headerMs == 0
    ensures var (resolved, l') := Resolve(l, reply.body, url, creditsFirst);
      var asks := AsksCredits(reply, l.creditsTried, creditsFirst);
      && l' == Marked(l, reply, url, creditsFirst)
      && resolved == if reply.body == Unreadable(true) then Aborted
           else if asks && reply.body.credits.CreditsAnswer? then CreditsResult(reply.body.credits.status)
           else if asks && reply.body.credits.CreditsAbort? then Aborted
           else RetryIn(WaitMs(reply))
  {
  }

  lemma RateLimitIs(l: Ledger, reply: Reply, url: nat, urls: nat, creditsFirst: bool)
    requires IsLimited(reply)
    ensures var (next, l') := RateLimit(l, reply, url, urls, creditsFirst);
      var asks, marked := AsksCredits(reply, l.creditsTried, creditsFirst), Marked(l, reply, url, creditsFirst);
      if reply.headerMs == 0 && reply.body == Unreadable(true) then next == Abort && l' == marked
      else if asks && reply.body.credits.CreditsAnswer?
      then next == Return(reply.body.credits.status) && l' == marked
      else if asks && reply.body.credits.CreditsAbort? then next == Abort && l' == marked
      else if l.At(url) < 3 && IsRetriable(reply)
      then next == SameUrl && l' == marked.Wait(url, SleepMs(reply, l.At(url)))
      else l' == marked && next == if url + 1 < urls then NextUrl else GoOn(WaitMs(reply))
  {
    AfterResolveIs(Marked(l, reply, url, creditsFirst), reply, url, urls);
    assert l.done + [] == l.done;
    if reply.headerMs == 0 { ResolveIs(l, reply, url, creditsFirst); }
  }

  lemma LogIs(done: seq<Action>, sent: seq<Action>, marks: seq<Action>, slept: seq<Action>)
    ensures done + sent + marks + slept == done + (sent + marks + slept)
    ensures done + sent + marks + [] == done + sent + marks && done + sent + [] == done + sent && done + [] == done
  {
  }

  lemma SentIs(l: Ledger, reply: Reply, url: nat)
    ensures Sent(l, reply, url)
         == l.(done := l.done + if reply.secondFetch then [Send(url), SecondFetch(url)] else [Send(url)])
  {
  }

  predicate Limits(reply: Reply) { reply.preparation.Ready? && reply.sendThrows.None? && IsLimited(reply) }

  lemma LimitedAfter(l: Ledger, reply: Reply, url: nat, more: bool, creditsFirst: bool)
    requires Limits(reply)
    ensures var verdict := VerdictOn(reply, l.At(url), l.creditsTried, more, creditsFirst);
      var marked := Marked(Sent(l, reply, url), reply, url, creditsFirst);
      After(l, reply, url, more, creditsFirst) == if verdict.Stays? then marked.Wait(url, verdict.ms) else marked
  {
    var verdict := VerdictOn(reply, l.At(url), l.creditsTried, more, creditsFirst);
    SentIs(l, reply, url);
    LogIs(l.done, if reply.secondFetch then [Send(url), SecondFetch(url)] else [Send(url)],
          Marks(reply, url, l.creditsTried, creditsFirst), if verdict.Stays? then [Sleep(url, verdict.ms)] else []);
  }

  lemma LimitedRound(l: Ledger, reply: Reply, url: nat, urls: nat, creditsFirst: bool)
    requires url < urls && Limits(reply)
    ensures var more := url + 1 < urls;
      Round(l, reply, url, urls, creditsFirst)
      == (MoveOn(VerdictOn(reply, l.At(url), l.creditsTried, more, creditsFirst), url),
          After(l, reply, url, more, creditsFirst))
  {
    RateLimitIs(Sent(l, reply, url), reply, url, urls, creditsFirst);
    LimitedAfter(l, reply, url, url + 1 < urls, creditsFirst);
  }

  lemma PlainRound(l: Ledger, reply: Reply, url: nat, urls: nat, creditsFirst: bool)
    requires url < urls && !Limits(reply)
    ensures var more := url + 1 < urls;
      Round(l, reply, url, urls, creditsFirst)
      == (MoveOn(VerdictOn(reply, l.At(url), l.creditsTried, more, creditsFirst), url),
          After(l, reply, url, more, creditsFirst))
  {
    SentIs(l, reply, url);
    LogIs(l.done, if reply.secondFetch then [Send(url), SecondFetch(url)] else [Send(url)], [], []);
  }

  /** One round of the code is one line of the table. */
  lemma RoundIs(l: Ledger, reply: Reply, url: nat, urls: nat, creditsFirst: bool)
    requires url < urls
    ensures var more := url + 1 < urls;
      Round(l, reply, url, urls, creditsFirst)
      == (MoveOn(VerdictOn(reply, l.At(url), l.creditsTried, more, creditsFirst), url),
          After(l, reply, url, more, creditsFirst))
  {
    if Limits(reply) {
      LimitedRound(l, reply, url, urls, creditsFirst);
    } else {
      PlainRound(l, reply, url, urls, creditsFirst);
    }
  }

  // ----- every run -----

  /** Where a run stands before a round. */
  datatype Stand = Stand(url: nat, l: Ledger)

  function VerdictAt(s: Stand, reply: Reply, urls: nat, creditsFirst: bool): Verdict {
    VerdictOn(reply, s.l.At(s.url), s.l.creditsTried, s.url + 1 < urls, creditsFirst)
  }

  /** A stand follows another through a round that stays on the URL or leaves it for the next. */
  predicate Follows(s: Stand, reply: Reply, urls: nat, creditsFirst: bool, next: Stand) {
    var verdict := VerdictAt(s, reply, urls, creditsFirst);
    && !verdict.Ends? && next.url == (if verdict.Stays? then s.url else s.url + 1)
    && next.l == After(s.l, reply, s.url, s.url + 1 < urls, creditsFirst)
  }

  /** Round by round from the first stand to the last, which ends the run. */
  ghost predicate IsPath(path: seq<Stand>, replies: nat -> Reply, k: nat, urls: nat, creditsFirst: bool, ending: Ending,
                         l: Ledger)
  {
    && path != []
    && (forall i: nat :: i + 1 < |path| ==> Follows(path[i], replies(k + i), urls, creditsFirst, path[i + 1]))
    && (forall i: nat :: i < |path| ==> path[i].url < urls)
    && var last, reply := path[|path| - 1], replies(k + |path| - 1);
       && VerdictAt(last, reply, urls, creditsFirst) == Ends(ending)
       && l == After(last.l, reply, last.url, last.url + 1 < urls, creditsFirst)
  }

  lemma PathExtends(s: Stand, path: seq<Stand>, replies: nat -> Reply, k: nat, urls: nat, creditsFirst: bool,
                    ending: Ending, l: Ledger)
    requires IsPath(path, replies, k + 1, urls, creditsFirst, ending, l) && s.url < urls
    requires Follows(s, replies(k), urls, creditsFirst, path[0])
    ensures IsPath([s] + path, replies, k, urls, creditsFirst, ending, l)
  {
    var all := [s] + path;
    forall i: nat | i + 1 < |all| ensures Follows(all[i], replies(k + i), urls, creditsFirst, all[i + 1]) {
      if i > 0 { assert Follows(path[i - 1], replies(k + 1 + (i - 1)), urls, creditsFirst, path[i]); }
    }
  }

  lemma PathEnds(s: Stand, replies: nat -> Reply, k: nat, urls: nat, creditsFirst: bool, ending: Ending, l: Ledger)
    requires s.url < urls
    requires Round(s.l, replies(k), s.url, urls, creditsFirst) == (End(ending), l)
    ensures IsPath([s], replies, k, urls, creditsFirst, ending, l)
  {
    RoundIs(s.l, replies(k), s.url, urls, creditsFirst);
  }

  lemma PathGoesOn(s: Stand, replies: nat -> Reply, k: nat, urls: nat, creditsFirst: bool, next: Stand)
    requires s.url < urls
    requires Round(s.l, replies(k), s.url, urls, creditsFirst) == (Goto(next.url), next.l)
    ensures Follows(s, replies(k), urls, creditsFirst, next)
  {
    RoundIs(s.l, replies(k), s.url, urls, creditsFirst);
  }

  lemma {:induction false} RunIsPath(l: Ledger, replies: nat -> Reply, k: nat, url: nat, urls: nat, creditsFirst: bool)
    returns (path: seq<Stand>)
    requires url < urls
    ensures var (ending, l') := Run(l, replies, k, url, urls, creditsFirst);
      IsPath(path, replies, k, urls, creditsFirst, ending, l') && path[0] == Stand(url, l)
    decreases urls - url, RetriesLeft(l, url)
  {
    StayingCounts(l, replies(k), url, urls, creditsFirst);
    var (move, l') := Round(l, replies(k), url, urls, creditsFirst);
    if move.Goto? {
      var rest := RunIsPath(l', replies, k + 1, move.url, urls, creditsFirst);
      var (ending, end) := Run(l', replies, k + 1, move.url, urls, creditsFirst);
      PathGoesOn(Stand(url, l), replies, k, urls, creditsFirst, Stand(move.url, l'));
      PathExtends(Stand(url, l), rest, replies, k, urls, creditsFirst, ending, end);
      path := [Stand(url, l)] + rest;
    } else {
      PathEnds(Stand(url, l), replies, k, urls, creditsFirst, move.ending, l');
      path := [Stand(url, l)];
    }
  }

  /** Without a URL nothing is sent. */
  lemma WithoutUrls(replies: nat -> Reply, creditsFirst: bool)
    ensures Once(replies, 0, creditsFirst) == (AllUrlsFailed, Ledger(map[], false, []))
  {
  }

  /**
   Every run over at least one URL, whatever the upstream answers, is a path through the table that
   starts at the first URL with empty records; it ends as the table says of its last reply.
   */
  lemma EveryRunIsPath(replies: nat -> Reply, urls: nat, creditsFirst: bool) returns (path: seq<Stand>)
    requires urls > 0
    ensures var (ending, l) := Once(replies, urls, creditsFirst);
      && IsPath(path, replies, 0, urls, creditsFirst, ending, l)
      && path[0] == Stand(0, Ledger(map[], false, []))
  {
    path := RunIsPath(EMPTY, replies, 0, 0, urls, creditsFirst);
  }
}
