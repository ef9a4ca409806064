/**
 What every Antigravity run keeps, whatever the upstream answers: the order of the
 URLs, the counters, and how much is sent and slept in all.
 */
module AntigravityBounds {
  import opened AntigravityRetry
  import opened TransientErrors

  datatype Measure =
    | SendsTo(url: nat) | SleepsOn(url: nat) | Sends | Sleeps | SecondFetches | CreditsSends | SleptMs

  function Weigh(m: Measure, a: Action): nat {
    match (m, a)
    case (SendsTo(url), Send(u)) => if u == url then 1 else 0
    case (SleepsOn(url), Sleep(u, _)) => if u == url then 1 else 0
    case (Sends, Send(_)) => 1
    case (Sleeps, Sleep(_, _)) => 1
    case (SecondFetches, SecondFetch(_)) => 1
    case (CreditsSends, CreditsSend(_)) => 1
    case (SleptMs, Sleep(_, ms)) => ms
    case _ => 0
  }

  function Tally(m: Measure, done: seq<Action>): nat {
    if done == [] then 0 else Tally(m, done[..|done| - 1]) + Weigh(m, done[|done| - 1])
  }

  lemma TallySnoc(m: Measure, done: seq<Action>, a: Action)
    ensures Tally(m, done + [a]) == Tally(m, done) + Weigh(m, a)
  {
  }

  /** URLs are visited in order, none beyond `url`. */
  ghost predicate InOrder(done: seq<Action>, url: nat) {
    && (forall i :: 0 <= i < |done| ==> done[i].url <= url)
    && (forall i, j :: 0 <= i < j < |done| ==> done[i].url <= done[j].url)
  }

  /** What went on at `url` between two states of the records. */
  ghost predicate Spent(l: Ledger, l': Ledger, url: nat, sends: nat, sleeps: nat, seconds: nat) {
    && (forall u: nat :: Tally(SendsTo(u), l'.done) == Tally(SendsTo(u), l.done) + (if u == url then sends else 0))
    && (forall u: nat :: Tally(SleepsOn(u), l'.done) == Tally(SleepsOn(u), l.done) + (if u == url then sleeps else 0))
    && Tally(Sends, l'.done) == Tally(Sends, l.done) + sends
    && Tally(Sleeps, l'.done) == Tally(Sleeps, l.done) + sleeps
    && Tally(SecondFetches, l'.done) == Tally(SecondFetches, l.done) + seconds
    && Tally(SleptMs, l'.done) <= Tally(SleptMs, l.done) + MAX_RETRY_AFTER_MS * sleeps
    && Tally(CreditsSends, l'.done) + (if l.creditsTried then 1 else 0)
        == Tally(CreditsSends, l.done) + (if l'.creditsTried then 1 else 0)
    && (InOrder(l.done, url) ==> InOrder(l'.done, url))
  }

  lemma SpentBy(l: Ledger, l': Ledger, a: Action, url: nat)
    requires l'.done == l.done + [a] && a.url == url
    requires a.Sleep? ==> a.ms <= MAX_RETRY_AFTER_MS
    requires if a.CreditsSend? then !l.creditsTried && l'.creditsTried else l'.creditsTried == l.creditsTried
    ensures Spent(l, l', url, if a.Send? then 1 else 0, if a.Sleep? then 1 else 0, if a.SecondFetch? then 1 else 0)
  {
    forall m { TallySnoc(m, l.done, a); }
  }

  lemma SpentTogether(l: Ledger, l1: Ledger, l2: Ledger, url: nat, sends: nat, sleeps: nat, seconds: nat, sends': nat,
                      sleeps': nat, seconds': nat)
    requires Spent(l, l1, url, sends, sleeps, seconds) && Spent(l1, l2, url, sends', sleeps', seconds')
    ensures Spent(l, l2, url, sends + sends', sleeps + sleeps', seconds + seconds')
  {
  }

  lemma BackoffIsShort(attempt: nat, status: int)
    ensures BackoffMs(attempt, status) <= MAX_RETRY_AFTER_MS
    ensures attempt == 1 ==> BackoffMs(attempt, status) == 2_000
    ensures attempt == 2 ==> BackoffMs(attempt, status) == 4_000
    ensures attempt == 3 ==> BackoffMs(attempt, status) == 8_000
  {
    assert Pow2(1) == 2 && Pow2(2) == 4 && Pow2(3) == 8;
  }

  /** Marks and cooldowns cost neither sends nor sleeps. */
  lemma NoteSpends(l: Ledger, a: Action, url: nat)
    requires a.url == url && (a.CreditsFailure? || a.CreditsExhausted? || a.Cooldown?)
    ensures Spent(l, l.Do(a), url, 0, 0, 0)
  {
    SpentBy(l, l.Do(a), a, url);
  }

  lemma FailCreditsSpends(l: Ledger, url: nat, limited: bool)
    ensures Spent(l, FailCredits(l, url, limited), url, 0, 0, 0)
    ensures FailCredits(l, url, limited).creditsTried == l.creditsTried
  {
    var failed := l.Do(CreditsFailure(url));
    NoteSpends(l, CreditsFailure(url), url);
    if limited {
      NoteSpends(failed, CreditsExhausted(url), url);
      SpentTogether(l, failed, failed.Do(CreditsExhausted(url)), url, 0, 0, 0, 0, 0, 0);
    }
  }

  lemma ExhaustSpends(l: Ledger, url: nat, ms: nat, creditsFirst: bool)
    ensures Spent(l, Exhaust(l, url, ms, creditsFirst), url, 0, 0, 0)
    ensures Exhaust(l, url, ms, creditsFirst).creditsTried == l.creditsTried
  {
    var cooled := l.Do(Cooldown(url, ms));
    NoteSpends(l, Cooldown(url, ms), url);
    FailCreditsSpends(cooled, url, true);
    if creditsFirst { SpentTogether(l, cooled, FailCredits(cooled, url, true), url, 0, 0, 0, 0, 0, 0); }
  }

  /** The one attempt with credits, and what follows when it gives nothing. */
  lemma CreditsSpend(l: Ledger, url: nat, ms: nat, limited: bool)
    requires !l.creditsTried
    ensures var asked := l.(creditsTried := true).Do(CreditsSend(url));
      Spent(l, asked, url, 0, 0, 0) && Spent(l, FailCredits(asked, url, limited).Do(Cooldown(url, ms)), url, 0, 0, 0)
  {
    var asked := l.(creditsTried := true).Do(CreditsSend(url));
    var failed := FailCredits(asked, url, limited);
    SpentBy(l, asked, CreditsSend(url), url);
    FailCreditsSpends(asked, url, limited);
    SpentTogether(l, asked, failed, url, 0, 0, 0, 0, 0, 0);
    NoteSpends(failed, Cooldown(url, ms), url);
    SpentTogether(l, failed, failed.Do(Cooldown(url, ms)), url, 0, 0, 0, 0, 0, 0);
  }

  lemma ResolveSpends(l: Ledger, body: ErrorBody, url: nat, creditsFirst: bool)
    ensures var l' := Resolve(l, body, url, creditsFirst).1;
      Spent(l, l', url, 0, 0, 0) && (creditsFirst ==> l'.creditsTried == l.creditsTried)
  {
    if body.Parsed? {
      var ms := Decide429(body.category, body.parsedMs);
      if Eligible(body, creditsFirst, l) {
        CreditsSpend(l, url, ms, body.credits.CreditsNothing? && body.credits.limited);
      } else if body.category.QuotaExhausted? {
        ExhaustSpends(l, url, ms, creditsFirst);
      }
    }
  }

  lemma AfterResolveSpends(l: Ledger, retryMs: nat, reply: Reply, url: nat, urls: nat)
    ensures var (next, l') := AfterResolve(l, retryMs, reply, url, urls);
      Spent(l, l', url, 0, if next.SameUrl? then 1 else 0, 0) && l'.creditsTried == l.creditsTried
  {
    var (next, l') := AfterResolve(l, retryMs, reply, url, urls);
    if next.SameUrl? {
      var backoff := BackoffMs(l.At(url) + 1, reply.status);
      BackoffIsShort(l.At(url) + 1, reply.status);
      var ms := if retryMs > 0 then Min(retryMs, MAX_RETRY_AFTER_MS) else backoff;
      SpentBy(l, l', Sleep(url, ms), url);
    }
  }

  lemma RateLimitSpends(l: Ledger, reply: Reply, url: nat, urls: nat, creditsFirst: bool)
    ensures var (next, l') := RateLimit(l, reply, url, urls, creditsFirst);
      Spent(l, l', url, 0, if next.SameUrl? then 1 else 0, 0) && (creditsFirst ==> l'.creditsTried == l.creditsTried)
  {
    if reply.headerMs > 0 {
      AfterResolveSpends(l, reply.headerMs, reply, url, urls);
    } else {
      ResolveSpends(l, reply.body, url, creditsFirst);
      var (resolved, l1) := Resolve(l, reply.body, url, creditsFirst);
      if resolved.RetryIn? {
        AfterResolveSpends(l1, resolved.ms, reply, url, urls);
      }
    }
  }

  function Seconds(reply: Reply): nat { if reply.secondFetch then 1 else 0 }

  lemma SentSpends(l: Ledger, reply: Reply, url: nat)
    ensures Spent(l, Sent(l, reply, url), url, 1, 0, Seconds(reply))
  {
    var sent := l.Do(Send(url));
    SpentBy(l, sent, Send(url), url);
    if reply.secondFetch {
      SpentBy(sent, sent.Do(SecondFetch(url)), SecondFetch(url), url);
      SpentTogether(l, sent, sent.Do(SecondFetch(url)), url, 1, 0, 0, 0, 0, 1);
    }
  }

  lemma LimitedAttempt(l: Ledger, reply: Reply, url: nat, urls: nat, creditsFirst: bool)
    requires reply.sendThrows.None? && (reply.status == RATE_LIMITED || reply.status == SERVICE_UNAVAILABLE)
    ensures var (next, l') := RateLimit(Sent(l, reply, url), reply, url, urls, creditsFirst);
      var r := Attempt(l, reply, url, urls, creditsFirst);
      r.1 == l' && (r.0 == Retry(true) <==> next.SameUrl?)
  {
  }

  lemma AttemptSpends(l: Ledger, reply: Reply, url: nat, urls: nat, creditsFirst: bool)
    ensures var (outcome, l') := Attempt(l, reply, url, urls, creditsFirst);
      && Spent(l, l', url, 1, if outcome == Retry(true) then 1 else 0, Seconds(reply))
      && (creditsFirst ==> l'.creditsTried == l.creditsTried)
  {
    var sent := Sent(l, reply, url);
    SentSpends(l, reply, url);
    if reply.sendThrows.None? && (reply.status == RATE_LIMITED || reply.status == SERVICE_UNAVAILABLE) {
      var (next, l') := RateLimit(sent, reply, url, urls, creditsFirst);
      var sleeps := if next.SameUrl? then 1 else 0;
      assert Spent(sent, l', url, 0, sleeps, 0) && (creditsFirst ==> l'.creditsTried == sent.creditsTried) by {
        RateLimitSpends(sent, reply, url, urls, creditsFirst);
      }
      SpentTogether(l, sent, l', url, 1, 0, Seconds(reply), 0, sleeps, 0);
      LimitedAttempt(l, reply, url, urls, creditsFirst);
    }
  }

  // ----- whole runs -----

  /** What holds whenever the loop stands at `url`, `here` sends there beyond the sleeps. */
  ghost predicate Sound(l: Ledger, url: nat, here: nat, creditsFirst: bool) {
    && InOrder(l.done, url)
    && (forall u: nat :: Tally(SleepsOn(u), l.done) == l.At(u) <= MAX_AUTO_RETRIES)
    && (forall u: nat :: Tally(SendsTo(u), l.done) == l.At(u) + (if u < url then 1 else if u == url then here else 0))
    && (forall u: nat :: u > url ==> l.At(u) == 0)
    && Tally(Sends, l.done) <= (MAX_AUTO_RETRIES + 1) * url + l.At(url) + here
    && Tally(Sleeps, l.done) <= MAX_AUTO_RETRIES * url + l.At(url)
    && Tally(SecondFetches, l.done) <= Tally(Sends, l.done)
    && Tally(SleptMs, l.done) <= MAX_RETRY_AFTER_MS * Tally(Sleeps, l.done)
    && Tally(CreditsSends, l.done) == (if l.creditsTried then 1 else 0)
    && (creditsFirst ==> !l.creditsTried)
  }

  lemma SpentSound(l: Ledger, l': Ledger, url: nat, stays: bool, seconds: nat, creditsFirst: bool)
    requires Sound(l, url, 0, creditsFirst) && Spent(l, l', url, 1, if stays then 1 else 0, seconds) && seconds <= 1
    requires creditsFirst ==> l'.creditsTried == l.creditsTried
    requires stays ==> l.At(url) < MAX_AUTO_RETRIES
    requires l'.attempts == if stays then l.attempts[url := l.At(url) + 1] else l.attempts
    ensures Sound(l', url, if stays then 0 else 1, creditsFirst)
  {
  }

  lemma AttemptKeepsSound(l: Ledger, reply: Reply, url: nat, urls: nat, creditsFirst: bool)
    requires Sound(l, url, 0, creditsFirst)
    ensures var (outcome, l') := Attempt(l, reply, url, urls, creditsFirst);
      Sound(l', url, if outcome == Retry(true) then 0 else 1, creditsFirst)
  {
    var (outcome, l') := Attempt(l, reply, url, urls, creditsFirst);
    AttemptSpends(l, reply, url, urls, creditsFirst);
    AttemptCounts(l, reply, url, urls, creditsFirst);
    SpentSound(l, l', url, outcome == Retry(true), Seconds(reply), creditsFirst);
  }

  lemma NextUrlSound(l: Ledger, url: nat, creditsFirst: bool)
    requires Sound(l, url, 1, creditsFirst)
    ensures Sound(l, url + 1, 0, creditsFirst)
  {
  }

  lemma MoveKeepsSound(l: Ledger, outcome: Outcome, url: nat, urls: nat, creditsFirst: bool)
    requires Sound(l, url, if outcome == Retry(true) then 0 else 1, creditsFirst)
    ensures var move := MoveAfter(outcome, url, urls);
      && (move.End? ==> Sound(l, url, 1, creditsFirst))
      && (move.Goto? ==> Sound(l, move.url, 0, creditsFirst))
  {
    if outcome != Retry(true) {
      NextUrlSound(l, url, creditsFirst);
    }
  }

  /** Where a run stands after a round. */
  lemma RoundKeepsSound(l: Ledger, reply: Reply, url: nat, urls: nat, creditsFirst: bool)
    requires Sound(l, url, 0, creditsFirst)
    ensures var (move, l') := Round(l, reply, url, urls, creditsFirst);
      && (move.End? ==> Sound(l', url, 0, creditsFirst) || Sound(l', url, 1, creditsFirst))
      && (move.Goto? ==> Sound(l', move.url, 0, creditsFirst))
  {
    if reply.preparation.Ready? {
      AttemptKeepsSound(l, reply, url, urls, creditsFirst);
      var (outcome, l') := Attempt(l, reply, url, urls, creditsFirst);
      MoveKeepsSound(l', outcome, url, urls, creditsFirst);
    }
  }

  lemma {:induction false} RunIsSound(l: Ledger, replies: nat -> Reply, k: nat, url: nat, urls: nat, creditsFirst: bool)
    returns (last: nat)
    requires url < urls && Sound(l, url, 0, creditsFirst)
    ensures var (ending, l') := Run(l, replies, k, url, urls, creditsFirst);
      && last < urls && !ending.AllUrlsFailed?
      && (Sound(l', last, 0, creditsFirst) || Sound(l', last, 1, creditsFirst))
    decreases urls - url, RetriesLeft(l, url)
  {
    StayingCounts(l, replies(k), url, urls, creditsFirst);
    RoundKeepsSound(l, replies(k), url, urls, creditsFirst);
    var (move, l') := Round(l, replies(k), url, urls, creditsFirst);
    if move.Goto? {
      last := RunIsSound(l', replies, k + 1, move.url, urls, creditsFirst);
    } else {
      last := url;
    }
  }

  lemma SoundTotals(l: Ledger, last: nat, urls: nat, creditsFirst: bool)
    requires last < urls && (Sound(l, last, 0, creditsFirst) || Sound(l, last, 1, creditsFirst))
    ensures Tally(Sends, l.done) <= 4 * urls && Tally(SleptMs, l.done) <= 3 * 60_000 * urls
  {
  }

  /**
   Every run over at least one URL, whatever the upstream answers: it ends without
   reaching the error after the loop; the URLs are visited in order; the counter of
   a URL is the number of sleeps on it, at most three, and each URL left behind was
   sent to once more than that; there are at most four sends a URL in all, each
   repeated at most once, at most one with credits (none when credits come first),
   and at most three minutes of sleep a URL.
   */
  lemma EveryRun(replies: nat -> Reply, urls: nat, creditsFirst: bool) returns (last: nat)
    requires urls > 0
    ensures var (ending, l) := Once(replies, urls, creditsFirst);
      && last < urls && !ending.AllUrlsFailed?
      && InOrder(l.done, last)
      && (forall u: nat :: Tally(SleepsOn(u), l.done) == l.At(u) <= 3)
      && (forall u: nat :: u < last ==> Tally(SendsTo(u), l.done) == l.At(u) + 1)
      && (forall u: nat :: u > last ==> Tally(SendsTo(u), l.done) == 0)
      && l.At(last) <= Tally(SendsTo(last), l.done) <= l.At(last) + 1
      && Tally(Sends, l.done) <= 4 * urls
      && Tally(SecondFetches, l.done) <= Tally(Sends, l.done)
      && Tally(CreditsSends, l.done) <= (if creditsFirst then 0 else 1)
      && Tally(SleptMs, l.done) <= 3 * 60_000 * urls
  {
    last := RunIsSound(EMPTY, replies, 0, 0, urls, creditsFirst);
    SoundTotals(Once(replies, urls, creditsFirst).1, last, urls, creditsFirst);
  }
}
