/**
 The bounds of module AntigravityBounds are reached: against an upstream that keeps answering
 429 with a short retry time, every retry is used on every URL before the answer is handed back.
 */
module AntigravityPersistence {
  import opened JsText
  import opened AntigravityRetry
  import opened TransientErrors
  import opened AntigravityBounds

  /** A 429 with the retry time in its headers. */
  function TooMany(ms: nat): Reply {
    Reply(Ready, None, false, RATE_LIMITED, ms, Unreadable(false), None, false, FinishedWith(RATE_LIMITED))
  }

  function Always(reply: Reply): nat -> Reply {
    (_: nat) => reply
  }

  predicate IsShort(ms: nat) { 0 < ms <= LONG_RETRY_THRESHOLD_MS }

  /** One round: sleep and stay while the URL has a retry left, then move on, and on the last URL answer. */
  lemma TooManyRound(l: Ledger, ms: nat, k: nat, url: nat, urls: nat, creditsFirst: bool)
    requires IsShort(ms) && url < urls
    ensures var sent, replies := l.Do(Send(url)), Always(TooMany(ms));
      Run(l, replies, k, url, urls, creditsFirst)
      == if l.At(url) < MAX_AUTO_RETRIES then Run(sent.Wait(url, ms), replies, k + 1, url, urls, creditsFirst)
         else if url + 1 < urls then Run(sent, replies, k + 1, url + 1, urls, creditsFirst)
         else (Returned(RATE_LIMITED), sent)
  {
    var sent := l.Do(Send(url));
    assert Round(l, TooMany(ms), url, urls, creditsFirst)
      == if l.At(url) < MAX_AUTO_RETRIES then (Goto(url), sent.Wait(url, ms))
         else if url + 1 < urls then (Goto(url + 1), sent)
         else (End(Returned(RATE_LIMITED)), sent);
  }

  /** What was done between two states of the records. */
  ghost predicate Costs(l: Ledger, l': Ledger, sends: nat, sleeps: nat, ms: nat) {
    && Tally(Sends, l'.done) == Tally(Sends, l.done) + sends
    && Tally(Sleeps, l'.done) == Tally(Sleeps, l.done) + sleeps
    && Tally(SleptMs, l'.done) == Tally(SleptMs, l.done) + ms
  }

  lemma SendCosts(l: Ledger, url: nat)
    ensures Costs(l, l.Do(Send(url)), 1, 0, 0)
    ensures forall u: nat :: l.Do(Send(url)).At(u) == l.At(u)
  {
    forall m { TallySnoc(m, l.done, Send(url)); }
  }

  lemma WaitCosts(l: Ledger, ms: nat, url: nat)
    ensures Costs(l, l.Do(Send(url)).Wait(url, ms), 1, 1, ms)
    ensures forall u: nat :: l.Do(Send(url)).Wait(url, ms).At(u) == if u == url then l.At(u) + 1 else l.At(u)
  {
    SendCosts(l, url);
    forall m { TallySnoc(m, l.done + [Send(url)], Sleep(url, ms)); }
  }

  /** The retries left on this URL and all those of the URLs after it. */
  function RetriesAhead(l: Ledger, url: nat, urls: nat): nat
    requires url < urls
  {
    RetriesLeft(l, url) + MAX_AUTO_RETRIES * (urls - url - 1)
  }

  /** All retries ahead were used, with one more send for each URL ahead. */
  ghost predicate UsesUp(l: Ledger, r: (Ending, Ledger), ahead: nat, urlsAhead: nat, ms: nat) {
    r.0 == Returned(RATE_LIMITED) && Costs(l, r.1, ahead + urlsAhead, ahead, ms * ahead)
  }

  lemma WaitThenUsesUp(l: Ledger, r: (Ending, Ledger), ms: nat, url: nat, ahead: nat, urlsAhead: nat)
    requires UsesUp(l.Do(Send(url)).Wait(url, ms), r, ahead, urlsAhead, ms)
    ensures UsesUp(l, r, ahead + 1, urlsAhead, ms)
  {
    WaitCosts(l, ms, url);
    assert ms * (ahead + 1) == ms * ahead + ms;
  }

  lemma SendThenUsesUp(l: Ledger, r: (Ending, Ledger), ms: nat, url: nat, ahead: nat, urlsAhead: nat)
    requires UsesUp(l.Do(Send(url)), r, ahead, urlsAhead, ms)
    ensures UsesUp(l, r, ahead, urlsAhead + 1, ms)
  {
    SendCosts(l, url);
  }

  /** What holds from `l` on at `url`. */
  ghost predicate Persists(l: Ledger, ms: nat, k: nat, url: nat, urls: nat, creditsFirst: bool)
    requires url < urls
  {
    UsesUp(l, Run(l, Always(TooMany(ms)), k, url, urls, creditsFirst), RetriesAhead(l, url, urls), urls - url, ms)
  }

  lemma PersistsByWaiting(l: Ledger, ms: nat, k: nat, url: nat, urls: nat, creditsFirst: bool)
    requires IsShort(ms) && url < urls && l.At(url) < MAX_AUTO_RETRIES
    requires Persists(l.Do(Send(url)).Wait(url, ms), ms, k + 1, url, urls, creditsFirst)
    ensures Persists(l, ms, k, url, urls, creditsFirst)
  {
    TooManyRound(l, ms, k, url, urls, creditsFirst);
    var next := l.Do(Send(url)).Wait(url, ms);
    WaitCosts(l, ms, url);
    WaitThenUsesUp(l, Run(next, Always(TooMany(ms)), k + 1, url, urls, creditsFirst), ms, url,
        RetriesAhead(next, url, urls), urls - url);
  }

  lemma PersistsByMovingOn(l: Ledger, ms: nat, k: nat, url: nat, urls: nat, creditsFirst: bool)
    requires IsShort(ms) && url + 1 < urls && l.At(url) >= MAX_AUTO_RETRIES && l.At(url + 1) == 0
    requires Persists(l.Do(Send(url)), ms, k + 1, url + 1, urls, creditsFirst)
    ensures Persists(l, ms, k, url, urls, creditsFirst)
  {
    TooManyRound(l, ms, k, url, urls, creditsFirst);
    var sent := l.Do(Send(url));
    SendCosts(l, url);
    SendThenUsesUp(l, Run(sent, Always(TooMany(ms)), k + 1, url + 1, urls, creditsFirst), ms, url,
        RetriesAhead(sent, url + 1, urls), urls - url - 1);
  }

  lemma PersistsAtTheEnd(l: Ledger, ms: nat, k: nat, url: nat, urls: nat, creditsFirst: bool)
    requires IsShort(ms) && url + 1 == urls && l.At(url) >= MAX_AUTO_RETRIES
    ensures Persists(l, ms, k, url, urls, creditsFirst)
  {
    TooManyRound(l, ms, k, url, urls, creditsFirst);
    SendCosts(l, url);
    assert RetriesAhead(l, url, urls) == 0 && ms * 0 == 0;
    assert UsesUp(l, Run(l, Always(TooMany(ms)), k, url, urls, creditsFirst), 0, 1, ms);
  }

  lemma {:induction false} TooManyRun(l: Ledger, ms: nat, k: nat, url: nat, urls: nat, creditsFirst: bool)
    requires IsShort(ms) && url < urls && l.At(url) <= MAX_AUTO_RETRIES && forall u: nat :: u > url ==> l.At(u) == 0
    ensures Persists(l, ms, k, url, urls, creditsFirst)
    decreases urls - url, RetriesLeft(l, url)
  {
    if l.At(url) < MAX_AUTO_RETRIES {
      WaitCosts(l, ms, url);
      TooManyRun(l.Do(Send(url)).Wait(url, ms), ms, k + 1, url, urls, creditsFirst);
      PersistsByWaiting(l, ms, k, url, urls, creditsFirst);
    } else if url + 1 < urls {
      SendCosts(l, url);
      TooManyRun(l.Do(Send(url)), ms, k + 1, url + 1, urls, creditsFirst);
      PersistsByMovingOn(l, ms, k, url, urls, creditsFirst);
    } else {
      PersistsAtTheEnd(l, ms, k, url, urls, creditsFirst);
    }
  }

  /** A persistent 429 costs exactly four sends and three sleeps on every URL, and is then handed back. */
  lemma PersistentRateLimit(ms: nat, urls: nat, creditsFirst: bool)
    requires IsShort(ms) && urls > 0
    ensures var (ending, l) := Once(Always(TooMany(ms)), urls, creditsFirst);
      && ending == Returned(RATE_LIMITED)
      && Tally(Sends, l.done) == 4 * urls && Tally(Sleeps, l.done) == 3 * urls
      && Tally(SleptMs, l.done) == ms * (3 * urls)
  {
    TooManyRun(EMPTY, ms, 0, 0, urls, creditsFirst);
    assert RetriesAhead(EMPTY, 0, urls) == 3 * urls;
  }
}
