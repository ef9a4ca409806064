/**
 One Antigravity request with its retries (open-sse/executors/antigravity.ts):
 the loop over upstream URLs that stays on a URL by cancelling its own increment,
 the per-URL counters and the one-shot retry with credits. The upstream is
 adversarial: each round gets an arbitrary `Reply`.
 */
module AntigravityRetry {
  import opened JsText
  import opened TransientErrors

  const MAX_AUTO_RETRIES: nat := 3
  const LONG_RETRY_THRESHOLD_MS: nat := 60_000
  const MAX_RETRY_AFTER_MS: nat := 60_000
  const TRANSIENT_RETRY_MAX_MS: nat := 15_000

  datatype Category = Unknown | RateLimited | QuotaExhausted | SoftRateLimit

  /** What the retry with credits gave: an answer to hand back, a 429 or an error, or an abort. */
  datatype CreditsReply = CreditsAnswer(status: int) | CreditsNothing(limited: bool) | CreditsAbort

  /** The error body of a 429 or 503, as far as it is understood; a parsed time of 0 is an absent one. */
  datatype ErrorBody =
    | Unreadable(aborted: bool)
    | Parsed(category: Category, parsedMs: nat, mayRetryWithCredits: bool, credits: CreditsReply)

  datatype Preparation = Ready | EarlyResponse(status: int) | PreparationThrows(aborted: bool)

  datatype Finish = FinishedWith(status: int) | FinishThrows(aborted: bool)

  /**
   Everything the outside world decides in one round. `headerMs` is the retry time in the
   headers (0 when absent), `secondFetch` says that a 403 made the sender repeat the fetch
   without one header, `message` is the flattened error text when the body is read a second
   time, none when that reading fails.
   */
  datatype Reply = Reply(
    preparation: Preparation,
    sendThrows: Option<bool>,
    secondFetch: bool,
    status: int,
    headerMs: nat,
    body: ErrorBody,
    message: Option<string>,
    embeds: bool,
    finish: Finish)

  datatype Action =
    | Send(url: nat)
    | SecondFetch(url: nat)
    | CreditsSend(url: nat)
    | CreditsFailure(url: nat)
    | CreditsExhausted(url: nat)
    | Sleep(url: nat, ms: nat)
    | Cooldown(url: nat, ms: nat)

  /** How one `executeOnce` ends. `AllUrlsFailed` is the error after its loop. */
  datatype Ending = Returned(status: int) | Threw(aborted: bool) | AllUrlsFailed

  /** `decide429`: the retry time, with the default of the category when the message names none. */
  function Decide429(category: Category, parsedMs: nat): nat {
    if parsedMs > 0 then parsedMs
    else
      match category
      case SoftRateLimit => 2_000
      case RateLimited => 60_000
      case QuotaExhausted => 24 * 60 * 60 * 1000
      case Unknown => 5_000
  }

  // ----- one round, on values -----

  /** The mutable records shared by a whole run, and what has been done so far. */
  datatype Ledger = Ledger(attempts: map<nat, nat>, creditsTried: bool, done: seq<Action>) {
    function At(url: nat): nat {
      if url in attempts then attempts[url] else 0
    }

    function Do(a: Action): Ledger {
      this.(done := done + [a])
    }

    /** One more sleep on the URL before trying it again. */
    function Wait(url: nat, ms: nat): Ledger {
      this.(attempts := attempts[url := At(url) + 1], done := done + [Sleep(url, ms)])
    }
  }

  datatype Resolved = CreditsResult(status: int) | RetryIn(ms: nat) | Aborted

  predicate Eligible(body: ErrorBody, creditsFirst: bool, l: Ledger) {
    body.Parsed? && body.category.QuotaExhausted? && !creditsFirst && !l.creditsTried && body.mayRetryWithCredits
  }

  /** Credits did not help: the failure is counted, and after a 429 the account is marked. */
  function FailCredits(l: Ledger, url: nat, limited: bool): Ledger {
    if limited then l.Do(CreditsFailure(url)).Do(CreditsExhausted(url)) else l.Do(CreditsFailure(url))
  }

  /** A used-up quota with no retry with credits: a cooldown, and a failure when credits came first. */
  function Exhaust(l: Ledger, url: nat, ms: nat, creditsFirst: bool): Ledger {
    var cooled := l.Do(Cooldown(url, ms));
    if creditsFirst then FailCredits(cooled, url, true) else cooled
  }

  /** `tryResolveRetryFromErrorBody`. */
  function Resolve(l: Ledger, body: ErrorBody, url: nat, creditsFirst: bool): (Resolved, Ledger) {
    match body
    case Unreadable(aborted) => (if aborted then Aborted else RetryIn(0), l)
    case Parsed(category, parsedMs, _, credits) =>
      var ms := Decide429(category, parsedMs);
      if Eligible(body, creditsFirst, l) then
        var asked := l.(creditsTried := true).Do(CreditsSend(url));
        match credits
        case CreditsAnswer(status) => (CreditsResult(status), asked)
        case CreditsAbort => (Aborted, asked)
        case CreditsNothing(limited) => (RetryIn(ms), FailCredits(asked, url, limited).Do(Cooldown(url, ms)))
      else
        (RetryIn(ms), if category.QuotaExhausted? then Exhaust(l, url, ms, creditsFirst) else l)
  }

  datatype Next = Return(status: int) | SameUrl | NextUrl | GoOn(retryMs: nat) | Abort

  function Pow2(n: nat): nat { if n == 0 then 1 else 2 * Pow2(n - 1) }

  function Min(a: nat, b: nat): nat { if a < b then a else b }

  function BackoffMs(attempt: nat, status: int): nat {
    Min(1000 * Pow2(attempt), if status == RATE_LIMITED then MAX_RETRY_AFTER_MS else TRANSIENT_RETRY_MAX_MS)
  }

  /** What follows once the retry time is known. */
  function AfterResolve(l: Ledger, retryMs: nat, reply: Reply, url: nat, urls: nat): (Next, Ledger) {
    if 0 < retryMs <= LONG_RETRY_THRESHOLD_MS && l.At(url) < MAX_AUTO_RETRIES then
      (SameUrl, l.Wait(url, Min(retryMs, MAX_RETRY_AFTER_MS)))
    else if retryMs == 0 && l.At(url) < MAX_AUTO_RETRIES && ShouldAutoRetry(reply.status, reply.message) then
      (SameUrl, l.Wait(url, BackoffMs(l.At(url) + 1, reply.status)))
    else if url + 1 < urls then (NextUrl, l)
    else (GoOn(retryMs), l)
  }

  /** `handleAntigravityRateLimit`. */
  function RateLimit(l: Ledger, reply: Reply, url: nat, urls: nat, creditsFirst: bool): (Next, Ledger) {
    if reply.headerMs > 0 then AfterResolve(l, reply.headerMs, reply, url, urls)
    else
      match Resolve(l, reply.body, url, creditsFirst)
      case (CreditsResult(status), l') => (Return(status), l')
      case (Aborted, l') => (Abort, l')
      case (RetryIn(ms), l') => AfterResolve(l', ms, reply, url, urls)
  }

  /** Exactly when a 429 or 503 is retried on its URL; the text of the error never decides. */
  lemma RetriedInPlaceExactly(l: Ledger, reply: Reply, url: nat, urls: nat, creditsFirst: bool)
    requires reply.status == RATE_LIMITED || reply.status == SERVICE_UNAVAILABLE
    ensures RateLimit(l, reply, url, urls, creditsFirst).0.SameUrl? <==>
      && l.At(url) < MAX_AUTO_RETRIES
      && if reply.headerMs > 0 then reply.headerMs <= LONG_RETRY_THRESHOLD_MS
         else match reply.body
           case Unreadable(aborted) => !aborted && (reply.status == RATE_LIMITED || reply.message.Some?)
           case Parsed(category, parsedMs, _, credits) =>
             && Decide429(category, parsedMs) <= LONG_RETRY_THRESHOLD_MS
             && (Eligible(reply.body, creditsFirst, l) ==> credits.CreditsNothing?)
  {
  }

  datatype Outcome = Done(status: int) | Retry(sameUrl: bool) | Raise(aborted: bool)

  function Finished(finish: Finish): Outcome {
    match finish
    case FinishedWith(status) => Done(status)
    case FinishThrows(aborted) => Raise(aborted)
  }

  function Sent(l: Ledger, reply: Reply, url: nat): Ledger {
    if reply.secondFetch then l.Do(Send(url)).Do(SecondFetch(url)) else l.Do(Send(url))
  }

  /** `runAntigravityAttempt`. */
  function Attempt(l: Ledger, reply: Reply, url: nat, urls: nat, creditsFirst: bool): (Outcome, Ledger) {
    var sent := Sent(l, reply, url);
    if reply.sendThrows.Some? then (Raise(reply.sendThrows.value), sent)
    else if reply.status == RATE_LIMITED || reply.status == SERVICE_UNAVAILABLE then
      match RateLimit(sent, reply, url, urls, creditsFirst)
      case (Return(status), l') => (Done(status), l')
      case (SameUrl, l') => (Retry(true), l')
      case (NextUrl, l') => (Retry(false), l')
      case (Abort, l') => (Raise(true), l')
      case (GoOn(retryMs), l') =>
        (if reply.status == RATE_LIMITED && retryMs > LONG_RETRY_THRESHOLD_MS && reply.embeds then Done(RATE_LIMITED)
         else Finished(reply.finish), l')
    else (Finished(reply.finish), sent)
  }

  // ----- a whole run, on values -----

  /** What the loop of `executeOnce` does after a round: end, or go to a URL. */
  datatype Move = End(ending: Ending) | Goto(url: nat)

  function MoveAfter(outcome: Outcome, url: nat, urls: nat): Move {
    match outcome
    case Done(status) => End(Returned(status))
    case Retry(sameUrl) => Goto(if sameUrl then url else url + 1)
    case Raise(aborted) => if !aborted && url + 1 < urls then Goto(url + 1) else End(Threw(aborted))
  }

  function Round(l: Ledger, reply: Reply, url: nat, urls: nat, creditsFirst: bool): (Move, Ledger) {
    match reply.preparation
    case EarlyResponse(status) => (End(Returned(status)), l)
    case PreparationThrows(aborted) => (End(Threw(aborted)), l)
    case Ready =>
      var (outcome, l') := Attempt(l, reply, url, urls, creditsFirst);
      (MoveAfter(outcome, url, urls), l')
  }

  lemma ResolveKeepsCounters(l: Ledger, body: ErrorBody, url: nat, creditsFirst: bool)
    ensures Resolve(l, body, url, creditsFirst).1.attempts == l.attempts
  {
  }

  lemma RateLimitCounts(l: Ledger, reply: Reply, url: nat, urls: nat, creditsFirst: bool)
    ensures var (next, l') := RateLimit(l, reply, url, urls, creditsFirst);
      && (next.SameUrl? ==> l.At(url) < MAX_AUTO_RETRIES && l'.attempts == l.attempts[url := l.At(url) + 1])
      && (!next.SameUrl? ==> l'.attempts == l.attempts)
      && (next.NextUrl? ==> url + 1 < urls)
      && (next.GoOn? ==> url + 1 >= urls)
  {
    ResolveKeepsCounters(l, reply.body, url, creditsFirst);
  }

  lemma AttemptCounts(l: Ledger, reply: Reply, url: nat, urls: nat, creditsFirst: bool)
    ensures var (outcome, l') := Attempt(l, reply, url, urls, creditsFirst);
      && (outcome == Retry(true) ==> l.At(url) < MAX_AUTO_RETRIES && l'.attempts == l.attempts[url := l.At(url) + 1])
      && (outcome != Retry(true) ==> l'.attempts == l.attempts)
      && (outcome == Retry(false) ==> url + 1 < urls)
  {
    RateLimitCounts(Sent(l, reply, url), reply, url, urls, creditsFirst);
  }

  /** Staying on a URL uses up one of its retries, so a run cannot go on for ever. */
  lemma StayingCounts(l: Ledger, reply: Reply, url: nat, urls: nat, creditsFirst: bool)
    ensures var (move, l') := Round(l, reply, url, urls, creditsFirst);
      && (move.Goto? && move.url != url ==> move.url == url + 1 && url + 1 < urls && l'.attempts == l.attempts)
      && (move.Goto? && move.url == url
          ==> l.At(url) < MAX_AUTO_RETRIES && l'.attempts == l.attempts[url := l.At(url) + 1])
      && (move.End? ==> l'.attempts == l.attempts && !move.ending.AllUrlsFailed?)
  {
    AttemptCounts(l, reply, url, urls, creditsFirst);
  }

  function RetriesLeft(l: Ledger, url: nat): nat {
    if l.At(url) < MAX_AUTO_RETRIES then MAX_AUTO_RETRIES - l.At(url) else 0
  }

  /** The run from round `k` on, standing at `url`. */
  function Run(l: Ledger, replies: nat -> Reply, k: nat, url: nat, urls: nat, creditsFirst: bool): (Ending, Ledger)
    decreases if url < urls then urls - url else 0, RetriesLeft(l, url)
  {
    if url >= urls then (AllUrlsFailed, l)
    else
      StayingCounts(l, replies(k), url, urls, creditsFirst);
      match Round(l, replies(k), url, urls, creditsFirst)
      case (End(ending), l') => (ending, l')
      case (Goto(url'), l') => Run(l', replies, k + 1, url', urls, creditsFirst)
  }

  const EMPTY := Ledger(map[], false, [])

  /** `executeOnce` over `urls` upstream URLs. */
  function Once(replies: nat -> Reply, urls: nat, creditsFirst: bool): (Ending, Ledger) {
    Run(EMPTY, replies, 0, 0, urls, creditsFirst)
  }

  // ----- the code, with its shared mutable records -----

  /** `retryAttemptsByUrl` and `creditsRetryState`, with the log of what was done. */
  class Records {
    var attempts: map<nat, nat>
    var creditsTried: bool
    var done: seq<Action>

    constructor ()
      ensures Value() == EMPTY
    {
      attempts, creditsTried, done := map[], false, [];
    }

    function Value(): Ledger
      reads this
    {
      Ledger(attempts, creditsTried, done)
    }

    method Log(a: Action)
      modifies this`done
      ensures Value() == old(Value()).Do(a)
    {
      done := done + [a];
    }

    method Count(url: nat)
      modifies this`attempts
      ensures Value() == old(Value()).(attempts := old(attempts)[url := old(Value()).At(url) + 1])
    {
      attempts := attempts[url := (if url in attempts then attempts[url] else 0) + 1];
    }

    method FailCreditsNow(url: nat, limited: bool)
      modifies this`done
      ensures Value() == FailCredits(old(Value()), url, limited)
    {
      Log(CreditsFailure(url));
      if limited { Log(CreditsExhausted(url)); }
    }

    method TryResolveRetryFromErrorBody(body: ErrorBody, url: nat, creditsFirst: bool) returns (r: Resolved)
      modifies this
      ensures (r, Value()) == Resolve(old(Value()), body, url, creditsFirst)
    {
      match body
      case Unreadable(aborted) =>
        return if aborted then Aborted else RetryIn(0);
      case Parsed(category, parsedMs, mayRetryWithCredits, credits) =>
        var retryMs := Decide429(category, parsedMs);
        var eligible := category.QuotaExhausted? && !creditsFirst && !creditsTried && mayRetryWithCredits;
        if category.QuotaExhausted? && retryMs > 0 && !eligible {
          Log(Cooldown(url, retryMs));
        }
        if category.QuotaExhausted? && creditsFirst {
          FailCreditsNow(url, true);
        }
        if eligible {
          creditsTried := true;
          Log(CreditsSend(url));
          match credits {
            case CreditsAnswer(status) => return CreditsResult(status);
            case CreditsAbort => return Aborted;
            case CreditsNothing(limited) =>
              FailCreditsNow(url, limited);
              if retryMs > 0 { Log(Cooldown(url, retryMs)); }
          }
        }
        return RetryIn(retryMs);
    }

    method HandleAntigravityRateLimit(reply: Reply, url: nat, urls: nat, creditsFirst: bool) returns (next: Next)
      modifies this
      ensures (next, Value()) == RateLimit(old(Value()), reply, url, urls, creditsFirst)
    {
      var retryMs := reply.headerMs;
      if retryMs == 0 {
        var resolved := TryResolveRetryFromErrorBody(reply.body, url, creditsFirst);
        match resolved {
          case CreditsResult(status) => return Return(status);
          case Aborted => return Abort;
          case RetryIn(ms) => retryMs := ms;
        }
      }
      var attempts := Value().At(url);
      if 0 < retryMs <= LONG_RETRY_THRESHOLD_MS && attempts < MAX_AUTO_RETRIES {
        Count(url);
        Log(Sleep(url, Min(retryMs, MAX_RETRY_AFTER_MS)));
        return SameUrl;
      }
      if retryMs == 0 && attempts < MAX_AUTO_RETRIES {
        if ShouldAutoRetry(reply.status, reply.message) {
          Count(url);
          Log(Sleep(url, BackoffMs(Value().At(url), reply.status)));
          return SameUrl;
        }
      }
      if url + 1 < urls {
        return NextUrl;
      }
      return GoOn(retryMs);
    }

    method RunAntigravityAttempt(reply: Reply, url: nat, urls: nat, creditsFirst: bool) returns (outcome: Outcome)
      modifies this
      ensures (outcome, Value()) == Attempt(old(Value()), reply, url, urls, creditsFirst)
    {
      Log(Send(url));
      if reply.secondFetch { Log(SecondFetch(url)); }
      if reply.sendThrows.Some? {
        return Raise(reply.sendThrows.value);
      }
      var retryMs := 0;
      if reply.status == RATE_LIMITED || reply.status == SERVICE_UNAVAILABLE {
        var next := HandleAntigravityRateLimit(reply, url, urls, creditsFirst);
        match next {
          case Return(status) => return Done(status);
          case SameUrl => return Retry(true);
          case NextUrl => return Retry(false);
          case Abort => return Raise(true);
          case GoOn(ms) => retryMs := ms;
        }
        RateLimitCounts(Sent(old(Value()), reply, url), reply, url, urls, creditsFirst);
      }
      if reply.status == RATE_LIMITED && url + 1 < urls {
        assert false;  // a 429 falls through on the last URL only, so the generic fallback never applies
      }
      if reply.status == RATE_LIMITED && retryMs > LONG_RETRY_THRESHOLD_MS && reply.embeds {
        return Done(RATE_LIMITED);
      }
      return Finished(reply.finish);
    }
  }

  /** The run from here on is the whole run. */
  ghost predicate Continues(l: Ledger, replies: nat -> Reply, k: nat, url: nat, urls: nat, creditsFirst: bool) {
    Run(l, replies, k, url, urls, creditsFirst) == Once(replies, urls, creditsFirst)
  }

  /** What is left of the run after an attempt. */
  lemma AfterAttempt(l: Ledger, replies: nat -> Reply, k: nat, url: nat, urls: nat, creditsFirst: bool,
                     outcome: Outcome, l': Ledger)
    requires url < urls && Continues(l, replies, k, url, urls, creditsFirst) && replies(k).preparation.Ready?
    requires (outcome, l') == Attempt(l, replies(k), url, urls, creditsFirst)
    ensures match MoveAfter(outcome, url, urls)
      case End(ending) => Once(replies, urls, creditsFirst) == (ending, l')
      case Goto(next) => Continues(l', replies, k + 1, next, urls, creditsFirst)
  {
  }

  lemma WithoutAttempt(l: Ledger, replies: nat -> Reply, k: nat, url: nat, urls: nat, creditsFirst: bool)
    requires url < urls && Continues(l, replies, k, url, urls, creditsFirst)
    ensures match replies(k).preparation
      case EarlyResponse(status) => Once(replies, urls, creditsFirst) == (Returned(status), l)
      case PreparationThrows(aborted) => Once(replies, urls, creditsFirst) == (Threw(aborted), l)
      case Ready => true
  {
  }

  method ExecuteOnce(replies: nat -> Reply, urls: nat, creditsFirst: bool) returns (ending: Ending, done: seq<Action>)
    ensures (ending, done) == (Once(replies, urls, creditsFirst).0, Once(replies, urls, creditsFirst).1.done)
  {
    var records := new Records();
    var k := 0;
    var urlIndex: int := 0;
    while urlIndex < urls
      invariant 0 <= urlIndex && Continues(records.Value(), replies, k, urlIndex, urls, creditsFirst)
      decreases urls - urlIndex, RetriesLeft(records.Value(), urlIndex)
    {
      var reply := replies(k);
      ghost var l := records.Value();
      WithoutAttempt(l, replies, k, urlIndex, urls, creditsFirst);
      match reply.preparation {
        case EarlyResponse(status) => return Returned(status), records.done;
        case PreparationThrows(aborted) => return Threw(aborted), records.done;
        case Ready =>
      }
      var outcome := records.RunAntigravityAttempt(reply, urlIndex, urls, creditsFirst);
      AttemptCounts(l, reply, urlIndex, urls, creditsFirst);
      AfterAttempt(l, replies, k, urlIndex, urls, creditsFirst, outcome, records.Value());
      match outcome {
        case Done(status) => return Returned(status), records.done;
        case Retry(sameUrl) =>
          if sameUrl { urlIndex := urlIndex - 1; }
        case Raise(aborted) =>
          if aborted || urlIndex + 1 >= urls {
            return Threw(aborted), records.done;
          }
      }
      k := k + 1;
      urlIndex := urlIndex + 1;
    }
    return AllUrlsFailed, records.done;
  }
}
