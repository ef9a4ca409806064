/**
 The model fallback chain around the Antigravity run: `execute` in
 open-sse/executors/antigravity.ts with the decisions of
 open-sse/executors/antigravity/proFallbackChain.ts.
 */
module AntigravityChain {
  import opened JsText
  import opened AntigravityRetry
  import opened AntigravityBounds

  const BAD_REQUEST := 400

  /** What run `i` meets: its rounds, and whether credits come first. */
  datatype World = World(replies: nat -> Reply, creditsFirst: bool)

  function OutcomeOf(w: World, urls: nat): Ending {
    Once(w.replies, urls, w.creditsFirst).0
  }

  function Outcomes(worlds: nat -> World, urls: nat): nat -> Ending {
    (i: nat) => OutcomeOf(worlds(i), urls)
  }

  function ActionsOf(w: World, urls: nat): seq<Action> {
    Once(w.replies, urls, w.creditsFirst).1.done
  }

  /** Everything the first `n` runs do. */
  function AllActions(worlds: nat -> World, n: nat, urls: nat): seq<Action> {
    if n == 0 then [] else AllActions(worlds, n - 1, urls) + ActionsOf(worlds(n - 1), urls)
  }

  method RunCandidate(w: World, urls: nat) returns (ending: Ending, actions: seq<Action>)
    requires urls > 0
    ensures ending == OutcomeOf(w, urls) && actions == ActionsOf(w, urls) && !ending.AllUrlsFailed?
  {
    ending, actions := ExecuteOnce(w.replies, urls, w.creditsFirst);
    var _ := EveryRun(w.replies, urls, w.creditsFirst);
  }

  /** The run that counts for the chain's 400: the first with that answer, if any. */
  ghost predicate IsFirst400(outcomes: nat -> Ending, n: nat, k: Option<nat>) {
    match k
    case None => forall j :: 0 <= j < n ==> outcomes(j) != Returned(400)
    case Some(k) => k < n && outcomes(k) == Returned(400) && forall j :: 0 <= j < k ==> outcomes(j) != Returned(400)
  }

  /**
   How a chain of more than one candidate must end: only a 400 or an error that is no abort leads to the
   next one; any other outcome is the result, and with none all candidates have run and the first 400 is
   handed back if there was one.
   */
  ghost predicate ChainEnds(outcomes: nat -> Ending, chain: nat, r: Ending, winner: Option<nat>, runs: nat) {
    && 1 <= runs <= chain
    && (forall j :: 0 <= j < runs - 1 ==> outcomes(j) == Returned(400) || outcomes(j) == Threw(false))
    && match outcomes(runs - 1)
       case AllUrlsFailed => false
       case Threw(true) => r == Threw(true) && winner.None?
       case Returned(status) =>
         if status != 400 then r == Returned(status) && winner == Some(runs - 1)
         else runs == chain && IsFirst400(outcomes, chain, winner) && r == Returned(400)
       case Threw(false) =>
         && runs == chain && IsFirst400(outcomes, chain, winner)
         && r == if winner.Some? then Returned(400) else Threw(false)
  }

  /** No outcome of the first `n` runs has ended the chain, and the first 400 among them is remembered. */
  ghost predicate GoesOn(outcomes: nat -> Ending, n: nat, winner: Option<nat>) {
    && (forall j :: 0 <= j < n ==> outcomes(j) == Returned(400) || outcomes(j) == Threw(false))
    && IsFirst400(outcomes, n, winner)
  }

  lemma GoesOnNext(outcomes: nat -> Ending, n: nat, winner: Option<nat>)
    requires GoesOn(outcomes, n, winner) && (outcomes(n) == Returned(400) || outcomes(n) == Threw(false))
    ensures GoesOn(outcomes, n + 1, if winner.None? && outcomes(n) == Returned(400) then Some(n) else winner)
  {
  }

  /** The chain is at its end with a decisive outcome, or with the last one. */
  lemma EndsHere(outcomes: nat -> Ending, chain: nat, i: nat, winner: Option<nat>)
    requires i < chain && GoesOn(outcomes, i, winner)
    ensures match outcomes(i)
      case AllUrlsFailed => true
      case Threw(true) => ChainEnds(outcomes, chain, Threw(true), None, i + 1)
      case Returned(status) =>
        if status != 400 then ChainEnds(outcomes, chain, Returned(status), Some(i), i + 1)
        else i + 1 == chain ==>
          ChainEnds(outcomes, chain, Returned(400), if winner.None? then Some(i) else winner, i + 1)
      case Threw(false) =>
        i + 1 == chain ==>
          ChainEnds(outcomes, chain, if winner.Some? then Returned(400) else Threw(false), winner, i + 1)
  {
    if outcomes(i) == Returned(400) || outcomes(i) == Threw(false) { GoesOnNext(outcomes, i, winner); }
  }

  /** The loop of `execute`; the run after it, marked unreachable in the code, is never made. */
  method ExecuteChain(chain: nat, worlds: nat -> World, urls: nat, ghost outcomes: nat -> Ending)
    returns (r: Ending, winner: Option<nat>, runs: nat, done: seq<Action>)
    requires urls > 0 && chain > 1
    requires forall i :: outcomes(i) == OutcomeOf(worlds(i), urls)
    ensures done == AllActions(worlds, runs, urls)
    ensures ChainEnds(outcomes, chain, r, winner, runs)
  {
    done, winner, runs, r := [], None, 0, Threw(false);
    for i := 0 to chain
      invariant i < chain  // the last candidate always ends the loop
      invariant done == AllActions(worlds, i, urls)
      invariant GoesOn(outcomes, i, winner)
    {
      var ending, actions := RunCandidate(worlds(i), urls);
      assert ending == outcomes(i);
      EndsHere(outcomes, chain, i, winner);
      if ending == Returned(400) || ending == Threw(false) { GoesOnNext(outcomes, i, winner); }
      done, runs := done + actions, i + 1;
      if ending.Threw? {
        if ending.aborted { return ending, None, runs, done; }
        if i < chain - 1 { continue; }
        r := if winner.Some? then Returned(BAD_REQUEST) else Threw(false);
        return;
      }
      if ending.status != BAD_REQUEST { return ending, Some(i), runs, done; }
      if winner.None? { winner := Some(i); }
      if i == chain - 1 { return Returned(BAD_REQUEST), winner, runs, done; }
    }
    assert false;
  }

  /**
   `execute` over a chain of `chain` candidate ids (0 or 1: no chain). `winner` is
   the run whose answer is handed back, or none when an error is thrown.
   */
  method Execute(chain: nat, worlds: nat -> World, urls: nat)
    returns (r: Ending, winner: Option<nat>, runs: nat, done: seq<Action>)
    requires urls > 0
    ensures done == AllActions(worlds, runs, urls)
    ensures chain <= 1 ==>
      runs == 1 && r == OutcomeOf(worlds(0), urls) && winner == if r.Returned? then Some(0) else None
    ensures chain > 1 ==> ChainEnds(Outcomes(worlds, urls), chain, r, winner, runs)
  {
    if chain <= 1 {
      r, done := RunCandidate(worlds(0), urls);
      runs, winner := 1, if r.Returned? then Some(0) else None;
      assert AllActions(worlds, 1, urls) == AllActions(worlds, 0, urls) + ActionsOf(worlds(0), urls);
      assert done == [] + ActionsOf(worlds(0), urls);
    } else {
      r, winner, runs, done := ExecuteChain(chain, worlds, urls, Outcomes(worlds, urls));
    }
  }

  lemma {:induction false} TallyConcat(m: Measure, a: seq<Action>, b: seq<Action>)
    ensures Tally(m, a + b) == Tally(m, a) + Tally(m, b)
  {
    if b == [] {
      assert a + b == a;
    } else {
      assert a + b == a + b[..|b| - 1] + [b[|b| - 1]];
      TallySnoc(m, a + b[..|b| - 1], b[|b| - 1]);
      TallyConcat(m, a, b[..|b| - 1]);
    }
  }

  /** At most so many sends, fetches of all kinds, and milliseconds of sleep. */
  predicate AtMost(done: seq<Action>, sends: nat, fetches: nat, ms: nat) {
    && Tally(Sends, done) <= sends
    && Tally(Sends, done) + Tally(SecondFetches, done) + Tally(CreditsSends, done) <= fetches
    && Tally(SleptMs, done) <= ms
  }

  lemma AtMostConcat(a: seq<Action>, b: seq<Action>, sends: nat, fetches: nat, ms: nat, sends': nat, fetches': nat,
                     ms': nat)
    requires AtMost(a, sends, fetches, ms) && AtMost(b, sends', fetches', ms')
    ensures AtMost(a + b, sends + sends', fetches + fetches', ms + ms')
  {
    TallyConcat(Sends, a, b);
    TallyConcat(SecondFetches, a, b);
    TallyConcat(CreditsSends, a, b);
    TallyConcat(SleptMs, a, b);
  }

  lemma RunAtMost(w: World, urls: nat)
    requires urls > 0
    ensures AtMost(ActionsOf(w, urls), 4 * urls, 8 * urls + 1, 180_000 * urls)
  {
    var _ := EveryRun(w.replies, urls, w.creditsFirst);
  }

  lemma OneMoreTime(x: nat, n: nat)
    requires n > 0
    ensures x * n == x * (n - 1) + x
  {
  }

  /** The bounds of a run add up over the chain. */
  lemma {:induction false} ChainBounds(worlds: nat -> World, runs: nat, urls: nat)
    requires urls > 0
    ensures AtMost(AllActions(worlds, runs, urls), 4 * urls * runs, (8 * urls + 1) * runs, 180_000 * urls * runs)
  {
    if runs == 0 {
    } else {
      var w, n := worlds(runs - 1), runs - 1;
      ChainBounds(worlds, n, urls);
      RunAtMost(w, urls);
      AtMostConcat(AllActions(worlds, n, urls), ActionsOf(w, urls), 4 * urls * n, (8 * urls + 1) * n,
          180_000 * urls * n,
                   4 * urls, 8 * urls + 1, 180_000 * urls);
      OneMoreTime(4 * urls, runs);
      OneMoreTime(8 * urls + 1, runs);
      OneMoreTime(180_000 * urls, runs);
    }
  }
}
