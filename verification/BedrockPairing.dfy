/**
 What `sanitizeBedrockToolPairs` guarantees about tool uses and their results,
 for every list of turns: how many survive, exactly when each surviving result
 answers the turn right before it, and exactly when a second run changes nothing.
 */
module BedrockPairing {
  import opened JsText
  import opened BedrockMessages

  /** How many of the first `n` turns are assistant turns that use `id`. */
  function AssistantsUsing(ms: seq<Message>, n: nat, id: string): nat {
    if n == 0 then 0 else AssistantsUsing(ms, n - 1, id) + (if UsesAt(ms, n - 1, id) > 0 then 1 else 0)
  }

  function MatchedAt(ms: seq<Message>, i: int, id: string): nat {
    if Matched(ms, i, id) then 1 else 0
  }

  /** Every id has exactly one result right after each turn using it, and no result anywhere else. */
  ghost predicate Answered(ms: seq<Message>) {
    forall id, j :: 0 <= j <= |ms| ==> ResultsAt(ms, j, id) == if UsesAt(ms, j - 1, id) > 0 then 1 else 0
  }

  /** The tool uses of each turn and the results of the next are in one-to-one correspondence. */
  ghost predicate Paired(ms: seq<Message>) {
    forall id, j :: 0 <= j <= |ms| ==> ResultsAt(ms, j, id) == UsesAt(ms, j - 1, id)
  }

  /** Turn `j` holds a result of `id` that does not answer the turn before it: an orphan or a duplicate. */
  predicate Surplus(ms: seq<Message>, j: int, id: string) {
    ResultsAt(ms, j, id) > MatchedAt(ms, j - 1, id)
  }

  /** No orphan or duplicate result comes before a matched pair of the same id. */
  ghost predicate NoEarlySurplus(ms: seq<Message>) {
    forall id, i, j :: Surplus(ms, j, id) && Matched(ms, i, id) ==> i < j
  }

  ghost predicate NoRepeatedMatchedUse(ms: seq<Message>) {
    forall id, i :: Matched(ms, i, id) ==> UsesAt(ms, i, id) == 1
  }

  // ----- what the two filters keep -----

  lemma CountSnoc(kind: Kind, blocks: seq<Block>, b: Block, id: string)
    ensures Count(kind, blocks + [b], id) == Count(kind, blocks, id) + (if IdOf(kind, b) == Some(id) then 1 else 0)
    ensures Count(kind, blocks + [], id) == Count(kind, blocks, id)
  {
    assert (blocks + [b])[..|blocks|] == blocks;
    assert blocks + [] == blocks;
  }

  lemma {:induction false} KeptUses(ms: seq<Message>, i: nat, content: seq<Block>, id: string)
    ensures Count(Use, KeepUses(ms, i, content), id) == if Matched(ms, i, id) then Count(Use, content, id) else 0
  {
    if content == [] {
    } else {
      var init, b := content[..|content| - 1], content[|content| - 1];
      var kept, found := KeepUses(ms, i, init), IdOf(Use, b);
      KeptUses(ms, i, init, id);
      CountSnoc(Use, kept, b, id);
      if found.None? || Matched(ms, i, found.value) {
        assert KeepUses(ms, i, content) == kept + [b];
      } else {
        assert KeepUses(ms, i, content) == kept + [];
      }
    }
  }

  function Min(a: int, b: int): int { if a < b then a else b }

  /** How many more results of `id` may be kept from turn `i` on. */
  function Room(ms: seq<Message>, i: nat, id: string): nat {
    var before := ResultsBefore(ms, i, id);
    if before < Quota(ms, id) then Quota(ms, id) - before else 0
  }

  lemma {:induction false} KeptResults(ms: seq<Message>, i: nat, content: seq<Block>, id: string)
    ensures Count(Result, KeepResults(ms, i, content), id) == Min(Count(Result, content, id), Room(ms, i, id))
  {
    if content == [] {
    } else {
      var init, b := content[..|content| - 1], content[|content| - 1];
      KeptResults(ms, i, init, id);
      CountSnoc(Result, KeepResults(ms, i, init), b, id);
    }
  }

  /** An id-carrying block shows up in the count of its id. */
  lemma {:induction false} CountedIds(kind: Kind, blocks: seq<Block>, id: string)
    ensures Count(kind, blocks, id) > 0 <==> exists b :: b in blocks && IdOf(kind, b) == Some(id)
  {
    if blocks == [] {
    } else {
      CountedIds(kind, blocks[..|blocks| - 1], id);
      assert forall b :: b in blocks <==> b in blocks[..|blocks| - 1] || b == blocks[|blocks| - 1];
    }
  }

  lemma CountNonEmpty(kind: Kind, content: seq<Block>, id: string)
    ensures Count(kind, NonEmpty(content), id) == Count(kind, content, id)
  {
    assert [BLANK][..0] == [];
  }

  /** The uses and results of every id in every turn of the sanitised list. */
  lemma SanitizedCounts(messages: seq<Message>, i: int, id: string)
    ensures var ms, out := Merge(messages), Sanitize(messages);
      && UsesAt(out, i, id) == (if Matched(ms, i, id) then UsesAt(ms, i, id) else 0)
      && ResultsAt(out, i, id) == (if 0 <= i then Min(ResultsAt(ms, i, id), Room(ms, i, id)) else 0)
  {
    var ms, out := Merge(messages), Sanitize(messages);
    if 0 <= i < |ms| {
      var content := ms[i].content;
      assert out[i] == Clean(ms, i);
      if ms[i].role.User? {
        KeptResults(ms, i, content, id);
        CountNonEmpty(Result, KeepResults(ms, i, content), id);
      } else {
        KeptUses(ms, i, content, id);
        CountNonEmpty(Use, KeepUses(ms, i, content), id);
        CountedIds(Use, content, id);
      }
    }
  }

  lemma SanitizedUses(messages: seq<Message>, i: int, id: string)
    ensures UsesAt(Sanitize(messages), i, id) > 0 <==> Matched(Merge(messages), i, id)
  {
    SanitizedCounts(messages, i, id);
  }

  // ----- counting -----

  /** Each matched turn has its own next turn, so there are at least as many results as matched turns. */
  lemma {:induction false} MatchedAtMostResults(ms: seq<Message>, n: nat, id: string)
    requires n < |ms|
    ensures MatchedBefore(ms, n, id) <= ResultsBefore(ms, n + 1, id)
  {
    if n == 0 {
    } else {
      MatchedAtMostResults(ms, n - 1, id);
    }
  }

  lemma {:induction false} QuotaCovered(ms: seq<Message>, id: string)
    ensures Quota(ms, id) <= ResultsBefore(ms, |ms|, id)
  {
    if ms == [] {
    } else {
      MatchedAtMostResults(ms, |ms| - 1, id);
    }
  }

  /** One more turn: the counts of the sanitised list follow those of the merged one. */
  lemma KeptStep(ms: seq<Message>, out: seq<Message>, n: nat, id: string)
    requires n > 0 && (UsesAt(out, n - 1, id) > 0 <==> Matched(ms, n - 1, id))
    requires ResultsAt(out, n - 1, id) == Min(ResultsAt(ms, n - 1, id), Room(ms, n - 1, id))
    requires ResultsBefore(out, n - 1, id) == Min(ResultsBefore(ms, n - 1, id), Quota(ms, id))
    requires AssistantsUsing(out, n - 1, id) == MatchedBefore(ms, n - 1, id)
    ensures ResultsBefore(out, n, id) == Min(ResultsBefore(ms, n, id), Quota(ms, id))
    ensures AssistantsUsing(out, n, id) == MatchedBefore(ms, n, id)
  {
  }

  lemma {:induction false} KeptBefore(messages: seq<Message>, n: nat, id: string)
    ensures ResultsBefore(Sanitize(messages), n, id)
         == Min(ResultsBefore(Merge(messages), n, id), Quota(Merge(messages), id))
    ensures AssistantsUsing(Sanitize(messages), n, id) == MatchedBefore(Merge(messages), n, id)
  {
    if n == 0 {
    } else {
      var ms, out := Merge(messages), Sanitize(messages);
      KeptBefore(messages, n - 1, id);
      SanitizedCounts(messages, n - 1, id);
      KeptStep(ms, out, n, id);
    }
  }

  /**
   Conservation, for every list of turns and every id: exactly as many user
   results survive as there are assistant turns still using the id.
   */
  lemma ResultsKeptEqualTurnsUsing(messages: seq<Message>, id: string)
    ensures var out := Sanitize(messages);
      ResultsBefore(out, |out|, id) == AssistantsUsing(out, |out|, id)
  {
    KeptBefore(messages, |Merge(messages)|, id);
    QuotaCovered(Merge(messages), id);
  }

  // ----- exactly when every result answers the turn before it -----

  /** With no surplus among the first `j` turns, their results are the matched ones. */
  lemma {:induction false} ResultsWithoutSurplus(ms: seq<Message>, j: nat, id: string)
    requires j <= |ms|
    requires forall k :: 0 <= k < j ==> !Surplus(ms, k, id)
    ensures ResultsBefore(ms, j, id) == if j == 0 then 0 else MatchedBefore(ms, j - 1, id)
  {
    if j == 0 {
    } else {
      ResultsWithoutSurplus(ms, j - 1, id);
      assert !Surplus(ms, j - 1, id);
    }
  }

  lemma {:induction false} MatchedBeforeMonotone(ms: seq<Message>, a: nat, b: nat, id: string)
    requires a <= b
    ensures MatchedBefore(ms, a, id) <= MatchedBefore(ms, b, id)
    ensures (forall i :: a <= i < b ==> !Matched(ms, i, id)) ==> MatchedBefore(ms, a, id) == MatchedBefore(ms, b, id)
    ensures (exists i :: a <= i < b && Matched(ms, i, id)) ==> MatchedBefore(ms, a, id) < MatchedBefore(ms, b, id)
    decreases b
  {
    if a < b {
      MatchedBeforeMonotone(ms, a, b - 1, id);
    }
  }

  lemma {:induction false} FirstSurplus(ms: seq<Message>, j: nat, id: string) returns (k: nat)
    requires Surplus(ms, j, id)
    ensures k <= j && Surplus(ms, k, id)
    ensures forall l :: 0 <= l < k ==> !Surplus(ms, l, id)
    decreases j
  {
    if l :| 0 <= l < j && Surplus(ms, l, id) {
      k := FirstSurplus(ms, l, id);
    } else {
      k := j;
    }
  }

  /** What is kept in turn `j` when no surplus precedes a later match. */
  lemma KeptWithoutEarlySurplus(messages: seq<Message>, j: nat, id: string)
    requires NoEarlySurplus(Merge(messages)) && j < |Merge(messages)|
    ensures ResultsAt(Sanitize(messages), j, id) == MatchedAt(Merge(messages), j - 1, id)
  {
    var ms := Merge(messages);
    SanitizedCounts(messages, j, id);
    if k :| 0 <= k < j && Surplus(ms, k, id) {
      MatchedBeforeMonotone(ms, j - 1, |ms|, id);
      MatchedAtMostResults(ms, j - 1, id);
    } else {
      ResultsWithoutSurplus(ms, j, id);
      MatchedBeforeMonotone(ms, j, |ms|, id);
      assert Surplus(ms, j, id) ==> forall i :: j <= i < |ms| ==> !Matched(ms, i, id);
    }
  }

  /** The first surplus result takes the place of the result of a later match. */
  lemma KeptAtFirstSurplus(messages: seq<Message>, j: nat, i: nat, id: string)
    requires var ms := Merge(messages);
      Surplus(ms, j, id) && Matched(ms, i, id) && j <= i && forall l :: 0 <= l < j ==> !Surplus(ms, l, id)
    ensures ResultsAt(Sanitize(messages), j, id) > MatchedAt(Merge(messages), j - 1, id)
  {
    var ms := Merge(messages);
    SanitizedCounts(messages, j, id);
    ResultsWithoutSurplus(ms, j, id);
    MatchedBeforeMonotone(ms, j, |ms|, id);
  }

  /**
   Exactly when the sanitised list is properly answered: no orphan or duplicate
   result of an id may come before a matched pair of that id.
   */
  lemma AnsweredExactly(messages: seq<Message>)
    ensures Answered(Sanitize(messages)) <==> NoEarlySurplus(Merge(messages))
  {
    var ms, out := Merge(messages), Sanitize(messages);
    if NoEarlySurplus(ms) {
      forall id, j | 0 <= j <= |out|
        ensures ResultsAt(out, j, id) == if UsesAt(out, j - 1, id) > 0 then 1 else 0
      {
        SanitizedUses(messages, j - 1, id);
        if j < |out| {
          KeptWithoutEarlySurplus(messages, j, id);
        }
      }
    } else {
      var id, i, j :| Surplus(ms, j, id) && Matched(ms, i, id) && j <= i;
      var k: nat := FirstSurplus(ms, j, id);
      KeptAtFirstSurplus(messages, k, i, id);
      SanitizedUses(messages, k - 1, id);
      assert ResultsAt(out, k, id) != if UsesAt(out, k - 1, id) > 0 then 1 else 0;
    }
  }

  /** With paired turns, a repeated use in turn `i` makes results outnumber the turns using the id. */
  lemma {:induction false} RepeatedUseShows(out: seq<Message>, n: nat, i: int, id: string)
    requires Paired(out) && 1 <= n <= |out| && UsesAt(out, i, id) > 1
    ensures ResultsBefore(out, n, id) >= AssistantsUsing(out, n - 1, id) + (if i + 1 < n then 1 else 0)
    ensures n == |out| ==> i + 1 < n && AssistantsUsing(out, n, id) == AssistantsUsing(out, n - 1, id)
  {
    assert ResultsAt(out, |out|, id) == UsesAt(out, |out| - 1, id);
    if n > 1 {
      RepeatedUseShows(out, n - 1, i, id);
      assert ResultsAt(out, n - 1, id) == UsesAt(out, n - 2, id);
    }
  }

  /** Exactly when surviving uses and results are in one-to-one correspondence, turn by turn. */
  lemma PairedExactly(messages: seq<Message>)
    ensures Paired(Sanitize(messages)) <==> NoEarlySurplus(Merge(messages)) && NoRepeatedMatchedUse(Merge(messages))
  {
    var ms, out := Merge(messages), Sanitize(messages);
    AnsweredExactly(messages);
    if NoEarlySurplus(ms) && NoRepeatedMatchedUse(ms) {
      forall id, j | 0 <= j <= |out| ensures ResultsAt(out, j, id) == UsesAt(out, j - 1, id) {
        SanitizedCounts(messages, j - 1, id);
        assert ResultsAt(out, j, id) == if UsesAt(out, j - 1, id) > 0 then 1 else 0;
      }
    }
    if Paired(out) {
      forall id, i | UsesAt(out, i, id) > 0 ensures UsesAt(out, i, id) == 1 {
        ResultsKeptEqualTurnsUsing(messages, id);
        if UsesAt(out, i, id) > 1 {
          RepeatedUseShows(out, |out|, i, id);
        }
      }
      forall id, i | Matched(ms, i, id) ensures UsesAt(ms, i, id) == 1 {
        SanitizedCounts(messages, i, id);
      }
      assert Answered(out);
    }
  }
}
