/**
 The ordinary case: every tool id is used by one tool use only, and no result
 comes before that use. Then the sanitised list is paired and stable.
 */
module BedrockUniqueIds {
  import opened BedrockMessages
  import opened BedrockPairing
  import opened BedrockIdempotence

  ghost predicate UniqueIds(ms: seq<Message>) {
    && (forall id, i, j :: UsesAt(ms, i, id) > 0 && UsesAt(ms, j, id) > 0 ==> i == j && UsesAt(ms, i, id) == 1)
    && (forall id, i, j :: UsesAt(ms, i, id) > 0 && ResultsAt(ms, j, id) > 0 ==> i < j)
  }

  lemma {:induction false} CountConcat(kind: Kind, a: seq<Block>, b: seq<Block>, id: string)
    ensures Count(kind, a + b, id) == Count(kind, a, id) + Count(kind, b, id)
  {
    if b == [] {
      assert a + b == a;
    } else {
      assert (a + b)[..|a + b| - 1] == a + b[..|b| - 1];
      CountConcat(kind, a, b[..|b| - 1], id);
    }
  }

  /** Where a turn of `MergeInto(acc, m) + rest` was before the merge. */
  function Origin(acc: seq<Message>, i: int): int {
    if i < |acc| then i else i + 1
  }

  lemma MergedCounts(acc: seq<Message>, m: Message, rest: seq<Message>, i: int, id: string)
    requires |MergeInto(acc, m)| == |acc|
    ensures var before, after := acc + [m] + rest, MergeInto(acc, m) + rest;
      && UsesAt(after, i, id) == UsesAt(before, Origin(acc, i), id)
      && ResultsAt(after, i, id) == ResultsAt(before, Origin(acc, i), id)
           + (if i == |acc| - 1 then ResultsAt(before, |acc|, id) else 0)
  {
    var before, after := acc + [m] + rest, MergeInto(acc, m) + rest;
    assert before[|acc|] == m && before[|acc| - 1] == acc[|acc| - 1];
    if i == |acc| - 1 {
      CountConcat(Result, acc[i].content, m.content, id);
    } else if 0 <= i < |acc| {
      assert after[i] == before[i];
    } else if |acc| <= i < |after| {
      assert after[i] == before[i + 1];
    }
  }

  lemma MergeIntoUnique(acc: seq<Message>, m: Message, rest: seq<Message>)
    requires UniqueIds(acc + [m] + rest)
    ensures UniqueIds(MergeInto(acc, m) + rest)
  {
    var before, after := acc + [m] + rest, MergeInto(acc, m) + rest;
    if |MergeInto(acc, m)| == |acc| {
      forall id, i, j | UsesAt(after, i, id) > 0 && UsesAt(after, j, id) > 0
        ensures i == j && UsesAt(after, i, id) == 1
      {
        MergedCounts(acc, m, rest, i, id);
        MergedCounts(acc, m, rest, j, id);
      }
      forall id, i, j | UsesAt(after, i, id) > 0 && ResultsAt(after, j, id) > 0 ensures i < j {
        MergedCounts(acc, m, rest, i, id);
        MergedCounts(acc, m, rest, j, id);
        assert acc[|acc| - 1].role.User? && before[|acc| - 1] == acc[|acc| - 1] && before[|acc|] == m;
      }
    }
  }

  lemma {:induction false} MergeFromUnique(acc: seq<Message>, ms: seq<Message>)
    requires UniqueIds(acc + ms)
    ensures UniqueIds(MergeFrom(acc, ms))
    decreases |ms|
  {
    if ms == [] {
      assert acc + ms == acc;
    } else {
      assert acc + [ms[0]] + ms[1..] == acc + ms;
      MergeIntoUnique(acc, ms[0], ms[1..]);
      MergeFromUnique(MergeInto(acc, ms[0]), ms[1..]);
    }
  }

  /**
   With unique ids, uses and results end up in one-to-one correspondence, each
   result in the turn right after its use, and sanitising again changes nothing.
   */
  lemma UniqueIdsPair(messages: seq<Message>)
    requires UniqueIds(messages)
    ensures Paired(Sanitize(messages))
    ensures Sanitize(Sanitize(messages)) == Sanitize(messages)
  {
    var ms := Merge(messages);
    assert [] + messages == messages;
    MergeFromUnique([], messages);
    forall id, i, j | Surplus(ms, j, id) && Matched(ms, i, id) ensures i < j {}
    PairedExactly(messages);
    IdempotentExactly(messages);
  }
}
