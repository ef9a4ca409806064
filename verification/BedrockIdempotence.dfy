/**
 The shape of the sanitised list, what sanitising leaves alone, and exactly when
 sanitising again changes nothing.
 */
module BedrockIdempotence {
  import opened BedrockMessages
  import opened BedrockPairing

  ghost predicate NoAdjacentResultTurns(ms: seq<Message>) {
    forall i :: 0 <= i && i + 1 < |ms| ==> !(IsToolResultOnly(ms[i]) && IsToolResultOnly(ms[i + 1]))
  }

  ghost predicate NoEmptyTurn(ms: seq<Message>) {
    forall m :: m in ms ==> m.content != []
  }

  function Tag(role: Role, content: seq<Block>): seq<(Role, Block)> {
    seq(|content|, i requires 0 <= i < |content| => (role, content[i]))
  }

  /** All blocks in order, each with the role of its turn. */
  function Flatten(ms: seq<Message>): seq<(Role, Block)> {
    if ms == [] then [] else Flatten(ms[..|ms| - 1]) + Tag(ms[|ms| - 1].role, ms[|ms| - 1].content)
  }

  lemma TagConcat(role: Role, a: seq<Block>, b: seq<Block>)
    ensures Tag(role, a + b) == Tag(role, a) + Tag(role, b)
  {
  }

  lemma FlattenSnoc(ms: seq<Message>, m: Message)
    ensures Flatten(ms + [m]) == Flatten(ms) + Tag(m.role, m.content)
  {
    assert (ms + [m])[..|ms|] == ms;
  }

  // ----- merging -----

  lemma MergeIntoFlattens(acc: seq<Message>, m: Message)
    ensures Flatten(MergeInto(acc, m)) == Flatten(acc) + Tag(m.role, m.content)
  {
    if |MergeInto(acc, m)| == |acc| {
      var init, last := acc[..|acc| - 1], acc[|acc| - 1];
      assert MergeInto(acc, m) == init + [Message(User, last.content + m.content)];
      FlattenSnoc(init, Message(User, last.content + m.content));
      TagConcat(User, last.content, m.content);
    } else {
      FlattenSnoc(acc, m);
    }
  }

  lemma Regroup<T>(x: seq<T>, y: seq<T>, z: seq<T>)
    ensures x + y + z == x + (y + z)
  {
  }

  lemma {:induction false} FlattenConcat(a: seq<Message>, b: seq<Message>)
    ensures Flatten(a + b) == Flatten(a) + Flatten(b)
  {
    if b == [] {
      assert a + b == a;
    } else {
      var init, m := b[..|b| - 1], b[|b| - 1];
      var tail := Tag(m.role, m.content);
      FlattenConcat(a, init);
      FlattenSnoc(a + init, m);
      FlattenSnoc(init, m);
      Regroup(a, init, [m]);
      Regroup(Flatten(a), Flatten(init), tail);
      assert init + [m] == b;
    }
  }

  lemma MergeIntoShape(acc: seq<Message>, m: Message)
    requires NoAdjacentResultTurns(acc)
    ensures NoAdjacentResultTurns(MergeInto(acc, m))
    ensures NoEmptyTurn(acc) && m.content != [] ==> NoEmptyTurn(MergeInto(acc, m))
    ensures MergeInto(acc, m) != []
  {
  }

  lemma {:induction false} MergeFromShape(acc: seq<Message>, ms: seq<Message>)
    requires NoAdjacentResultTurns(acc)
    ensures NoAdjacentResultTurns(MergeFrom(acc, ms))
    ensures NoEmptyTurn(acc) && NoEmptyTurn(ms) ==> NoEmptyTurn(MergeFrom(acc, ms))
    ensures acc != [] || ms != [] ==> MergeFrom(acc, ms) != []
    decreases |ms|
  {
    if ms == [] {
    } else {
      MergeIntoShape(acc, ms[0]);
      MergeFromShape(MergeInto(acc, ms[0]), ms[1..]);
    }
  }

  lemma FlattenCons(m: Message, rest: seq<Message>)
    ensures Flatten([m] + rest) == Tag(m.role, m.content) + Flatten(rest)
  {
    FlattenConcat([m], rest);
    FlattenSnoc([], m);
    assert [] + [m] == [m] && [] + Tag(m.role, m.content) == Tag(m.role, m.content);
  }

  lemma {:induction false} MergeFromFlattens(acc: seq<Message>, ms: seq<Message>)
    ensures Flatten(MergeFrom(acc, ms)) == Flatten(acc) + Flatten(ms)
    decreases |ms|
  {
    if ms == [] {
    } else {
      var m, rest := ms[0], ms[1..];
      MergeIntoFlattens(acc, m);
      MergeFromFlattens(MergeInto(acc, m), rest);
      FlattenCons(m, rest);
      assert ms == [m] + rest;
      Regroup(Flatten(acc), Tag(m.role, m.content), Flatten(rest));
    }
  }

  /** Merging loses, adds and reorders nothing, and leaves no two tool-result-only turns side by side. */
  lemma MergeShape(ms: seq<Message>)
    ensures NoAdjacentResultTurns(Merge(ms)) && Flatten(Merge(ms)) == Flatten(ms)
    ensures NoEmptyTurn(ms) ==> NoEmptyTurn(Merge(ms))
    ensures ms != [] ==> Merge(ms) != []
  {
    MergeFromShape([], ms);
    MergeFromFlattens([], ms);
  }

  lemma {:induction false} MergeFromKeeps(acc: seq<Message>, ms: seq<Message>)
    requires NoAdjacentResultTurns(acc + ms)
    ensures MergeFrom(acc, ms) == acc + ms
    decreases |ms|
  {
    if ms == [] {
    } else {
      assert acc != [] ==> (acc + ms)[|acc| - 1] == acc[|acc| - 1];
      assert (acc + ms)[|acc|] == ms[0];
      assert acc + [ms[0]] + ms[1..] == acc + ms;
      MergeFromKeeps(acc + [ms[0]], ms[1..]);
    }
  }

  // ----- what sanitising leaves alone -----

  /** The blocks a pass over the given kind never touches. */
  function Others(kind: Kind, blocks: seq<Block>): seq<Block> {
    if blocks == [] then []
    else
      var b := blocks[|blocks| - 1];
      Others(kind, blocks[..|blocks| - 1]) + (if IdOf(kind, b).None? then [b] else [])
  }

  function KindOf(role: Role): Kind {
    if role.User? then Result else Use
  }

  lemma OthersSnoc(kind: Kind, blocks: seq<Block>, b: Block)
    ensures Others(kind, blocks + [b]) == Others(kind, blocks) + (if IdOf(kind, b).None? then [b] else [])
    ensures Others(kind, blocks + []) == Others(kind, blocks)
  {
    assert (blocks + [b])[..|blocks|] == blocks;
    assert blocks + [] == blocks;
  }

  lemma {:induction false} OthersKept(ms: seq<Message>, i: nat, content: seq<Block>)
    ensures Others(Use, KeepUses(ms, i, content)) == Others(Use, content)
    ensures Others(Result, KeepResults(ms, i, content)) == Others(Result, content)
  {
    if content == [] {
    } else {
      var init, b := content[..|content| - 1], content[|content| - 1];
      OthersKept(ms, i, init);
      OthersSnoc(Use, KeepUses(ms, i, init), b);
      OthersSnoc(Result, KeepResults(ms, i, init), b);
    }
  }

  /**
   Sanitising keeps the merged turns and their roles, leaves every block but tool
   uses (of assistants) and tool results (of users) in place and in order, and adds
   nothing but the blank placeholder of a turn that would be empty.
   */
  lemma SanitizeTouchesOnlyTools(messages: seq<Message>, i: nat)
    requires i < |Merge(messages)|
    ensures var ms, out := Merge(messages), Sanitize(messages);
      && |out| == |ms| && out[i].role == ms[i].role
      && var kind := KindOf(ms[i].role);
         || Others(kind, out[i].content) == Others(kind, ms[i].content)
         || (out[i].content == [BLANK] && Others(kind, ms[i].content) == [])
  {
    var ms := Merge(messages);
    OthersKept(ms, i, ms[i].content);
  }

  lemma {:induction false} SubsetOfBlocks(ms: seq<Message>, i: nat, content: seq<Block>)
    ensures forall b :: b in KeepResults(ms, i, content) ==> b in content
    ensures forall b :: b in content && IdOf(Result, b).None? ==> b in KeepResults(ms, i, content)
  {
    if content == [] {
    } else {
      SubsetOfBlocks(ms, i, content[..|content| - 1]);
      assert content == content[..|content| - 1] + [content[|content| - 1]];
    }
  }

  lemma SanitizeKeepsResultTurnsApart(messages: seq<Message>)
    ensures NoAdjacentResultTurns(Sanitize(messages))
  {
    var ms, out := Merge(messages), Sanitize(messages);
    MergeShape(messages);
    forall i | 0 <= i < |out| && IsToolResultOnly(out[i]) ensures IsToolResultOnly(ms[i]) {
      SubsetOfBlocks(ms, i, ms[i].content);
      assert BLANK in [BLANK] && IdOf(Result, BLANK).None?;
    }
  }

  /** Non-empty turns stay non-empty, and no two adjacent turns hold tool results only. */
  lemma SanitizeShape(messages: seq<Message>)
    requires messages != [] && NoEmptyTurn(messages)
    ensures var out := Sanitize(messages);
      out != [] && NoEmptyTurn(out) && NoAdjacentResultTurns(out)
  {
    MergeShape(messages);
    SanitizeKeepsResultTurnsApart(messages);
  }

  // ----- exactly when sanitising twice is sanitising once -----

  lemma {:induction false} KeepAllUses(ms: seq<Message>, i: nat, content: seq<Block>)
    requires forall b :: b in content && IdOf(Use, b).Some? ==> Matched(ms, i, IdOf(Use, b).value)
    ensures KeepUses(ms, i, content) == content
  {
    if content == [] {
    } else {
      var b := content[|content| - 1];
      KeepAllUses(ms, i, content[..|content| - 1]);
      assert b in content;
      assert content == content[..|content| - 1] + [b];
    }
  }

  lemma {:induction false} KeepAllResults(ms: seq<Message>, i: nat, content: seq<Block>)
    requires forall id :: ResultsBefore(ms, i, id) + Count(Result, content, id) <= Quota(ms, id)
    ensures KeepResults(ms, i, content) == content
  {
    if content == [] {
    } else {
      var init, b := content[..|content| - 1], content[|content| - 1];
      var found := IdOf(Result, b);
      assert found.Some? ==> Count(Result, content, found.value) == Count(Result, init, found.value) + 1;
      forall id ensures ResultsBefore(ms, i, id) + Count(Result, init, id) <= Quota(ms, id) {
        assert Count(Result, init, id) <= Count(Result, content, id);
      }
      KeepAllResults(ms, i, init);
      assert content == init + [b];
    }
  }

  lemma {:induction false} ResultsBeforeMonotone(ms: seq<Message>, a: nat, b: nat, id: string)
    requires a <= b
    ensures ResultsBefore(ms, a, id) <= ResultsBefore(ms, b, id)
    decreases b
  {
    if a < b {
      ResultsBeforeMonotone(ms, a, b - 1, id);
    }
  }

  lemma {:induction false} AnsweredTurnsAreMatched(ms: seq<Message>, n: nat, id: string)
    requires Answered(ms)
    ensures forall i :: UsesAt(ms, i, id) > 0 ==> Matched(ms, i, id)
    ensures n <= |ms| ==> MatchedBefore(ms, n, id) == AssistantsUsing(ms, n, id)
  {
    forall i | UsesAt(ms, i, id) > 0 ensures Matched(ms, i, id) {
      assert ResultsAt(ms, i + 1, id) == if UsesAt(ms, i + 1 - 1, id) > 0 then 1 else 0;
    }
    if n == 0 {
    } else {
      AnsweredTurnsAreMatched(ms, n - 1, id);
    }
  }

  lemma {:induction false} AnsweredTotals(ms: seq<Message>, n: nat, id: string)
    requires Answered(ms) && n <= |ms|
    ensures ResultsBefore(ms, n, id) == AssistantsUsing(ms, if n > 0 then n - 1 else 0, id)
  {
    if n == 0 {
    } else {
      AnsweredTotals(ms, n - 1, id);
      assert ResultsAt(ms, n - 1, id) == if UsesAt(ms, n - 1 - 1, id) > 0 then 1 else 0;
    }
  }

  lemma AnsweredWithinQuota(ms: seq<Message>, i: nat, id: string)
    requires Answered(ms) && i < |ms|
    ensures ResultsBefore(ms, i, id) + ResultsAt(ms, i, id) <= Quota(ms, id)
  {
    assert ResultsBefore(ms, |ms|, id) <= AssistantsUsing(ms, |ms|, id) by {
      AnsweredTotals(ms, |ms|, id);
    }
    assert AssistantsUsing(ms, |ms|, id) == Quota(ms, id) by {
      AnsweredTurnsAreMatched(ms, |ms|, id);
    }
    ResultsBeforeMonotone(ms, i + 1, |ms|, id);
  }

  lemma AnsweredAssistantKept(out: seq<Message>, i: nat, content: seq<Block>)
    requires Answered(out) && i < |out| && out[i] == Message(Assistant, content)
    ensures KeepUses(out, i, content) == content
  {
    forall b | b in content && IdOf(Use, b).Some? ensures Matched(out, i, IdOf(Use, b).value) {
      CountedIds(Use, content, IdOf(Use, b).value);
      AnsweredTurnsAreMatched(out, |out|, IdOf(Use, b).value);
    }
    KeepAllUses(out, i, content);
  }

  /** Sanitising keeps a non-empty turn of an answered list as it is. */
  lemma AnsweredTurnIsClean(ms: seq<Message>, i: nat)
    requires Answered(ms) && i < |ms|
    requires ms[i].role.User? ==> ms[i].content != []
    ensures Clean(ms, i) == ms[i]
  {
    var content := ms[i].content;
    if ms[i].role.User? {
      forall id ensures ResultsBefore(ms, i, id) + Count(Result, content, id) <= Quota(ms, id) {
        AnsweredWithinQuota(ms, i, id);
      }
      KeepAllResults(ms, i, content);
    } else {
      AnsweredAssistantKept(ms, i, content);
    }
  }

  lemma SanitizedIsMerged(messages: seq<Message>)
    ensures Merge(Sanitize(messages)) == Sanitize(messages)
  {
    SanitizeKeepsResultTurnsApart(messages);
    assert [] + Sanitize(messages) == Sanitize(messages);
    MergeFromKeeps([], Sanitize(messages));
  }

  lemma AnsweredIsStable(messages: seq<Message>)
    requires Answered(Sanitize(messages))
    ensures Sanitize(Sanitize(messages)) == Sanitize(messages)
  {
    SanitizedIsMerged(messages);
    forall i | 0 <= i < |Sanitize(messages)| ensures Clean(Sanitize(messages), i) == Sanitize(messages)[i] {
      AnsweredTurnIsClean(Sanitize(messages), i);
    }
  }

  /** In a list sanitising leaves alone, each turn using an id is matched. */
  lemma {:induction false} StableCounts(out: seq<Message>, n: nat, j: int, id: string)
    requires forall i :: UsesAt(out, i, id) > 0 ==> Matched(out, i, id)
    requires n <= |out|
    ensures ResultsBefore(out, n, id) >= AssistantsUsing(out, if n > 0 then n - 1 else 0, id)
      + (if 0 <= j < n && Surplus(out, j, id) then 1 else 0)
    ensures n == |out| && n > 0 ==> AssistantsUsing(out, n, id) == AssistantsUsing(out, n - 1, id)
  {
    if n == 0 {
    } else {
      StableCounts(out, n - 1, j, id);
      assert UsesAt(out, n - 2, id) > 0 ==> Matched(out, n - 2, id);
    }
  }

  lemma StableUsesMatched(messages: seq<Message>, i: int, id: string)
    requires Sanitize(Sanitize(messages)) == Sanitize(messages)
    ensures UsesAt(Sanitize(messages), i, id) > 0 ==> Matched(Sanitize(messages), i, id)
  {
    SanitizedIsMerged(messages);
    SanitizedUses(Sanitize(messages), i, id);
  }

  lemma StableIsAnswered(messages: seq<Message>)
    requires Sanitize(Sanitize(messages)) == Sanitize(messages)
    ensures Answered(Sanitize(messages))
  {
    var out := Sanitize(messages);
    forall id, j | 0 <= j <= |out|
      ensures ResultsAt(out, j, id) == if UsesAt(out, j - 1, id) > 0 then 1 else 0
    {
      forall i | UsesAt(out, i, id) > 0 ensures Matched(out, i, id) {
        StableUsesMatched(messages, i, id);
      }
      StableCounts(out, |out|, j, id);
      ResultsKeptEqualTurnsUsing(messages, id);
    }
  }

  /** Exactly when sanitising again changes nothing. */
  lemma IdempotentExactly(messages: seq<Message>)
    ensures Sanitize(Sanitize(messages)) == Sanitize(messages) <==> NoEarlySurplus(Merge(messages))
  {
    AnsweredExactly(messages);
    if Answered(Sanitize(messages)) {
      AnsweredIsStable(messages);
    }
    if Sanitize(Sanitize(messages)) == Sanitize(messages) {
      StableIsAnswered(messages);
    }
  }

  /** A list is only merged, and otherwise left as it is, exactly when the merged turns are already answered. */
  lemma UntouchedExactly(messages: seq<Message>)
    requires NoEmptyTurn(messages)
    ensures Sanitize(messages) == Merge(messages) <==> Answered(Merge(messages))
  {
    var ms := Merge(messages);
    MergeShape(messages);
    if Answered(ms) {
      forall i | 0 <= i < |ms| ensures Clean(ms, i) == ms[i] {
        AnsweredTurnIsClean(ms, i);
      }
    }
    if Sanitize(messages) == ms {
      assert [] + ms == ms;
      MergeFromKeeps([], ms);
      StableIsAnswered(messages);
    }
  }
}
