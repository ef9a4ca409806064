/**
 A valid history reaches Bedrock complete: each tool call is a use, each answer a result in the
 turn right after it, and nothing is pruned.
 */
module BedrockLossless {
  import opened JsText
  import opened BedrockMessages
  import opened BedrockPairing
  import opened BedrockIdempotence
  import opened BedrockConverter
  import opened BedrockUniqueIds
  import opened BedrockValidHistory

  // ----- merging -----

  lemma {:induction false} MergeFromConcat(acc: seq<Message>, a: seq<Message>, b: seq<Message>)
    ensures MergeFrom(acc, a + b) == MergeFrom(MergeFrom(acc, a), b)
    decreases |a|
  {
    if a == [] {
      assert a + b == b;
    } else {
      assert (a + b)[1..] == a[1..] + b;
      MergeFromConcat(MergeInto(acc, a[0]), a[1..], b);
    }
  }

  lemma MergeFromOne(acc: seq<Message>, m: Message)
    ensures MergeFrom(acc, [m]) == MergeInto(acc, m)
  {
    assert [m][1..] == [];
  }

  ghost predicate EndsOpen(acc: seq<Message>) {
    acc == [] || !IsToolResultOnly(acc[|acc| - 1])
  }

  /** The trimmed id of an answer is still an id after trimming. */
  lemma TrimmedIdCounts(id: Option<string>)
    ensures NormalizeOptional(id).Some? ==> NormalizeToolUseId(NormalizeOptional(id).value) == NormalizeOptional(id)
  {
    if id.Some? {
      TrimIs(id.value);
      TrimIs(Trim(id.value));
    }
  }

  lemma ResultsAreResults(answers: seq<OpenAIMessage>)
    requires forall a :: a in answers ==> IsAnswer(a)
    ensures forall b :: b in ResultsOf(answers) ==> IdOf(Result, b).Some?
  {
    forall b | b in ResultsOf(answers) ensures IdOf(Result, b).Some? {
      var i :| 0 <= i < |answers| && ResultsOf(answers)[i] == b;
      assert answers[i] in answers;
      TrimmedIdCounts(answers[i].toolCallId);
    }
  }

  lemma ResultJoins(acc: seq<Message>, content: seq<Block>, b: Block)
    requires content != [] && IdOf(Result, b).Some? && forall c :: c in content ==> IdOf(Result, c).Some?
    ensures MergeInto(acc + [Message(User, content)], Message(User, [b])) == acc + [Message(User, content + [b])]
  {
  }

  lemma OneMoreSingle(acc: seq<Message>, singles: seq<Message>, content: seq<Block>, b: Block)
    requires MergeFrom(acc, singles) == acc + [Message(User, content)]
    requires content != [] && IdOf(Result, b).Some? && forall c :: c in content ==> IdOf(Result, c).Some?
    ensures MergeFrom(acc, singles + [Message(User, [b])]) == acc + [Message(User, content + [b])]
  {
    MergeFromConcat(acc, singles, [Message(User, [b])]);
    MergeFromOne(acc + [Message(User, content)], Message(User, [b]));
    ResultJoins(acc, content, b);
  }

  lemma ResultOpens(acc: seq<Message>, b: Block)
    requires EndsOpen(acc)
    ensures MergeInto(acc, Message(User, [b])) == acc + [Message(User, [b])]
  {
  }

  /** The answers of an exchange end up in one turn. */
  lemma {:induction false} SinglesMerged(acc: seq<Message>, answers: seq<OpenAIMessage>, n: nat)
    requires EndsOpen(acc) && 1 <= n <= |answers| && forall a :: a in answers ==> IsAnswer(a)
    ensures MergeFrom(acc, Singles(answers)[..n]) == acc + [Message(User, ResultsOf(answers)[..n])]
  {
    var singles, results := Singles(answers), ResultsOf(answers);
    var b := results[n - 1];
    ResultsAreResults(answers);
    assert b in results && singles[n - 1] == Message(User, [b]);
    if n == 1 {
      assert singles[..1] == [Message(User, [b])] && results[..1] == [b];
      MergeFromOne(acc, Message(User, [b]));
      ResultOpens(acc, b);
    } else {
      SinglesMerged(acc, answers, n - 1);
      TakeSnoc([], singles, n);
      TakeSnoc([], results, n);
      forall c | c in results[..n - 1] ensures IdOf(Result, c).Some? {
        assert c in results;
      }
      OneMoreSingle(acc, singles[..n - 1], results[..n - 1], b);
    }
  }

  // ----- what plain content holds -----

  lemma {:induction false} PlainBlocksHaveNoIds(parts: seq<Part>)
    requires forall p :: p in parts ==> IsPlainPart(p)
    ensures forall b, kind :: b in PlainBlocks(parts) ==> IdOf(kind, b).None?
  {
    if parts == [] {
    } else {
      assert parts[|parts| - 1] in parts && forall p :: p in parts[..|parts| - 1] ==> p in parts;
      PlainBlocksHaveNoIds(parts[..|parts| - 1]);
    }
  }

  lemma OwnBlocksHaveNoIds(c: Content)
    requires IsPlain(c)
    ensures forall b, kind :: b in NonEmpty(OwnBlocks(c)) ==> IdOf(kind, b).None?
    ensures forall b, kind :: b in OwnBlocks(c) ==> IdOf(kind, b).None?
  {
    if c.Parts? { PlainBlocksHaveNoIds(c.parts); }
  }

  lemma {:induction false} NoIdsNoCount(kind: Kind, blocks: seq<Block>, id: string)
    requires forall b :: b in blocks ==> IdOf(kind, b).None?
    ensures Count(kind, blocks, id) == 0
  {
    CountedIds(kind, blocks, id);
  }

  // ----- the turns of an exchange -----

  lemma RemarkMerged(acc: seq<Message>, m: OpenAIMessage)
    requires IsValid(Remark(m))
    ensures MergeFrom(acc, RawTurnsOf(Remark(m))) == acc + TurnsOf(Remark(m)) && EndsOpen(acc + TurnsOf(Remark(m)))
  {
    var turn := TurnsOf(Remark(m))[0];
    OwnBlocksHaveNoIds(m.content);
    assert turn.content[0] in turn.content;
    MergeFromOne(acc, turn);
    assert RawTurnsOf(Remark(m)) == [turn] == TurnsOf(Remark(m));
  }

  lemma AnswersCome(x: Exchange)
    requires x.Calls? && IsValid(x)
    ensures x.answers != []
  {
    assert |multiset(AnsweredIds(x.answers))| == |multiset(IdsOf(x.message.toolCalls))|;
  }

  lemma CallsMerged(acc: seq<Message>, x: Exchange)
    requires x.Calls? && IsValid(x)
    ensures MergeFrom(acc, RawTurnsOf(x)) == acc + TurnsOf(x)
  {
    var first := TurnsOf(x)[0];
    AnswersCome(x);
    MergeFromConcat(acc, [first], Singles(x.answers));
    MergeFromOne(acc, first);
    SinglesMerged(acc + [first], x.answers, |x.answers|);
    assert Singles(x.answers)[..|x.answers|] == Singles(x.answers);
    assert ResultsOf(x.answers)[..|x.answers|] == ResultsOf(x.answers);
    assert acc + [first] + [Message(User, ResultsOf(x.answers))] == acc + TurnsOf(x);
  }

  lemma ExchangeMerged(acc: seq<Message>, x: Exchange)
    requires IsValid(x)
    ensures MergeFrom(acc, RawTurnsOf(x)) == acc + TurnsOf(x)
  {
    match x
    case Skipped(_) => assert acc + [] == acc;
    case Remark(m) => RemarkMerged(acc, m);
    case Calls(_, _) => CallsMerged(acc, x);
  }

  lemma {:induction false} HistoryMerged(xs: seq<Exchange>)
    requires forall x :: x in xs ==> IsValid(x)
    ensures Merge(RawTurns(xs)) == AllTurns(xs)
  {
    if xs == [] {
    } else {
      var init, x := xs[..|xs| - 1], xs[|xs| - 1];
      assert x in xs && forall y :: y in init ==> y in xs;
      HistoryMerged(init);
      MergeFromConcat([], RawTurns(init), RawTurnsOf(x));
      ExchangeMerged(AllTurns(init), x);
    }
  }

  // ----- every result answers the turn before it -----

  /** How often `x` occurs. */
  function Times<T(==)>(s: seq<T>, x: T): nat {
    if s == [] then 0 else Times(s[..|s| - 1], x) + (if s[|s| - 1] == x then 1 else 0)
  }

  lemma {:induction false} TimesIsMultiplicity<T>(s: seq<T>, x: T)
    ensures Times(s, x) == multiset(s)[x]
  {
    if s == [] {
    } else {
      TimesIsMultiplicity(s[..|s| - 1], x);
      assert s == s[..|s| - 1] + [s[|s| - 1]];
    }
  }

  lemma {:induction false} UsesCount(calls: seq<ToolCall>, id: string, n: nat)
    requires None !in IdsOf(calls) && n <= |calls|
    ensures Count(Use, UsesOf(calls)[..n], id) == Times(IdsOf(calls)[..n], Some(id))
  {
    if n == 0 {
    } else {
      var uses, ids := UsesOf(calls), IdsOf(calls);
      assert ids[n - 1] == NormalizeOptional(calls[n - 1].id) && ids[n - 1] in ids;
      UsesCount(calls, id, n - 1);
      assert uses[..n][..n - 1] == uses[..n - 1] && ids[..n][..n - 1] == ids[..n - 1];
      TrimmedIdCounts(calls[n - 1].id);
    }
  }

  lemma {:induction false} ResultsCount(answers: seq<OpenAIMessage>, id: string, n: nat)
    requires n <= |answers| && forall a :: a in answers ==> IsAnswer(a)
    ensures Count(Result, ResultsOf(answers)[..n], id) == Times(AnsweredIds(answers)[..n], Some(id))
  {
    if n == 0 {
    } else {
      var results, ids := ResultsOf(answers), AnsweredIds(answers);
      assert answers[n - 1] in answers;
      ResultsCount(answers, id, n - 1);
      assert results[..n][..n - 1] == results[..n - 1] && ids[..n][..n - 1] == ids[..n - 1];
      TrimmedIdCounts(answers[n - 1].toolCallId);
    }
  }

  lemma {:induction false} AtMostOnce<T>(s: seq<T>, x: T)
    requires NoDuplicates(s)
    ensures Times(s, x) <= 1 && (x !in s ==> Times(s, x) == 0)
  {
    if s == [] {
    } else {
      var n := |s| - 1;
      AtMostOnce(s[..n], x);
      assert s[n] !in s[..n];
    }
  }

  /** The calls of an exchange and its answers, counted. */
  lemma CallsAnswered(x: Exchange, id: string)
    requires x.Calls? && IsValid(x)
    ensures var uses := Count(Use, TurnsOf(x)[0].content, id);
      uses <= 1 && Count(Result, TurnsOf(x)[1].content, id) == uses
  {
    var calls, own := x.message.toolCalls, OwnBlocks(x.message.content);
    OwnBlocksHaveNoIds(x.message.content);
    NoIdsNoCount(Use, own, id);
    CountConcat(Use, own, UsesOf(calls), id);
    UsesCount(calls, id, |calls|);
    ResultsCount(x.answers, id, |x.answers|);
    assert UsesOf(calls)[..|calls|] == UsesOf(calls) && IdsOf(calls)[..|calls|] == IdsOf(calls);
    assert ResultsOf(x.answers)[..|x.answers|] == ResultsOf(x.answers)
        && AnsweredIds(x.answers)[..|x.answers|] == AnsweredIds(x.answers);
    TimesIsMultiplicity(IdsOf(calls), Some(id));
    TimesIsMultiplicity(AnsweredIds(x.answers), Some(id));
    AtMostOnce(IdsOf(calls), Some(id));
  }

  /** Answered turns of which the last uses nothing. */
  ghost predicate Complete(ts: seq<Message>) {
    var last := |ts| - 1;
    Answered(ts) && forall id :: UsesAt(ts, last, id) == 0
  }

  lemma SameBefore(ts: seq<Message>, more: seq<Message>, j: int, id: string)
    requires j < |ts|
    ensures UsesAt(ts + more, j, id) == UsesAt(ts, j, id) && ResultsAt(ts + more, j, id) == ResultsAt(ts, j, id)
  {
  }

  /** A turn without tools keeps the list complete. */
  lemma AppendPlain(ts: seq<Message>, t: Message)
    requires Complete(ts) && forall b, kind :: b in t.content ==> IdOf(kind, b).None?
    ensures Complete(ts + [t])
  {
    var all, n := ts + [t], |ts|;
    forall id ensures UsesAt(all, n, id) == 0 && ResultsAt(all, n, id) == 0 {
      NoIdsNoCount(Use, t.content, id);
      NoIdsNoCount(Result, t.content, id);
    }
    forall id, j | 0 <= j <= n + 1 ensures ResultsAt(all, j, id) == if UsesAt(all, j - 1, id) > 0 then 1 else 0 {
      if j <= n { SameBefore(ts, [t], j - 1, id); }
      if j < n { SameBefore(ts, [t], j, id); }
    }
  }

  /** So does a turn of uses with the turn of their results. */
  lemma AppendPair(ts: seq<Message>, a: Message, u: Message)
    requires Complete(ts) && a.role.Assistant? && u.role.User?
    requires forall id :: Count(Result, u.content, id) == Count(Use, a.content, id) <= 1
    ensures Complete(ts + [a, u])
  {
    var all, n := ts + [a, u], |ts|;
    assert all[n] == a && all[n + 1] == u;
    forall id, j | 0 <= j <= n + 2 ensures ResultsAt(all, j, id) == if UsesAt(all, j - 1, id) > 0 then 1 else 0 {
      if j <= n { SameBefore(ts, [a, u], j - 1, id); }
      if j < n { SameBefore(ts, [a, u], j, id); }
      assert Count(Result, u.content, id) == Count(Use, a.content, id);
    }
  }

  lemma ExchangeIsComplete(ts: seq<Message>, x: Exchange)
    requires Complete(ts) && IsValid(x)
    ensures Complete(ts + TurnsOf(x))
  {
    match x
    case Skipped(_) => assert ts + [] == ts;
    case Remark(m) =>
      OwnBlocksHaveNoIds(m.content);
      AppendPlain(ts, TurnsOf(x)[0]);
      assert TurnsOf(x) == [TurnsOf(x)[0]];
    case Calls(_, _) =>
      forall id { CallsAnswered(x, id); }
      AppendPair(ts, TurnsOf(x)[0], TurnsOf(x)[1]);
      assert TurnsOf(x) == [TurnsOf(x)[0], TurnsOf(x)[1]];
  }

  lemma {:induction false} TurnsAreComplete(xs: seq<Exchange>)
    requires forall x :: x in xs ==> IsValid(x)
    ensures Complete(AllTurns(xs)) && NoEmptyTurn(AllTurns(xs))
  {
    if xs == [] {
    } else {
      var init, x := xs[..|xs| - 1], xs[|xs| - 1];
      assert x in xs && forall y :: y in init ==> y in xs;
      TurnsAreComplete(init);
      ExchangeIsComplete(AllTurns(init), x);
      if x.Calls? {
        AnswersCome(x);
        assert |UsesOf(x.message.toolCalls)| > 0 && |ResultsOf(x.answers)| > 0;
      }
    }
  }

  // ----- the whole conversion -----

  lemma {:induction false} HistoryHolds(xs: seq<Exchange>, x: Exchange)
    requires x in xs
    ensures forall m :: m in MessagesOf(x) ==> m in History(xs)
  {
    if x != xs[|xs| - 1] {
      HistoryHolds(xs[..|xs| - 1], x);
    }
  }

  lemma AnswersAreKnown(xs: seq<Exchange>, x: Exchange, answered: set<string>)
    requires x in xs && IsValid(x) && answered == set m, id | m in History(xs) && id in OwnAnswers(m) :: id
    ensures Known(x, answered)
  {
    HistoryHolds(xs, x);
    if x.Calls? {
      forall id | id in SomeIds(AnsweredIds(x.answers)) ensures id in answered {
        var i :| 0 <= i < |AnsweredIds(x.answers)| && AnsweredIds(x.answers)[i] == Some(id);
        var a := x.answers[i];
        assert a in x.answers && a in MessagesOf(x);
        assert a in History(xs) && id in OwnAnswers(a);
      }
    }
  }

  lemma CompleteIsClean(ts: seq<Message>)
    requires Complete(ts) && NoEmptyTurn(ts)
    ensures forall i :: 0 <= i < |ts| ==> Clean(ts, i) == ts[i]
  {
    forall i | 0 <= i < |ts| ensures Clean(ts, i) == ts[i] {
      assert ts[i] in ts;
      AnsweredTurnIsClean(ts, i);
    }
  }

  /**
   Of a valid history nothing is lost: the turns are those of its exchanges, with every call as a
   use and all its answers as the results of the next turn. An empty one becomes one blank turn.
   */
  lemma ValidHistoryIsKept(xs: seq<Exchange>, uuid: nat -> string)
    requires forall x :: x in xs ==> IsValid(x)
    ensures Sanitize(Convert(History(xs), uuid)) == if AllTurns(xs) == [] then [Message(User, [BLANK])]
        else AllTurns(xs)
  {
    var answered := set m, id | m in History(xs) && id in OwnAnswers(m) :: id;
    forall x | x in xs ensures Known(x, answered) {
      AnswersAreKnown(xs, x, answered);
    }
    HistoryConverted(xs, Ids({}, answered, 0), uuid);
    HistoryMerged(xs);
    TurnsAreComplete(xs);
    MergeShape(RawTurns(xs));
    if RawTurns(xs) == [] {
      AppendPlain([], Message(User, [BLANK]));
      assert [] + [Message(User, [BLANK])] == [Message(User, [BLANK])];
      MergeFromOne([], Message(User, [BLANK]));
      CompleteIsClean([Message(User, [BLANK])]);
    } else {
      CompleteIsClean(AllTurns(xs));
    }
  }
}
