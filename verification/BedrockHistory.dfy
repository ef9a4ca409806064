/**
 What the whole conversion gives for every OpenAI history, and a history on which
 its pairing breaks.
 */
module BedrockHistory {
  import opened JsText
  import opened BedrockMessages
  import opened BedrockPairing
  import opened BedrockIdempotence
  import opened BedrockConverter

  lemma {:induction false} ConvertFromShape(messages: seq<OpenAIMessage>, ids: Ids, uuid: nat -> string)
    ensures NoEmptyTurn(ConvertFrom(messages, ids, uuid).0)
  {
    if messages == [] {
    } else {
      ConvertFromShape(messages[..|messages| - 1], ids, uuid);
    }
  }

  /**
   Whatever the history, Bedrock gets at least one turn, no empty turn, and no two
   adjacent turns that hold tool results only; and for every tool id as many
   results as turns using it.
   */
  lemma ConversionIsAcceptable(messages: seq<OpenAIMessage>, uuid: nat -> string, id: string)
    ensures var out := Sanitize(Convert(messages, uuid));
      && out != [] && NoEmptyTurn(out) && NoAdjacentResultTurns(out)
      && ResultsBefore(out, |out|, id) == AssistantsUsing(out, |out|, id)
  {
    var answered := set m, id | m in messages && id in OwnAnswers(m) :: id;
    ConvertFromShape(messages, Ids({}, answered, 0), uuid);
    SanitizeShape(Convert(messages, uuid));
    ResultsKeptEqualTurnsUsing(Convert(messages, uuid), id);
  }

  function CallTurn(id: string): OpenAIMessage {
    OpenAIMessage("assistant", NoContent, [ToolCall(Some(id), "lookup", "{}")], None, "")
  }

  function AnswerTurn(id: string): OpenAIMessage {
    OpenAIMessage("tool", NoContent, [], Some(id), "done")
  }

  function RemarkTurn(remark: string): OpenAIMessage {
    OpenAIMessage("user", Str(remark), [], None, "")
  }

  /** A call and its answer, the same answer again after a remark, then the id reused for a call and its answer. */
  function ReusedIdHistory(id: string, remark: string): seq<OpenAIMessage> {
    [CallTurn(id), AnswerTurn(id), RemarkTurn(remark), AnswerTurn(id), CallTurn(id), AnswerTurn(id)]
  }

  function UseTurn(id: string): Message { Message(Assistant, [ToolUse(id, "lookup", "{}")]) }

  function ResultTurn(id: string): Message { Message(User, [ToolResult(id, "done", false)]) }

  function ReusedIdTurns(id: string, remark: string): seq<Message> {
    [UseTurn(id), ResultTurn(id), Message(User, [Text(remark)]), ResultTurn(id), UseTurn(id), ResultTurn(id)]
  }

  lemma ConvertSnoc(h: seq<OpenAIMessage>, m: OpenAIMessage, ids: Ids, uuid: nat -> string, out: seq<Message>,
                    ids': Ids)
    requires !IsSkipped(m) && ConvertFrom(h, ids, uuid) == (out, ids')
    ensures ConvertFrom(h + [m], ids, uuid) == (out + [ConvertOne(m, ids', uuid).0], ConvertOne(m, ids', uuid).1)
  {
    assert (h + [m])[..|h|] == h;
  }

  lemma ConvertTurns(id: string, remark: string, ids: Ids, uuid: nat -> string)
    requires NormalizeToolUseId(id) == Some(id) && Trim(remark) != "" && id in ids.answered && ids.pending == {}
    ensures ConvertOne(CallTurn(id), ids, uuid) == (UseTurn(id), ids.(pending := {id}))
    ensures ConvertOne(AnswerTurn(id), ids, uuid) == (ResultTurn(id), ids)
    ensures ConvertOne(AnswerTurn(id), ids.(pending := {id}), uuid) == (ResultTurn(id), ids)
    ensures ConvertOne(RemarkTurn(remark), ids, uuid) == (Message(User, [Text(remark)]), ids)
  {
    assert ids.answered + {id} == ids.answered && {id} - {id} == {} && ids.pending - {id} == {};
    var call := ToolCall(Some(id), "lookup", "{}");
    assert [call][..0] == [];
    assert AddCalls([], ids, [call], uuid) == AddCall([], ids, call, uuid);
    assert ids.pending + {id} == {id} && [] + [ToolUse(id, "lookup", "{}")] == [ToolUse(id, "lookup", "{}")];
    assert ids.(used := ids.used) == ids;
  }

  /** The first four turns of the history, and any history after them, converted from a given start. */
  lemma FirstFourConverted(id: string, remark: string, start: Ids, uuid: nat -> string)
    requires NormalizeToolUseId(id) == Some(id) && Trim(remark) != "" && id in start.answered && start.pending == {}
    ensures ConvertFrom(ReusedIdHistory(id, remark)[..4], start, uuid) == (ReusedIdTurns(id, remark)[..4], start)
  {
    var h, ts := ReusedIdHistory(id, remark), ReusedIdTurns(id, remark);
    var open := start.(pending := {id});
    ConvertTurns(id, remark, start, uuid);
    ConvertSnoc([], h[0], start, uuid, [], start);
    assert [] + [h[0]] == h[..1] && [] + [ts[0]] == ts[..1];
    ConvertSnoc(h[..1], h[1], start, uuid, ts[..1], open);
    assert h[..1] + [h[1]] == h[..2] && ts[..1] + [ts[1]] == ts[..2];
    ConvertSnoc(h[..2], h[2], start, uuid, ts[..2], start);
    assert h[..2] + [h[2]] == h[..3] && ts[..2] + [ts[2]] == ts[..3];
    ConvertSnoc(h[..3], h[3], start, uuid, ts[..3], start);
    assert h[..3] + [h[3]] == h[..4] && ts[..3] + [ts[3]] == ts[..4];
  }

  lemma AllConverted(id: string, remark: string, start: Ids, uuid: nat -> string)
    requires NormalizeToolUseId(id) == Some(id) && Trim(remark) != "" && id in start.answered && start.pending == {}
    ensures ConvertFrom(ReusedIdHistory(id, remark), start, uuid).0 == ReusedIdTurns(id, remark)
  {
    var h, ts := ReusedIdHistory(id, remark), ReusedIdTurns(id, remark);
    FirstFourConverted(id, remark, start, uuid);
    ConvertTurns(id, remark, start, uuid);
    ConvertSnoc(h[..4], h[4], start, uuid, ts[..4], start);
    assert h[..4] + [h[4]] == h[..5] && ts[..4] + [ts[4]] == ts[..5];
    ConvertSnoc(h[..5], h[5], start, uuid, ts[..5], start.(pending := {id}));
    assert h[..5] + [h[5]] == h && ts[..5] + [ts[5]] == ts;
  }

  lemma ReusedIdConverted(id: string, remark: string, uuid: nat -> string)
    requires NormalizeToolUseId(id) == Some(id) && Trim(remark) != ""
    ensures Convert(ReusedIdHistory(id, remark), uuid) == ReusedIdTurns(id, remark)
  {
    var h := ReusedIdHistory(id, remark);
    var answered := set m, x | m in h && x in OwnAnswers(m) :: x;
    assert h[1] in h && id in OwnAnswers(h[1]);
    AllConverted(id, remark, Ids({}, answered, 0), uuid);
  }

  lemma CountOfOne(kind: Kind, b: Block, id: string)
    ensures Count(kind, [b], id) == if IdOf(kind, b) == Some(id) then 1 else 0
  {
    assert [b][..0] == [];
  }

  lemma ReusedIdCounts(id: string, remark: string)
    requires NormalizeToolUseId(id) == Some(id)
    ensures var ms := ReusedIdTurns(id, remark);
      && UsesAt(ms, 4, id) == 1 && Matched(ms, 4, id) && Surplus(ms, 3, id)
      && UsesAt(ms, 0, id) == 1 && NoAdjacentResultTurns(ms)
      && ResultsAt(ms, 1, id) == ResultsAt(ms, 3, id) == ResultsAt(ms, 5, id) == 1 && ResultsAt(ms, 2, id) == 0
  {
    var ms := ReusedIdTurns(id, remark);
    CountOfOne(Use, ToolUse(id, "lookup", "{}"), id);
    CountOfOne(Result, ToolResult(id, "done", false), id);
    CountOfOne(Result, Text(remark), id);
    assert Text(remark) in ms[2].content && !IsToolResultOnly(ms[2]);
  }

  lemma ReusedIdQuota(id: string, remark: string)
    requires NormalizeToolUseId(id) == Some(id)
    ensures var ms := ReusedIdTurns(id, remark);
      Quota(ms, id) == 2 && ResultsBefore(ms, 3, id) == 1 && ResultsBefore(ms, 5, id) == 2
  {
    var ms := ReusedIdTurns(id, remark);
    ReusedIdCounts(id, remark);
    assert MatchedBefore(ms, 1, id) == 1;
    assert MatchedBefore(ms, 3, id) == 1;
    assert MatchedBefore(ms, 5, id) == 2;
    assert ResultsBefore(ms, 1, id) == 0;
    assert ResultsBefore(ms, 3, id) == 1;
  }

  /**
   Pairing does not hold for every history: here, for any id and remark, the stray
   second answer uses up the result the second call needs. The last turn is left
   blank and the call before it unanswered.
   */
  lemma ReusedIdBreaksPairing(id: string, remark: string, uuid: nat -> string)
    requires NormalizeToolUseId(id) == Some(id) && Trim(remark) != ""
    ensures var out := Sanitize(Convert(ReusedIdHistory(id, remark), uuid));
      && UsesAt(out, 4, id) == 1 && ResultsAt(out, 5, id) == 0 && ResultsAt(out, 3, id) == 1
      && !Answered(out)
  {
    var ms := ReusedIdTurns(id, remark);
    ReusedIdConverted(id, remark, uuid);
    ReusedIdCounts(id, remark);
    assert [] + ms == ms;
    MergeFromKeeps([], ms);
    AnsweredExactly(ms);
    SanitizedCounts(ms, 4, id);
    SanitizedCounts(ms, 3, id);
    SanitizedCounts(ms, 5, id);
    ReusedIdQuota(id, remark);
  }
}
