/**
 Histories as clients are meant to send them: every assistant message with tool calls is
 followed by one tool message for each call. Nothing of such a history is lost.
 */
module BedrockValidHistory {
  import opened JsText
  import opened BedrockMessages
  import opened BedrockIdempotence
  import opened BedrockConverter
  import opened BedrockHistory

  /** A message without tools, a skipped one, or tool calls with the messages that answer them. */
  datatype Exchange =
    | Remark(message: OpenAIMessage)
    | Skipped(message: OpenAIMessage)
    | Calls(message: OpenAIMessage, answers: seq<OpenAIMessage>)

  predicate IsPlainPart(p: Part) { !p.PartToolUse? && !p.PartToolResult? }

  predicate IsPlain(c: Content) { c.Parts? ==> forall p :: p in c.parts ==> IsPlainPart(p) }

  function IdsOf(calls: seq<ToolCall>): seq<Option<string>> {
    seq(|calls|, i requires 0 <= i < |calls| => NormalizeOptional(calls[i].id))
  }

  predicate IsAnswer(m: OpenAIMessage) {
    m.OpenAIMessage? && m.role == "tool" && NormalizeOptional(m.toolCallId).Some?
  }

  function AnsweredId(m: OpenAIMessage): Option<string> {
    if m.NotAnObject? then None else NormalizeOptional(m.toolCallId)
  }

  function AnsweredIds(answers: seq<OpenAIMessage>): seq<Option<string>> {
    seq(|answers|, i requires 0 <= i < |answers| => AnsweredId(answers[i]))
  }

  ghost predicate NoDuplicates<T>(s: seq<T>) {
    forall i, j :: 0 <= i < j < |s| ==> s[i] != s[j]
  }

  /** Calls have ids of their own, and are answered once each, in any order. */
  ghost predicate IsValid(x: Exchange) {
    match x
    case Skipped(m) => IsSkipped(m)
    case Remark(m) => !IsSkipped(m) && m.role != "tool" && m.toolCalls == [] && IsPlain(m.content)
    case Calls(m, answers) =>
      && !IsSkipped(m) && m.role == "assistant" && IsPlain(m.content) && m.toolCalls != []
      && None !in IdsOf(m.toolCalls) && NoDuplicates(IdsOf(m.toolCalls))
      && (forall a :: a in answers ==> IsAnswer(a))
      && multiset(AnsweredIds(answers)) == multiset(IdsOf(m.toolCalls))
  }

  function MessagesOf(x: Exchange): seq<OpenAIMessage> {
    match x
    case Remark(m) => [m]
    case Skipped(m) => [m]
    case Calls(m, answers) => [m] + answers
  }

  function History(xs: seq<Exchange>): seq<OpenAIMessage> {
    if xs == [] then [] else History(xs[..|xs| - 1]) + MessagesOf(xs[|xs| - 1])
  }

  // ----- what becomes of it -----

  /** Text is kept unless it is blank, an image unless it cannot be read. */
  function PlainBlock(p: Part): seq<Block> {
    match p
    case PartText(text) => if AllSpace(text) then [] else [Text(text)]
    case PartImage(Some((format, bytes))) => [Image(format, bytes)]
    case _ => []
  }

  function PlainBlocks(parts: seq<Part>): seq<Block> {
    if parts == [] then [] else PlainBlocks(parts[..|parts| - 1]) + PlainBlock(parts[|parts| - 1])
  }

  /** The text and images of a message. */
  function OwnBlocks(c: Content): seq<Block> {
    match c
    case Str(text) => if AllSpace(text) then [] else [Text(text)]
    case Parts(parts) => PlainBlocks(parts)
    case NoContent => []
  }

  function UseOf(call: ToolCall): Block {
    ToolUse(NormalizeOptional(call.id).GetOr(""), if call.name == "" then "unknown_tool" else call.name, call.input)
  }

  function UsesOf(calls: seq<ToolCall>): seq<Block> {
    seq(|calls|, i requires 0 <= i < |calls| => UseOf(calls[i]))
  }

  function ResultOf(a: OpenAIMessage): Block {
    ToolResult(AnsweredId(a).GetOr(""), if a.NotAnObject? then "" else a.result, false)
  }

  function ResultsOf(answers: seq<OpenAIMessage>): seq<Block> {
    seq(|answers|, i requires 0 <= i < |answers| => ResultOf(answers[i]))
  }

  /** The turns of an exchange: its calls as uses in one turn, and all their results in the next. */
  function TurnsOf(x: Exchange): seq<Message> {
    match x
    case Skipped(_) => []
    case Remark(m) => if m.NotAnObject? then [] else [Message(NormalizeRole(m.role), NonEmpty(OwnBlocks(m.content)))]
    case Calls(m, answers) =>
      if m.NotAnObject? then []
      else [Message(Assistant, OwnBlocks(m.content) + UsesOf(m.toolCalls)), Message(User, ResultsOf(answers))]
  }

  function AllTurns(xs: seq<Exchange>): seq<Message> {
    if xs == [] then [] else AllTurns(xs[..|xs| - 1]) + TurnsOf(xs[|xs| - 1])
  }

  // ----- conversion -----

  lemma {:induction false} PlainPartsConverted(parts: seq<Part>, skip: set<string>, answered: set<string>,
                                               uuid: nat -> string, used: nat)
    requires forall p :: p in parts ==> IsPlainPart(p)
    ensures PartsBlocks(parts, skip, answered, uuid, used) == (PlainBlocks(parts), used)
  {
    if parts == [] {
    } else {
      var init, p := parts[..|parts| - 1], parts[|parts| - 1];
      assert p in parts && forall q :: q in init ==> q in parts;
      PlainPartsConverted(init, skip, answered, uuid, used);
      if p.PartText? { NothingLeftExactly(p.text); }
    }
  }

  lemma PlainContentConverted(c: Content, skip: set<string>, answered: set<string>, uuid: nat -> string, used: nat)
    requires IsPlain(c)
    ensures ContentBlocks(c, skip, answered, uuid, used) == (OwnBlocks(c), used)
  {
    match c
    case Str(text) => NothingLeftExactly(text);
    case Parts(parts) => PlainPartsConverted(parts, skip, answered, uuid, used);
    case NoContent =>
  }

  function SomeIds(ids: seq<Option<string>>): set<string> {
    set i | 0 <= i < |ids| && ids[i].Some? :: ids[i].value
  }

  lemma SomeIdsSnoc(ids: seq<Option<string>>, id: string)
    ensures SomeIds(ids + [Some(id)]) == SomeIds(ids) + {id}
  {
    var all := ids + [Some(id)];
    assert all[|ids|] == Some(id);
    forall x ensures x in SomeIds(all) <==> x in SomeIds(ids) + {id} {
      if x in SomeIds(ids) {
        var i :| 0 <= i < |ids| && ids[i] == Some(x);
        assert all[i] == Some(x);
      }
      if x in SomeIds(all) {
        var i :| 0 <= i < |all| && all[i] == Some(x);
        assert i < |ids| ==> ids[i] == Some(x);
      }
    }
  }

  /** All calls of a message are added when nothing is pending. */
  lemma {:induction false} CallsAdded(content: seq<Block>, ids: Ids, calls: seq<ToolCall>, uuid: nat -> string)
    requires ids.pending == {} && None !in IdsOf(calls) && NoDuplicates(IdsOf(calls))
        && SomeIds(IdsOf(calls)) <= ids.answered
    ensures AddCalls(content, ids, calls, uuid) == (content + UsesOf(calls), ids.(pending := SomeIds(IdsOf(calls))))
  {
    if calls == [] {
      assert IdsOf(calls) == [] && SomeIds([]) == {} && UsesOf(calls) == [];
      assert content + [] == content && ids.(pending := {}) == ids;
    } else {
      var n := |calls| - 1;
      var init, call := calls[..n], calls[n];
      var id := NormalizeOptional(call.id);
      assert IdsOf(calls)[n] == id && id in IdsOf(calls);
      assert IdsOf(init) == IdsOf(calls)[..n];
      assert id.value in SomeIds(IdsOf(calls));
      CallsAdded(content, ids, init, uuid);
      assert id.value !in SomeIds(IdsOf(init));
      assert SomeIds(IdsOf(calls)) == SomeIds(IdsOf(init)) + {id.value};
      assert UsesOf(calls) == UsesOf(init) + [UseOf(call)];
      assert content + UsesOf(init) + [UseOf(call)] == content + (UsesOf(init) + [UseOf(call)]);
    }
  }

  // ----- the answers, one turn each before merging -----

  function Singles(answers: seq<OpenAIMessage>): seq<Message> {
    seq(|answers|, i requires 0 <= i < |answers| => Message(User, [ResultOf(answers[i])]))
  }

  function RawTurnsOf(x: Exchange): seq<Message> {
    if x.Calls? && TurnsOf(x) != [] then [TurnsOf(x)[0]] + Singles(x.answers) else TurnsOf(x)
  }

  function RawTurns(xs: seq<Exchange>): seq<Message> {
    if xs == [] then [] else RawTurns(xs[..|xs| - 1]) + RawTurnsOf(xs[|xs| - 1])
  }

  lemma TakeSnoc<T>(before: seq<T>, s: seq<T>, n: nat)
    requires 0 < n <= |s|
    ensures before + s[..n - 1] + [s[n - 1]] == before + s[..n]
    ensures s[..n - 1] + [s[n - 1]] == s[..n]
  {
  }

  lemma AnswerConverted(a: OpenAIMessage, ids: Ids, uuid: nat -> string)
    requires IsAnswer(a) && AnsweredId(a).value in ids.answered
    ensures ConvertOne(a, ids, uuid)
        == (Message(User, [ResultOf(a)]), ids.(pending := ids.pending - {AnsweredId(a).value}))
  {
    assert ids.answered + {AnsweredId(a).value} == ids.answered;
  }

  lemma OneMoreAnswer(h: seq<OpenAIMessage>, a: OpenAIMessage, start: Ids, uuid: nat -> string, out: seq<Message>,
                      ids: Ids, done: set<string>)
    requires IsAnswer(a) && AnsweredId(a).value in ids.answered
    requires ConvertFrom(h, start, uuid) == (out, ids.(pending := ids.pending - done))
    ensures ConvertFrom(h + [a], start, uuid)
         == (out + [Message(User, [ResultOf(a)])], ids.(pending := ids.pending - (done + {AnsweredId(a).value})))
  {
    var ids' := ids.(pending := ids.pending - done);
    ConvertSnoc(h, a, start, uuid, out, ids');
    AnswerConverted(a, ids', uuid);
    assert ids.pending - done - {AnsweredId(a).value} == ids.pending - (done + {AnsweredId(a).value});
  }

  lemma {:induction false} AnswersConverted(h: seq<OpenAIMessage>, answers: seq<OpenAIMessage>, n: nat, start: Ids,
                                            uuid: nat -> string,
                                            out: seq<Message>, ids: Ids)
    requires ConvertFrom(h, start, uuid) == (out, ids) && n <= |answers| && forall a :: a in answers ==> IsAnswer(a)
    requires SomeIds(AnsweredIds(answers)) <= ids.answered
    ensures ConvertFrom(h + answers[..n], start, uuid)
         == (out + Singles(answers)[..n], ids.(pending := ids.pending - SomeIds(AnsweredIds(answers)[..n])))
  {
    var singles, answered := Singles(answers), AnsweredIds(answers);
    if n == 0 {
      assert answered[..0] == [] && SomeIds([]) == {} && singles[..0] == [];
      assert h + [] == h && out + [] == out && ids.(pending := ids.pending - {}) == ids;
    } else {
      var a := answers[n - 1];
      AnswersConverted(h, answers, n - 1, start, uuid, out, ids);
      assert a in answers && answered[n - 1] == AnsweredId(a) && AnsweredId(a).value in SomeIds(answered);
      OneMoreAnswer(h + answers[..n - 1], a, start, uuid, out + singles[..n - 1], ids, SomeIds(answered[..n - 1]));
      SomeIdsSnoc(answered[..n - 1], AnsweredId(a).value);
      TakeSnoc(h, answers, n);
      TakeSnoc(out, singles, n);
      TakeSnoc([], answered, n);
    }
  }

  lemma RemarkConverted(m: OpenAIMessage, ids: Ids, uuid: nat -> string)
    requires IsValid(Remark(m))
    ensures ConvertOne(m, ids, uuid) == (TurnsOf(Remark(m))[0], ids)
  {
    PlainContentConverted(m.content, CallIds(m.toolCalls), ids.answered, uuid, ids.used);
    assert AddCalls(OwnBlocks(m.content), ids, [], uuid) == (OwnBlocks(m.content), ids);
    assert ids.(used := ids.used) == ids;
  }

  lemma CallsConverted(m: OpenAIMessage, answers: seq<OpenAIMessage>, ids: Ids, uuid: nat -> string)
    requires IsValid(Calls(m, answers)) && ids.pending == {} && SomeIds(IdsOf(m.toolCalls)) <= ids.answered
    ensures ConvertOne(m, ids, uuid) == (TurnsOf(Calls(m, answers))[0], ids.(pending := SomeIds(IdsOf(m.toolCalls))))
  {
    PlainContentConverted(m.content, CallIds(m.toolCalls), ids.answered, uuid, ids.used);
    CallsAdded(OwnBlocks(m.content), ids, m.toolCalls, uuid);
    assert ids.(used := ids.used) == ids;
    assert UsesOf(m.toolCalls)[0] == UseOf(m.toolCalls[0]);
  }

  lemma SameMembers(a: seq<Option<string>>, b: seq<Option<string>>)
    requires multiset(a) == multiset(b)
    ensures SomeIds(a) == SomeIds(b)
  {
    forall id ensures id in SomeIds(a) <==> id in SomeIds(b) {
      assert id in SomeIds(a) <==> Some(id) in multiset(a);
      assert id in SomeIds(b) <==> Some(id) in multiset(b);
    }
  }

  /** Every answer of the exchange is known to be there. */
  ghost predicate Known(x: Exchange, answered: set<string>) {
    x.Calls? ==> SomeIds(AnsweredIds(x.answers)) <= answered
  }

  lemma CallsExchangeConverted(h: seq<OpenAIMessage>, x: Exchange, start: Ids, uuid: nat -> string, out: seq<Message>,
                               ids: Ids)
    requires ConvertFrom(h, start, uuid) == (out, ids) && ids.pending == {}
    requires x.Calls? && IsValid(x) && Known(x, ids.answered)
    ensures ConvertFrom(h + [x.message] + x.answers, start, uuid) == (out + [TurnsOf(x)[0]] + Singles(x.answers), ids)
  {
    var m, called, answered := x.message, SomeIds(IdsOf(x.message.toolCalls)), SomeIds(AnsweredIds(x.answers));
    SameMembers(AnsweredIds(x.answers), IdsOf(m.toolCalls));
    ConvertSnoc(h, m, start, uuid, out, ids);
    CallsConverted(m, x.answers, ids, uuid);
    AnswersConverted(h + [m], x.answers, |x.answers|, start, uuid, out + [TurnsOf(x)[0]], ids.(pending := called));
    assert x.answers[..|x.answers|] == x.answers && Singles(x.answers)[..|x.answers|] == Singles(x.answers);
    assert AnsweredIds(x.answers)[..|x.answers|] == AnsweredIds(x.answers);
    assert called - answered == {} == ids.pending;
  }

  lemma RemarkExchangeConverted(h: seq<OpenAIMessage>, m: OpenAIMessage, start: Ids, uuid: nat -> string,
                                out: seq<Message>, ids: Ids)
    requires ConvertFrom(h, start, uuid) == (out, ids) && IsValid(Remark(m))
    ensures ConvertFrom(h + [m], start, uuid) == (out + TurnsOf(Remark(m)), ids)
  {
    ConvertSnoc(h, m, start, uuid, out, ids);
    RemarkConverted(m, ids, uuid);
    assert TurnsOf(Remark(m)) == [TurnsOf(Remark(m))[0]];
  }

  lemma RawTurnsAre(x: Exchange)
    requires IsValid(x)
    ensures RawTurnsOf(x) == match x
      case Skipped(_) => []
      case Remark(_) => TurnsOf(x)
      case Calls(_, answers) => [TurnsOf(x)[0]] + Singles(answers)
  {
  }

  lemma ExchangeConverted(h: seq<OpenAIMessage>, x: Exchange, start: Ids, uuid: nat -> string, out: seq<Message>,
                          ids: Ids)
    requires ConvertFrom(h, start, uuid) == (out, ids) && ids.pending == {}
    requires IsValid(x) && Known(x, ids.answered)
    ensures ConvertFrom(h + MessagesOf(x), start, uuid) == (out + RawTurnsOf(x), ids)
  {
    RawTurnsAre(x);
    if x.Skipped? {
      assert (h + [x.message])[..|h|] == h && out + [] == out;
    } else if x.Remark? {
      RemarkExchangeConverted(h, x.message, start, uuid, out, ids);
    } else {
      CallsExchangeConverted(h, x, start, uuid, out, ids);
      var first := TurnsOf(x)[0];
      Regroup(h, [x.message], x.answers);
      Regroup(out, [first], Singles(x.answers));
    }
  }

  lemma {:induction false} HistoryConverted(xs: seq<Exchange>, start: Ids, uuid: nat -> string)
    requires start.pending == {} && forall x :: x in xs ==> IsValid(x) && Known(x, start.answered)
    ensures ConvertFrom(History(xs), start, uuid) == (RawTurns(xs), start)
  {
    if xs == [] {
    } else {
      var init, x := xs[..|xs| - 1], xs[|xs| - 1];
      assert x in xs && forall y :: y in init ==> y in xs;
      HistoryConverted(init, start, uuid);
      ExchangeConverted(History(init), x, start, uuid, RawTurns(init), start);
    }
  }
}
