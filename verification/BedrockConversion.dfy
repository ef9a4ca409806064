/**
 What `messagesFromOpenAI` of open-sse/executors/bedrock.ts makes of any history before it
 sanitises the turns, spelled out message by message, part by part and call by call.
 */
module BedrockConversion {
  import opened JsText
  import opened BedrockMessages
  import opened BedrockConverter

  predicate IsHandled(m: OpenAIMessage) { m.OpenAIMessage? && m.role != "system" && m.role != "developer" }

  predicate IsTool(m: OpenAIMessage) { m.OpenAIMessage? && m.role == "tool" }

  /** The trimmed id, which is empty when there is none. */
  function OwnId(id: Option<string>): string { Trim(id.GetOr("")) }

  // ----- ids that are generated -----

  predicate NeedsId(p: Part) { p.PartToolUse? && Trim(p.id) == "" }

  /** How many of the first `n` parts need an id. */
  function NeedyParts(parts: seq<Part>, n: nat): nat
    requires n <= |parts|
  {
    if n == 0 then 0 else NeedyParts(parts, n - 1) + (if NeedsId(parts[n - 1]) then 1 else 0)
  }

  function NeedyCalls(calls: seq<ToolCall>, n: nat): nat
    requires n <= |calls|
  {
    if n == 0 then 0 else NeedyCalls(calls, n - 1) + (if OwnId(calls[n - 1].id) == "" then 1 else 0)
  }

  function NeedyContent(c: Content): nat { if c.Parts? then NeedyParts(c.parts, |c.parts|) else 0 }

  /** How many ids are generated for a message. */
  function Needs(m: OpenAIMessage): nat {
    if !IsHandled(m) then 0
    else if m.role == "tool" then if OwnId(m.toolCallId) == "" then 1 else 0
    else NeedyContent(m.content) + NeedyCalls(m.toolCalls, |m.toolCalls|)
  }

  /** How many ids are generated before message `i`. */
  function Generated(h: seq<OpenAIMessage>, i: nat): nat
    requires i <= |h|
  {
    if i == 0 then 0 else Generated(h, i - 1) + Needs(h[i - 1])
  }

  function IdOrElse(id: Option<string>, spare: string): string { if OwnId(id) != "" then OwnId(id) else spare }

  /** The id of call `n` of a message for which `used` ids were generated before its calls. */
  function CallId(calls: seq<ToolCall>, uuid: nat -> string, used: nat, n: nat): string
    requires n < |calls|
  {
    IdOrElse(calls[n].id, uuid(used + NeedyCalls(calls, n)))
  }

  predicate HasCalls(m: OpenAIMessage) { IsHandled(m) && m.role != "tool" }

  // ----- ids that are answered or pending -----

  /** The ids a message answers: as a tool message, and in the parts of its content. */
  function AnswersOf(m: OpenAIMessage): set<string> {
    if m.NotAnObject? then {}
    else
      (if m.role == "tool" && OwnId(m.toolCallId) != "" then {OwnId(m.toolCallId)} else {})
      + (if m.content.Parts?
         then set p | p in m.content.parts && p.PartToolResult? && Trim(p.toolUseId) != "" :: Trim(p.toolUseId)
         else {})
  }

  /** The answered ids among the first `n` calls. */
  function OpenedUpTo(calls: seq<ToolCall>, answered: set<string>, uuid: nat -> string, used: nat, n: nat): set<string>
    requires n <= |calls|
  {
    set k | 0 <= k < n && CallId(calls, uuid, used, k) in answered :: CallId(calls, uuid, used, k)
  }

  // ----- blocks -----

  /** The block a part becomes, if any; `listed` are the ids of the calls beside the content. */
  function BlockOf(p: Part, listed: set<string>, answered: set<string>, spare: string): seq<Block> {
    match p
    case PartText(text) => if AllSpace(text) then [] else [Text(text)]
    case PartImage(Some((format, bytes))) => [Image(format, bytes)]
    case PartToolUse(id, name, input) =>
      if Trim(id) == "" then [ToolUse(spare, name, input)]
      else if Trim(id) in answered && Trim(id) !in listed then [ToolUse(Trim(id), name, input)]
      else []
    case PartToolResult(id, result, isError) => [ToolResult(id, result, isError)]
    case _ => []
  }

  /** The blocks of the first `n` parts, in order. */
  function PartsUpTo(parts: seq<Part>, listed: set<string>, answered: set<string>, uuid: nat -> string, used: nat,
                     n: nat): seq<Block>
    requires n <= |parts|
  {
    if n == 0 then []
    else
      PartsUpTo(parts, listed, answered, uuid, used, n - 1)
      + BlockOf(parts[n - 1], listed, answered, uuid(used + NeedyParts(parts, n - 1)))
  }

  function OwnBlocks(c: Content, listed: set<string>, answered: set<string>, uuid: nat -> string, used: nat)
    : seq<Block>
  {
    match c
    case Str(text) => if AllSpace(text) then [] else [Text(text)]
    case Parts(parts) => PartsUpTo(parts, listed, answered, uuid, used, |parts|)
    case NoContent => []
  }

  /** A call is added when its id is answered, not pending, and no earlier call of the message has it. */
  predicate IsAdded(calls: seq<ToolCall>, answered: set<string>, pending: set<string>, uuid: nat -> string,
                    used: nat, n: nat)
    requires n < |calls|
  {
    var id := CallId(calls, uuid, used, n);
    id in answered && id !in pending && forall k :: 0 <= k < n ==> CallId(calls, uuid, used, k) != id
  }

  function UseOf(call: ToolCall, id: string): Block {
    ToolUse(id, if call.name == "" then "unknown_tool" else call.name, call.input)
  }

  /** The uses of the first `n` calls, in order. */
  function CallsUpTo(calls: seq<ToolCall>, answered: set<string>, pending: set<string>, uuid: nat -> string,
                     used: nat, n: nat): seq<Block>
    requires n <= |calls|
  {
    if n == 0 then []
    else
      CallsUpTo(calls, answered, pending, uuid, used, n - 1)
      + (if IsAdded(calls, answered, pending, uuid, used, n - 1)
         then [UseOf(calls[n - 1], CallId(calls, uuid, used, n - 1))] else [])
  }

  function ListedIds(calls: seq<ToolCall>): set<string> { set c | c in calls && OwnId(c.id) != "" :: OwnId(c.id) }

  /** The text, images, uses and results of a message, and then the uses of its calls. */
  function ContentOf(m: OpenAIMessage, ids: Ids, uuid: nat -> string): seq<Block>
    requires HasCalls(m)
  {
    OwnBlocks(m.content, ListedIds(m.toolCalls), ids.answered, uuid, ids.used)
    + CallsUpTo(m.toolCalls, ids.answered, ids.pending, uuid, ids.used + NeedyContent(m.content), |m.toolCalls|)
  }

  /** The turn a message becomes. */
  function TurnOf(m: OpenAIMessage, ids: Ids, uuid: nat -> string): Message
    requires IsHandled(m)
  {
    if m.role == "tool" then Message(User, [ToolResult(IdOrElse(m.toolCallId, uuid(ids.used)), m.result, false)])
    else
      var content := ContentOf(m, ids, uuid);
      Message(if m.role == "assistant" then Assistant else User, if content == [] then [Text(" ")] else content)
  }

  // ----- one message -----

  lemma NormalizedIs(id: Option<string>)
    ensures NormalizeOptional(id) == if OwnId(id) == "" then None else Some(OwnId(id))
  {
    TrimIs("");
  }

  lemma IdOrSpareIs(id: Option<string>, uuid: nat -> string, used: nat)
    ensures IdOrSpare(id, uuid, used)
         == (IdOrElse(id, uuid(used)), if OwnId(id) == "" then used + 1 else used)
  {
    NormalizedIs(id);
  }

  lemma PartBecomes(p: Part, listed: set<string>, answered: set<string>, spare: string)
    ensures PartBlocks(p, listed, answered, spare) == BlockOf(p, listed, answered, spare)
    ensures TakesSpareId(p) <==> NeedsId(p)
  {
    if p.PartText? { NothingLeftExactly(p.text); }
  }

  lemma OneMorePart(parts: seq<Part>, listed: set<string>, answered: set<string>, uuid: nat -> string, used: nat,
                    n: nat, blocks: seq<Block>, next: nat)
    requires n < |parts| && PartsBlocks(parts[..n], listed, answered, uuid, used) == (blocks, next)
    ensures PartsBlocks(parts[..n + 1], listed, answered, uuid, used)
         == (blocks + BlockOf(parts[n], listed, answered, uuid(next)), next + (if NeedsId(parts[n]) then 1 else 0))
  {
    assert parts[..n + 1][..n] == parts[..n];
    PartBecomes(parts[n], listed, answered, uuid(next));
  }

  /** The blocks of the first `n` parts and the ids used up. */
  function PartsDone(parts: seq<Part>, listed: set<string>, answered: set<string>, uuid: nat -> string, used: nat,
                     n: nat): (seq<Block>, nat)
    requires n <= |parts|
  {
    (PartsUpTo(parts, listed, answered, uuid, used, n), used + NeedyParts(parts, n))
  }

  lemma PartsNext(parts: seq<Part>, listed: set<string>, answered: set<string>, uuid: nat -> string, used: nat, n: nat)
    requires n < |parts|
    requires PartsBlocks(parts[..n], listed, answered, uuid, used) == PartsDone(parts, listed, answered, uuid, used, n)
    ensures PartsBlocks(parts[..n + 1], listed, answered, uuid, used)
         == PartsDone(parts, listed, answered, uuid, used, n + 1)
  {
    var done := PartsDone(parts, listed, answered, uuid, used, n);
    OneMorePart(parts, listed, answered, uuid, used, n, done.0, done.1);
  }

  lemma {:induction false} PartsBecome(parts: seq<Part>, listed: set<string>, answered: set<string>,
                                       uuid: nat -> string, used: nat, n: nat)
    requires n <= |parts|
    ensures PartsBlocks(parts[..n], listed, answered, uuid, used) == PartsDone(parts, listed, answered, uuid, used, n)
  {
    if n == 0 {
    } else {
      PartsBecome(parts, listed, answered, uuid, used, n - 1);
      PartsNext(parts, listed, answered, uuid, used, n - 1);
    }
  }

  lemma ContentBecomes(c: Content, listed: set<string>, answered: set<string>, uuid: nat -> string, used: nat)
    ensures ContentBlocks(c, listed, answered, uuid, used)
         == (OwnBlocks(c, listed, answered, uuid, used), used + NeedyContent(c))
  {
    match c
    case Str(text) => NothingLeftExactly(text);
    case Parts(parts) =>
      PartsBecome(parts, listed, answered, uuid, used, |parts|);
      assert parts[..|parts|] == parts;
    case NoContent =>
  }

  lemma OpenedSnoc(calls: seq<ToolCall>, answered: set<string>, uuid: nat -> string, used: nat, n: nat)
    requires n < |calls|
    ensures var id := CallId(calls, uuid, used, n);
      OpenedUpTo(calls, answered, uuid, used, n + 1)
      == OpenedUpTo(calls, answered, uuid, used, n) + (if id in answered then {id} else {})
  {
  }

  lemma AddedExactly(calls: seq<ToolCall>, answered: set<string>, pending: set<string>, uuid: nat -> string, used: nat,
                     n: nat)
    requires n < |calls|
    ensures var id := CallId(calls, uuid, used, n);
      IsAdded(calls, answered, pending, uuid, used, n)
      <==> id in answered && id !in pending + OpenedUpTo(calls, answered, uuid, used, n)
  {
  }

  lemma AddCallIs(content: seq<Block>, ids: Ids, call: ToolCall, uuid: nat -> string)
    ensures var id, next := IdOrElse(call.id, uuid(ids.used)), if OwnId(call.id) == "" then ids.used + 1 else ids.used;
      AddCall(content, ids, call, uuid)
      == if id in ids.answered && id !in ids.pending
         then (content + [UseOf(call, id)], Ids(ids.pending + {id}, ids.answered, next))
         else (content, Ids(ids.pending, ids.answered, next))
  {
    IdOrSpareIs(call.id, uuid, ids.used);
  }

  lemma AddedCases(content: seq<Block>, use: Block, pending: set<string>, prior: set<string>, id: string,
                   answered: set<string>)
    ensures var added := id in answered && id !in pending + prior;
      && pending + (prior + (if id in answered then {id} else {})) == pending + prior + (if added then {id} else {})
      && content + (if added then [use] else []) == (if added then content + [use] else content)
      && pending + prior + {} == pending + prior
  {
    assert pending + (prior + {id}) == pending + prior + {id};
    assert id in pending + prior ==> pending + prior + {id} == pending + prior;
  }

  /** The ids after the first `n` calls. */
  function IdsAfter(ids: Ids, calls: seq<ToolCall>, uuid: nat -> string, n: nat): Ids
    requires n <= |calls|
  {
    Ids(ids.pending + OpenedUpTo(calls, ids.answered, uuid, ids.used, n), ids.answered,
        ids.used + NeedyCalls(calls, n))
  }

  /** One more call. */
  lemma CallBecomes(content: seq<Block>, ids: Ids, calls: seq<ToolCall>, uuid: nat -> string, n: nat)
    requires n < |calls|
    ensures AddCall(content, IdsAfter(ids, calls, uuid, n), calls[n], uuid)
         == (content + (if IsAdded(calls, ids.answered, ids.pending, uuid, ids.used, n)
                        then [UseOf(calls[n], CallId(calls, uuid, ids.used, n))] else []),
             IdsAfter(ids, calls, uuid, n + 1))
  {
    var id, prior := CallId(calls, uuid, ids.used, n), OpenedUpTo(calls, ids.answered, uuid, ids.used, n);
    AddCallIs(content, IdsAfter(ids, calls, uuid, n), calls[n], uuid);
    OpenedSnoc(calls, ids.answered, uuid, ids.used, n);
    AddedExactly(calls, ids.answered, ids.pending, uuid, ids.used, n);
    AddedCases(content, UseOf(calls[n], id), ids.pending, prior, id, ids.answered);
  }

  lemma AddCallsSnoc(own: seq<Block>, ids: Ids, calls: seq<ToolCall>, n: nat, uuid: nat -> string,
                     content: seq<Block>, ids': Ids)
    requires n < |calls| && AddCalls(own, ids, calls[..n], uuid) == (content, ids')
    ensures AddCalls(own, ids, calls[..n + 1], uuid) == AddCall(content, ids', calls[n], uuid)
  {
    assert calls[..n + 1][..n] == calls[..n];
  }

  lemma CallsNext(calls: seq<ToolCall>, ids: Ids, uuid: nat -> string, own: seq<Block>, n: nat)
    requires n < |calls|
    ensures own + CallsUpTo(calls, ids.answered, ids.pending, uuid, ids.used, n + 1)
         == own + CallsUpTo(calls, ids.answered, ids.pending, uuid, ids.used, n)
            + (if IsAdded(calls, ids.answered, ids.pending, uuid, ids.used, n)
               then [UseOf(calls[n], CallId(calls, uuid, ids.used, n))] else [])
  {
  }

  lemma NoCallsYet(own: seq<Block>, ids: Ids, calls: seq<ToolCall>, uuid: nat -> string)
    ensures AddCalls(own, ids, calls[..0], uuid)
         == (own + CallsUpTo(calls, ids.answered, ids.pending, uuid, ids.used, 0), IdsAfter(ids, calls, uuid, 0))
  {
    assert own + [] == own && calls[..0] == [];
    assert OpenedUpTo(calls, ids.answered, uuid, ids.used, 0) == {} && ids.pending + {} == ids.pending;
  }

  lemma {:induction false} CallsBecome(own: seq<Block>, ids: Ids, calls: seq<ToolCall>, uuid: nat -> string, n: nat)
    requires n <= |calls|
    ensures AddCalls(own, ids, calls[..n], uuid)
         == (own + CallsUpTo(calls, ids.answered, ids.pending, uuid, ids.used, n), IdsAfter(ids, calls, uuid, n))
  {
    if n == 0 {
      NoCallsYet(own, ids, calls, uuid);
    } else {
      var k := n - 1;
      var done := own + CallsUpTo(calls, ids.answered, ids.pending, uuid, ids.used, k);
      CallsBecome(own, ids, calls, uuid, k);
      CallBecomes(done, ids, calls, uuid, k);
      AddCallsSnoc(own, ids, calls, k, uuid, done, IdsAfter(ids, calls, uuid, k));
      CallsNext(calls, ids, uuid, own, k);
    }
  }

  lemma ListedIsCallIds(calls: seq<ToolCall>)
    ensures CallIds(calls) == ListedIds(calls)
  {
    forall c | c in calls ensures NormalizeOptional(c.id) == if OwnId(c.id) == "" then None else Some(OwnId(c.id)) {
      NormalizedIs(c.id);
    }
  }

  lemma AllCallsBecome(own: seq<Block>, ids: Ids, calls: seq<ToolCall>, uuid: nat -> string)
    ensures AddCalls(own, ids, calls, uuid)
         == (own + CallsUpTo(calls, ids.answered, ids.pending, uuid, ids.used, |calls|),
             IdsAfter(ids, calls, uuid, |calls|))
  {
    CallsBecome(own, ids, calls, uuid, |calls|);
    assert calls[..|calls|] == calls;
  }

  lemma ContentIs(m: OpenAIMessage, ids: Ids, uuid: nat -> string, own: seq<Block>, from: nat)
    requires HasCalls(m) && from == ids.used + NeedyContent(m.content)
    requires own == OwnBlocks(m.content, ListedIds(m.toolCalls), ids.answered, uuid, ids.used)
    ensures AddCalls(own, ids.(used := from), m.toolCalls, uuid)
         == (ContentOf(m, ids, uuid), IdsAfter(ids.(used := from), m.toolCalls, uuid, |m.toolCalls|))
  {
    AllCallsBecome(own, ids.(used := from), m.toolCalls, uuid);
  }

  /** The ids after a message. */
  function IdsNext(m: OpenAIMessage, ids: Ids, uuid: nat -> string): Ids
    requires IsHandled(m)
  {
    if m.role == "tool" then
      var id := IdOrElse(m.toolCallId, uuid(ids.used));
      Ids(ids.pending - {id}, ids.answered + {id}, ids.used + (if OwnId(m.toolCallId) == "" then 1 else 0))
    else IdsAfter(ids.(used := ids.used + NeedyContent(m.content)), m.toolCalls, uuid, |m.toolCalls|)
  }

  lemma ConvertOneIs(m: OpenAIMessage, ids: Ids, uuid: nat -> string, own: seq<Block>, used: nat, content: seq<Block>,
                     next: Ids)
    requires HasCalls(m)
    requires ContentBlocks(m.content, CallIds(m.toolCalls), ids.answered, uuid, ids.used) == (own, used)
    requires AddCalls(own, ids.(used := used), m.toolCalls, uuid) == (content, next)
    ensures ConvertOne(m, ids, uuid)
         == (Message(if m.role == "assistant" then Assistant else User, if content == [] then [Text(" ")] else content),
             next)
  {
  }

  lemma CallsMessageBecomes(m: OpenAIMessage, ids: Ids, uuid: nat -> string)
    requires HasCalls(m)
    ensures ConvertOne(m, ids, uuid) == (TurnOf(m, ids, uuid), IdsNext(m, ids, uuid))
  {
    var own := OwnBlocks(m.content, ListedIds(m.toolCalls), ids.answered, uuid, ids.used);
    var from := ids.used + NeedyContent(m.content);
    ListedIsCallIds(m.toolCalls);
    ContentBecomes(m.content, CallIds(m.toolCalls), ids.answered, uuid, ids.used);
    ContentIs(m, ids, uuid, own, from);
    ConvertOneIs(m, ids, uuid, own, from, ContentOf(m, ids, uuid), IdsNext(m, ids, uuid));
  }

  lemma MessageBecomes(m: OpenAIMessage, ids: Ids, uuid: nat -> string)
    requires IsHandled(m)
    ensures ConvertOne(m, ids, uuid) == (TurnOf(m, ids, uuid), IdsNext(m, ids, uuid))
  {
    if m.role == "tool" {
      IdOrSpareIs(m.toolCallId, uuid, ids.used);
    } else {
      CallsMessageBecomes(m, ids, uuid);
    }
  }

  // ----- the whole history -----

  lemma HandledExactly(m: OpenAIMessage)
    ensures IsSkipped(m) <==> !IsHandled(m)
    ensures IsTool(m) ==> IsHandled(m)
  {
  }

  lemma AnswersAre(m: OpenAIMessage)
    ensures OwnAnswers(m) == AnswersOf(m)
  {
    if m.OpenAIMessage? {
      NormalizedIs(m.toolCallId);
      if m.content.Parts? {
        forall p | p in m.content.parts && p.PartToolResult?
          ensures PartAnswers(p) == if Trim(p.toolUseId) == "" then {} else {Trim(p.toolUseId)}
        {
          NormalizedIs(Some(p.toolUseId));
        }
      }
    }
  }

  function AnsweredAnywhere(h: seq<OpenAIMessage>): set<string> { set m, id | m in h && id in AnswersOf(m) :: id }

  /** What the loop carries along when it comes to message `i`. */
  function Carried(h: seq<OpenAIMessage>, uuid: nat -> string, i: nat): Ids
    requires i <= |h|
  {
    ConvertFrom(h[..i], Ids({}, AnsweredAnywhere(h), 0), uuid).1
  }

  /** The turns of the first `n` messages: one for each that is handled, in order. */
  function TurnsUpTo(h: seq<OpenAIMessage>, uuid: nat -> string, n: nat): seq<Message>
    requires n <= |h|
  {
    if n == 0 then []
    else
      TurnsUpTo(h, uuid, n - 1)
      + (if IsHandled(h[n - 1]) then [TurnOf(h[n - 1], Carried(h, uuid, n - 1), uuid)] else [])
  }

  lemma ConvertSnoc(h: seq<OpenAIMessage>, m: OpenAIMessage, start: Ids, uuid: nat -> string, out: seq<Message>,
                    ids: Ids)
    requires ConvertFrom(h, start, uuid) == (out, ids)
    ensures ConvertFrom(h + [m], start, uuid)
         == if IsHandled(m) then (out + [TurnOf(m, ids, uuid)], IdsNext(m, ids, uuid)) else (out + [], ids)
  {
    assert (h + [m])[..|h|] == h && out + [] == out;
    HandledExactly(m);
    if IsHandled(m) { MessageBecomes(m, ids, uuid); }
  }

  lemma CarriedNext(h: seq<OpenAIMessage>, uuid: nat -> string, i: nat)
    requires i < |h|
    ensures Carried(h, uuid, i + 1)
         == if IsHandled(h[i]) then IdsNext(h[i], Carried(h, uuid, i), uuid) else Carried(h, uuid, i)
  {
    var start := Ids({}, AnsweredAnywhere(h), 0);
    assert h[..i] + [h[i]] == h[..i + 1];
    ConvertSnoc(h[..i], h[i], start, uuid, ConvertFrom(h[..i], start, uuid).0, Carried(h, uuid, i));
  }

  lemma {:induction false} MessagesBecome(h: seq<OpenAIMessage>, uuid: nat -> string, i: nat)
    requires i <= |h|
    ensures ConvertFrom(h[..i], Ids({}, AnsweredAnywhere(h), 0), uuid).0 == TurnsUpTo(h, uuid, i)
  {
    if i == 0 {
    } else {
      var k, start := i - 1, Ids({}, AnsweredAnywhere(h), 0);
      MessagesBecome(h, uuid, k);
      ConvertSnoc(h[..k], h[k], start, uuid, TurnsUpTo(h, uuid, k), Carried(h, uuid, k));
      assert h[..k] + [h[k]] == h[..i];
    }
  }

  /** The turns before sanitising are those of the handled messages, in order; without any, one blank turn. */
  lemma ConversionIs(h: seq<OpenAIMessage>, uuid: nat -> string)
    ensures Convert(h, uuid)
         == var turns := TurnsUpTo(h, uuid, |h|); if turns == [] then [Message(User, [Text(" ")])] else turns
  {
    forall m { AnswersAre(m); }
    assert (set m, id | m in h && id in OwnAnswers(m) :: id) == AnsweredAnywhere(h);
    assert h[..|h|] == h;
    MessagesBecome(h, uuid, |h|);
  }

  // ----- what is carried along -----

  /** How many ids are generated before message `i`. */
  lemma UsedNext(m: OpenAIMessage, ids: Ids, uuid: nat -> string)
    requires IsHandled(m)
    ensures IdsNext(m, ids, uuid).used == ids.used + Needs(m)
  {
  }

  lemma {:induction false} GeneratedExactly(h: seq<OpenAIMessage>, uuid: nat -> string, i: nat)
    requires i <= |h|
    ensures Carried(h, uuid, i).used == Generated(h, i)
  {
    if i == 0 {
    } else {
      var k := i - 1;
      GeneratedExactly(h, uuid, k);
      CarriedNext(h, uuid, k);
      if IsHandled(h[k]) { UsedNext(h[k], Carried(h, uuid, k), uuid); }
    }
  }

  /** The id tool message `k` answers. */
  function ToolId(h: seq<OpenAIMessage>, uuid: nat -> string, k: nat): string
    requires k < |h| && IsTool(h[k])
  {
    IdOrElse(h[k].toolCallId, uuid(Generated(h, k)))
  }

  predicate IsToolFor(h: seq<OpenAIMessage>, uuid: nat -> string, k: nat, id: string)
    requires k < |h|
  {
    IsTool(h[k]) && ToolId(h, uuid, k) == id
  }

  /** A tool message adds its id to those answered. */
  lemma AnsweredStep(h: seq<OpenAIMessage>, uuid: nat -> string, i: nat, id: string)
    requires i < |h|
    ensures id in Carried(h, uuid, i + 1).answered
        <==> id in Carried(h, uuid, i).answered || IsToolFor(h, uuid, i, id)
  {
    CarriedNext(h, uuid, i);
    GeneratedExactly(h, uuid, i);
  }

  /** Answered is what any message answers, wherever it stands, and what an earlier tool message was given. */
  lemma {:induction false} AnsweredExactly(h: seq<OpenAIMessage>, uuid: nat -> string, i: nat, id: string)
    requires i <= |h|
    ensures id in Carried(h, uuid, i).answered
        <==> (exists m :: m in h && id in AnswersOf(m)) || exists k :: 0 <= k < i && IsToolFor(h, uuid, k, id)
  {
    if i == 0 {
    } else {
      AnsweredExactly(h, uuid, i - 1, id);
      AnsweredStep(h, uuid, i - 1, id);
    }
  }

  predicate IsCallOf(calls: seq<ToolCall>, uuid: nat -> string, used: nat, n: nat, id: string) {
    n < |calls| && CallId(calls, uuid, used, n) == id
  }

  ghost predicate IsCalled(calls: seq<ToolCall>, uuid: nat -> string, used: nat, id: string) {
    exists n :: IsCallOf(calls, uuid, used, n, id)
  }

  /** Message `k` calls the id, which is answered. */
  ghost predicate Opens(h: seq<OpenAIMessage>, uuid: nat -> string, k: nat, id: string)
    requires k < |h|
  {
    && HasCalls(h[k]) && id in Carried(h, uuid, k).answered
    && IsCalled(h[k].toolCalls, uuid, Generated(h, k) + NeedyContent(h[k].content), id)
  }

  predicate StaysOpen(h: seq<OpenAIMessage>, uuid: nat -> string, k: nat, i: nat, id: string)
    requires i <= |h|
  {
    forall j :: k < j < i ==> !IsToolFor(h, uuid, j, id)
  }

  lemma OpenedExactly(calls: seq<ToolCall>, answered: set<string>, uuid: nat -> string, used: nat, id: string)
    ensures id in OpenedUpTo(calls, answered, uuid, used, |calls|)
        <==> id in answered && IsCalled(calls, uuid, used, id)
  {
    if n :| IsCallOf(calls, uuid, used, n, id) {
      assert CallId(calls, uuid, used, n) == id;
    }
    if id in OpenedUpTo(calls, answered, uuid, used, |calls|) {
      var n :| 0 <= n < |calls| && CallId(calls, uuid, used, n) == id;
      assert IsCallOf(calls, uuid, used, n, id);
    }
  }

  /** A tool message closes its id, any other opens those it calls. */
  lemma PendingStep(h: seq<OpenAIMessage>, uuid: nat -> string, i: nat, id: string)
    requires i < |h|
    ensures id in Carried(h, uuid, i + 1).pending
        <==> (id in Carried(h, uuid, i).pending && !IsToolFor(h, uuid, i, id)) || Opens(h, uuid, i, id)
  {
    CarriedNext(h, uuid, i);
    GeneratedExactly(h, uuid, i);
    if HasCalls(h[i]) {
      OpenedExactly(h[i].toolCalls, Carried(h, uuid, i).answered, uuid, Generated(h, i) + NeedyContent(h[i].content),
                    id);
    }
  }

  /** Pending is what an earlier message called and no tool message has answered since. */
  lemma {:induction false} PendingExactly(h: seq<OpenAIMessage>, uuid: nat -> string, i: nat, id: string)
    requires i <= |h|
    ensures id in Carried(h, uuid, i).pending
        <==> exists k :: 0 <= k < i && Opens(h, uuid, k, id) && StaysOpen(h, uuid, k, i, id)
  {
    if i == 0 {
    } else {
      PendingExactly(h, uuid, i - 1, id);
      PendingStep(h, uuid, i - 1, id);
      forall k: nat | k < i - 1
        ensures StaysOpen(h, uuid, k, i, id) <==> StaysOpen(h, uuid, k, i - 1, id) && !IsToolFor(h, uuid, i - 1, id)
      {
      }
      assert StaysOpen(h, uuid, i - 1, i, id);
    }
  }
}
