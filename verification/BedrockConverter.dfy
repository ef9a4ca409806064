/**
 `messagesFromOpenAI` and its helpers as they run in
 open-sse/executors/bedrock.ts: turns are objects whose content arrays are
 extended and reassigned in place. Each method is tied to the value-level
 meaning in module BedrockMessages.
 */
module BedrockConverter {
  import opened JsText
  import opened BedrockMessages
  import opened BedrockPairing

  /** One element of an OpenAI `content` array, as far as the converter tells elements apart. */
  datatype Part =
    | PartText(text: string)
    | PartImage(image: Option<(string, string)>)
    | PartToolUse(id: string, name: string, input: string)
    | PartToolResult(toolUseId: string, result: string, isError: bool)
    | PartOther

  datatype Content = Str(text: string) | Parts(parts: seq<Part>) | NoContent

  datatype ToolCall = ToolCall(id: Option<string>, name: string, input: string)

  /** `result` is the tool-result content computed from the message when its role is "tool". */
  datatype OpenAIMessage =
    | NotAnObject
    | OpenAIMessage(
        role: string, content: Content, toolCalls: seq<ToolCall>, toolCallId: Option<string>, result: string)

  function NormalizeOptional(id: Option<string>): Option<string> {
    if id.Some? then NormalizeToolUseId(id.value) else None
  }

  // ----- ids with a result anywhere in the history -----

  function PartAnswers(p: Part): set<string> {
    if p.PartToolResult? && NormalizeToolUseId(p.toolUseId).Some? then {NormalizeToolUseId(p.toolUseId).value} else {}
  }

  function OwnAnswers(m: OpenAIMessage): set<string> {
    if m.NotAnObject? then {}
    else
      var own := NormalizeOptional(m.toolCallId);
      (if m.role == "tool" && own.Some? then {own.value} else {}) +
      (if m.content.Parts? then set p, id | p in m.content.parts && id in PartAnswers(p) :: id else {})
  }

  method CollectPartAnswers(parts: seq<Part>) returns (answered: set<string>)
    ensures answered == set p, id | p in parts && id in PartAnswers(p) :: id
  {
    answered := {};
    for k := 0 to |parts|
      invariant answered == set p, id | p in parts[..k] && id in PartAnswers(p) :: id
    {
      assert parts[..k + 1] == parts[..k] + [parts[k]];
      ghost var seen := set p, id | p in parts[..k] && id in PartAnswers(p) :: id;
      assert (set p, id | p in parts[..k + 1] && id in PartAnswers(p) :: id) == seen + PartAnswers(parts[k]);
      if parts[k].PartToolResult? {
        var id := NormalizeToolUseId(parts[k].toolUseId);
        if id.Some? { answered := answered + {id.value}; }
      }
    }
    assert parts[..|parts|] == parts;
  }

  method CollectAnsweredToolUseIds(messages: seq<OpenAIMessage>) returns (answered: set<string>)
    ensures answered == set m, id | m in messages && id in OwnAnswers(m) :: id
  {
    answered := {};
    for i := 0 to |messages|
      invariant answered == set m, id | m in messages[..i] && id in OwnAnswers(m) :: id
    {
      var message := messages[i];
      assert messages[..i + 1] == messages[..i] + [message];
      var own: set<string> := {};
      if !message.NotAnObject? {
        if message.role == "tool" {
          var id := NormalizeOptional(message.toolCallId);
          if id.Some? { own := {id.value}; }
        }
        if message.content.Parts? {
          var fromParts := CollectPartAnswers(message.content.parts);
          own := own + fromParts;
        }
      }
      assert own == OwnAnswers(message);
      answered := answered + own;
    }
    assert messages[..|messages|] == messages;
  }

  // ----- one turn -----

  /** The blocks a content part becomes; `spare` is the generated id a blank tool-use id gets. */
  function PartBlocks(p: Part, skip: set<string>, answered: set<string>, spare: string): seq<Block> {
    match p
    case PartText(text) => if Trim(text) != "" then [Text(text)] else []
    case PartImage(Some((format, bytes))) => [Image(format, bytes)]
    case PartToolUse(id, name, input) =>
      (match NormalizeToolUseId(id)
       case None => [ToolUse(spare, name, input)]
       case Some(raw) => if raw in skip || raw !in answered then [] else [ToolUse(raw, name, input)])
    case PartToolResult(id, result, isError) => [ToolResult(id, result, isError)]
    case _ => []
  }

  predicate TakesSpareId(p: Part) {
    p.PartToolUse? && NormalizeToolUseId(p.id).None?
  }

  /** The blocks of the parts, and how many generated ids have been used up. */
  function PartsBlocks(parts: seq<Part>, skip: set<string>, answered: set<string>, uuid: nat -> string, used: nat)
    : (seq<Block>, nat)
  {
    if parts == [] then ([], used)
    else
      var (blocks, n) := PartsBlocks(parts[..|parts| - 1], skip, answered, uuid, used);
      var p := parts[|parts| - 1];
      (blocks + PartBlocks(p, skip, answered, uuid(n)), if TakesSpareId(p) then n + 1 else n)
  }

  function ContentBlocks(content: Content, skip: set<string>, answered: set<string>, uuid: nat -> string, used: nat)
    : (seq<Block>, nat)
  {
    match content
    case Str(text) => (if Trim(text) != "" then [Text(text)] else [], used)
    case Parts(parts) => PartsBlocks(parts, skip, answered, uuid, used)
    case NoContent => ([], used)
  }

  method TextBlocksFromContent(content: Content, skip: set<string>, answered: set<string>, uuid: nat -> string,
                               used: nat)
    returns (blocks: seq<Block>, used': nat)
    ensures (blocks, used') == ContentBlocks(content, skip, answered, uuid, used)
  {
    match content
    case Str(text) =>
      return if Trim(text) != "" then [Text(text)] else [], used;
    case NoContent =>
      return [], used;
    case Parts(parts) =>
      blocks, used' := [], used;
      for k := 0 to |parts|
        invariant (blocks, used') == PartsBlocks(parts[..k], skip, answered, uuid, used)
      {
        assert parts[..k + 1][..k] == parts[..k] && blocks + [] == blocks;
        match parts[k] {
          case PartText(text) =>
            if Trim(text) != "" { blocks := blocks + [Text(text)]; }
          case PartImage(image) =>
            if image.Some? { blocks := blocks + [Image(image.value.0, image.value.1)]; }
          case PartToolUse(id, name, input) =>
            var raw := NormalizeToolUseId(id);
            if raw.Some? && raw.value in skip { continue; }
            if raw.Some? && raw.value !in answered { continue; }
            blocks := blocks + [ToolUse(if raw.Some? then raw.value else uuid(used'), name, input)];
            if raw.None? { used' := used' + 1; }
          case PartToolResult(id, result, isError) =>
            blocks := blocks + [ToolResult(id, result, isError)];
          case PartOther =>
        }
      }
      assert parts[..|parts|] == parts;
  }

  // ----- the whole list -----

  /** What the conversion loop carries along besides its output. */
  datatype Ids = Ids(pending: set<string>, answered: set<string>, used: nat)

  function IdOrSpare(id: Option<string>, uuid: nat -> string, used: nat): (string, nat) {
    match NormalizeOptional(id)
    case Some(raw) => (raw, used)
    case None => (uuid(used), used + 1)
  }

  /** A tool call is added unless it is already pending or has no result anywhere. */
  function AddCall(content: seq<Block>, ids: Ids, call: ToolCall, uuid: nat -> string): (seq<Block>, Ids) {
    var (id, used) := IdOrSpare(call.id, uuid, ids.used);
    if id in ids.pending || id !in ids.answered then (content, ids.(used := used))
    else (content + [ToolUse(id, if call.name == "" then "unknown_tool" else call.name, call.input)],
          ids.(pending := ids.pending + {id}, used := used))
  }

  function AddCalls(content: seq<Block>, ids: Ids, calls: seq<ToolCall>, uuid: nat -> string): (seq<Block>, Ids) {
    if calls == [] then (content, ids)
    else
      var (content', ids') := AddCalls(content, ids, calls[..|calls| - 1], uuid);
      AddCall(content', ids', calls[|calls| - 1], uuid)
  }

  function CallIds(calls: seq<ToolCall>): set<string> {
    set c | c in calls && NormalizeOptional(c.id).Some? :: NormalizeOptional(c.id).value
  }

  function NormalizeRole(role: string): Role {
    if role == "assistant" then Assistant else User
  }

  predicate IsSkipped(m: OpenAIMessage) {
    m.NotAnObject? || m.role == "system" || m.role == "developer"
  }

  function ConvertOne(m: OpenAIMessage, ids: Ids, uuid: nat -> string): (Message, Ids)
    requires !IsSkipped(m)
  {
    if m.role == "tool" then
      var (id, used) := IdOrSpare(m.toolCallId, uuid, ids.used);
      (Message(User, [ToolResult(id, m.result, false)]), Ids(ids.pending - {id}, ids.answered + {id}, used))
    else
      var (own, used) := ContentBlocks(m.content, CallIds(m.toolCalls), ids.answered, uuid, ids.used);
      var (content, ids') := AddCalls(own, ids.(used := used), m.toolCalls, uuid);
      (Message(NormalizeRole(m.role), NonEmpty(content)), ids')
  }

  function ConvertFrom(messages: seq<OpenAIMessage>, ids: Ids, uuid: nat -> string): (seq<Message>, Ids) {
    if messages == [] then ([], ids)
    else
      var (out, ids') := ConvertFrom(messages[..|messages| - 1], ids, uuid);
      var m := messages[|messages| - 1];
      if IsSkipped(m) then (out, ids')
      else
        var (turn, ids'') := ConvertOne(m, ids', uuid);
        (out + [turn], ids'')
  }

  /** The turns handed to the sanitiser. */
  function Convert(messages: seq<OpenAIMessage>, uuid: nat -> string): seq<Message> {
    var answered := set m, id | m in messages && id in OwnAnswers(m) :: id;
    var out := ConvertFrom(messages, Ids({}, answered, 0), uuid).0;
    if out == [] then [Message(User, [BLANK])] else out
  }

  // ----- the objects the code works on -----

  class Turn {
    const role: Role
    var content: seq<Block>

    constructor (role: Role, content: seq<Block>)
      ensures this.role == role && this.content == content
    {
      this.role, this.content := role, content;
    }
  }

  ghost function Snapshot(turns: seq<Turn>): seq<Message>
    reads turns
  {
    seq(|turns|, i requires 0 <= i < |turns| reads turns => Message(turns[i].role, turns[i].content))
  }

  ghost predicate Distinct(turns: seq<Turn>) {
    forall i, j :: 0 <= i < j < |turns| ==> turns[i] != turns[j]
  }

  /** One step of the merge: the content joins the previous turn in place, or the turn is kept. */
  method MergeTurn(merged: seq<Turn>, message: Turn) returns (merged': seq<Turn>)
    requires Distinct(merged) && message !in merged
    modifies merged
    ensures Snapshot(merged') == old(MergeInto(Snapshot(merged), Message(message.role, message.content)))
    ensures Distinct(merged') && forall t :: t in merged' ==> t in merged || t == message
  {
    ghost var done := Snapshot(merged);
    if merged != [] {
      var previous := merged[|merged| - 1];
      assert done[|done| - 1] == Message(previous.role, previous.content);
      if IsToolResultOnly(Message(previous.role, previous.content))
          && IsToolResultOnly(Message(message.role, message.content)) {
        previous.content := previous.content + message.content;
        return merged;
      }
    }
    merged' := merged + [message];
  }

  /** What is merged so far and the turns from `i` on give the whole merge. */
  ghost predicate MergesOn(acc: seq<Message>, ms: seq<Message>, i: nat) {
    i <= |ms| && MergeFrom(acc, ms[i..]) == Merge(ms)
  }

  lemma MergeStep(acc: seq<Message>, ms: seq<Message>, i: nat)
    requires i < |ms| && MergesOn(acc, ms, i)
    ensures MergesOn(MergeInto(acc, ms[i]), ms, i + 1)
  {
    assert ms[i..][0] == ms[i] && ms[i..][1..] == ms[i + 1..];
  }

  lemma MergeDone(acc: seq<Message>, ms: seq<Message>)
    ensures MergesOn([], ms, 0)
    ensures MergesOn(acc, ms, |ms|) ==> acc == Merge(ms)
  {
    assert ms[0..] == ms && ms[|ms|..] == [];
  }

  /** The merged turns are distinct objects among the first `i`. */
  ghost predicate IsFrom(merged: seq<Turn>, messages: seq<Turn>, i: nat) {
    i <= |messages| && Distinct(merged) && forall t :: t in merged ==> t in messages[..i]
  }

  lemma NotMergedYet(merged: seq<Turn>, messages: seq<Turn>, i: nat, k: nat)
    requires Distinct(messages) && IsFrom(merged, messages, i) && i <= k < |messages|
    ensures messages[k] !in merged
  {
  }

  /** One round of the merge; the turns still to come stay as they are. */
  method MergeAt(merged: seq<Turn>, messages: seq<Turn>, i: nat) returns (merged': seq<Turn>)
    requires Distinct(messages) && IsFrom(merged, messages, i) && i < |messages|
    modifies merged
    ensures IsFrom(merged', messages, i + 1)
    ensures Snapshot(merged') == old(MergeInto(Snapshot(merged), Message(messages[i].role, messages[i].content)))
    ensures forall k :: i < k < |messages| ==> messages[k].content == old(messages[k].content)
  {
    forall k | i <= k < |messages| ensures messages[k] !in merged {
      NotMergedYet(merged, messages, i, k);
    }
    assert messages[..i + 1] == messages[..i] + [messages[i]];
    merged' := MergeTurn(merged, messages[i]);
  }

  method MergeConsecutiveToolResultMessages(messages: seq<Turn>) returns (merged: seq<Turn>)
    requires Distinct(messages)
    modifies messages
    ensures Snapshot(merged) == Merge(old(Snapshot(messages)))
    ensures Distinct(merged) && forall t :: t in merged ==> t in messages
  {
    ghost var before := Snapshot(messages);
    merged := [];
    MergeDone([], before);
    for i := 0 to |messages|
      invariant MergesOn(Snapshot(merged), before, i) && IsFrom(merged, messages, i)
      invariant forall k :: i <= k < |messages| ==> messages[k].content == before[k].content
    {
      assert before[i] == Message(messages[i].role, messages[i].content);
      MergeStep(Snapshot(merged), before, i);
      forall k | 0 <= k < |merged| ensures merged[k] in messages {
        assert merged[k] in messages[..i];
      }
      merged := MergeAt(merged, messages, i);
    }
    MergeDone(Snapshot(merged), before);
  }

  function CountOf(counts: map<string, nat>, id: string): nat {
    if id in counts then counts[id] else 0
  }

  /** `content.filter` of the first pass. */
  method DropUnansweredUses(content: seq<Block>, allowed: set<string>, ghost ms: seq<Message>, ghost i: nat)
    returns (kept: seq<Block>)
    requires forall id :: id in allowed <==> Matched(ms, i, id)
    ensures kept == KeepUses(ms, i, content)
  {
    kept := [];
    for k := 0 to |content|
      invariant kept == KeepUses(ms, i, content[..k])
    {
      assert content[..k + 1][..k] == content[..k];
      var id := IdOf(Use, content[k]);
      if id.None? || id.value in allowed { kept := kept + [content[k]]; }
    }
    assert content[..|content|] == content;
  }

  /** How many results of `id` may still be kept once `done` has been read in turn `i`. */
  function Left(ms: seq<Message>, i: nat, done: seq<Block>, id: string): nat {
    var before := ResultsBefore(ms, i, id) + Count(Result, done, id);
    if before < Quota(ms, id) then Quota(ms, id) - before else 0
  }

  /** One more block of a user turn: a result is kept when there is room for it, and takes that room. */
  lemma NextResult(ms: seq<Message>, i: nat, content: seq<Block>, k: nat)
    requires k < |content|
    ensures var id := IdOf(Result, content[k]);
      && KeepResults(ms, i, content[..k + 1]) == KeepResults(ms, i, content[..k])
          + (if id.None? || Left(ms, i, content[..k], id.value) > 0 then [content[k]] else [])
      && forall other :: Left(ms, i, content[..k + 1], other)
          == var left := Left(ms, i, content[..k], other); if id == Some(other) && left > 0 then left - 1 else left
  {
    assert content[..k + 1][..k] == content[..k];
  }

  /** `content.filter` of the second pass, with its counter map. */
  method DropSurplusResults(content: seq<Block>, counts: map<string, nat>, ghost ms: seq<Message>, ghost i: nat)
    returns (kept: seq<Block>, counts': map<string, nat>)
    requires i < |ms| && ms[i] == Message(User, content)
    requires forall id :: CountOf(counts, id) == Room(ms, i, id)
    ensures kept == KeepResults(ms, i, content)
    ensures forall id :: CountOf(counts', id) == Room(ms, i + 1, id)
  {
    kept, counts' := [], counts;
    for k := 0 to |content|
      invariant kept == KeepResults(ms, i, content[..k])
      invariant forall id :: CountOf(counts', id) == Left(ms, i, content[..k], id)
    {
      NextResult(ms, i, content, k);
      var id := IdOf(Result, content[k]);
      if id.None? {
        kept := kept + [content[k]];
      } else {
        var remaining := CountOf(counts', id.value);
        if remaining > 0 {
          counts' := counts'[id.value := remaining - 1];
          kept := kept + [content[k]];
        }
      }
    }
    assert content[..|content|] == content;
  }

  /** Turn `k` once the first pass has gone over it. */
  function AfterFirstPass(ms: seq<Message>, k: nat): Message
    requires k < |ms|
  {
    if ms[k].role.User? then ms[k] else Clean(ms, k)
  }

  /** The ids used in `content` that the next turn, when it is a user turn, has a result for. */
  method AllowedIds(content: seq<Block>, next: seq<Block>, ghost ms: seq<Message>, ghost i: nat)
    returns (used: bool, allowed: set<string>)
    requires i < |ms| && ms[i] == Message(Assistant, content)
    requires next == if i + 1 < |ms| && ms[i + 1].role.User? then ms[i + 1].content else []
    ensures used == UsesTools(content)
    ensures forall id :: id in allowed <==> Matched(ms, i, id)
  {
    var nextIds := set b | b in next && IdOf(Result, b).Some? :: IdOf(Result, b).value;
    var useIds := set b | b in content && IdOf(Use, b).Some? :: IdOf(Use, b).value;
    forall id ensures id in useIds * nextIds <==> Matched(ms, i, id) {
      CountedIds(Use, content, id);
      CountedIds(Result, next, id);
    }
    used, allowed := useIds != {}, useIds * nextIds;
    assert forall b :: b in content && IdOf(Use, b).Some? ==> IdOf(Use, b).value in useIds;
  }

  ghost predicate Shows(t: Turn, m: Message)
    reads t
  {
    t.role == m.role && t.content == m.content
  }

  /** The first pass at one assistant turn. */
  method PruneTurn(message: Turn, next: seq<Block>, counts: map<string, nat>, ghost ms: seq<Message>, ghost i: nat)
    returns (counts': map<string, nat>)
    requires i < |ms| && ms[i].role.Assistant? && Shows(message, ms[i])
    requires next == if i + 1 < |ms| && ms[i + 1].role.User? then ms[i + 1].content else []
    modifies message
    ensures Shows(message, AfterFirstPass(ms, i))
    ensures forall id :: CountOf(counts', id) == CountOf(counts, id) + MatchedAt(ms, i, id)
  {
    var used, allowed := AllowedIds(message.content, next, ms, i);
    if !used {
      forall id { CountedIds(Use, message.content, id); }
      return counts;
    }
    var kept := DropUnansweredUses(message.content, allowed, ms, i);
    message.content := NonEmpty(kept);
    counts' := counts + map id | id in allowed :: CountOf(counts, id) + 1;
  }

  /** The turns once the first pass has gone over the first `i`. */
  function FirstPass(ms: seq<Message>, i: nat): seq<Message> {
    seq(|ms|, k requires 0 <= k < |ms| => if k < i then AfterFirstPass(ms, k) else ms[k])
  }

  lemma FirstPassNext(ms: seq<Message>, i: nat)
    requires i < |ms|
    ensures FirstPass(ms, i)[i := AfterFirstPass(ms, i)] == FirstPass(ms, i + 1)
  {
  }

  /** One round of the first pass. */
  method PruneAt(normalized: seq<Turn>, counts: map<string, nat>, ghost ms: seq<Message>, i: nat)
    returns (counts': map<string, nat>)
    requires i < |normalized| == |ms| && Distinct(normalized) && Snapshot(normalized) == FirstPass(ms, i)
    requires forall id :: CountOf(counts, id) == MatchedBefore(ms, i, id)
    modifies normalized[i]
    ensures Snapshot(normalized) == FirstPass(ms, i + 1)
    ensures forall id :: CountOf(counts', id) == MatchedBefore(ms, i + 1, id)
  {
    var message := normalized[i];
    ghost var first := FirstPass(ms, i);
    assert first[i] == ms[i] && Snapshot(normalized)[i] == Message(message.role, message.content);
    if i + 1 < |ms| {
      assert first[i + 1] == ms[i + 1];
      assert Snapshot(normalized)[i + 1] == Message(normalized[i + 1].role, normalized[i + 1].content);
    }
    counts' := counts;
    if message.role.Assistant? {
      var next := if i + 1 < |normalized| && normalized[i + 1].role.User? then normalized[i + 1].content else [];
      counts' := PruneTurn(message, next, counts, ms, i);
    }
    assert forall k :: 0 <= k < |ms| && k != i ==> normalized[k] != message;
    assert Snapshot(normalized) == old(Snapshot(normalized))[i := Message(message.role, message.content)];
    FirstPassNext(ms, i);
  }

  method PruneUses(normalized: seq<Turn>, ghost ms: seq<Message>) returns (counts: map<string, nat>)
    requires Distinct(normalized) && Snapshot(normalized) == ms
    modifies normalized
    ensures Snapshot(normalized) == FirstPass(ms, |ms|)
    ensures forall id :: CountOf(counts, id) == Quota(ms, id)
  {
    counts := map[];
    assert FirstPass(ms, 0) == ms;
    for i := 0 to |normalized|
      invariant Snapshot(normalized) == FirstPass(ms, i)
      invariant forall id :: CountOf(counts, id) == MatchedBefore(ms, i, id)
    {
      counts := PruneAt(normalized, counts, ms, i);
    }
  }

  /** The second pass at one user turn. */
  method FilterTurn(message: Turn, counts: map<string, nat>, ghost ms: seq<Message>, ghost i: nat)
    returns (counts': map<string, nat>)
    requires i < |ms| && ms[i].role.User? && Shows(message, ms[i])
    requires forall id :: CountOf(counts, id) == Room(ms, i, id)
    modifies message
    ensures Shows(message, Clean(ms, i))
    ensures forall id :: CountOf(counts', id) == Room(ms, i + 1, id)
  {
    var kept;
    kept, counts' := DropSurplusResults(message.content, counts, ms, i);
    message.content := NonEmpty(kept);
  }

  lemma AfterFirstPassRole(ms: seq<Message>, k: nat)
    requires k < |ms|
    ensures AfterFirstPass(ms, k).role == ms[k].role
    ensures AfterFirstPass(ms, k) == if ms[k].role.User? then ms[k] else Clean(ms, k)
  {
  }

  /** The turns once the second pass has gone over the first `i`. */
  function SecondPass(ms: seq<Message>, i: nat): seq<Message> {
    seq(|ms|, k requires 0 <= k < |ms| => if k < i then Clean(ms, k) else AfterFirstPass(ms, k))
  }

  lemma SecondPassNext(ms: seq<Message>, i: nat)
    requires i < |ms|
    ensures SecondPass(ms, i)[i := Clean(ms, i)] == SecondPass(ms, i + 1)
  {
  }

  /** One round of the second pass. */
  method FilterAt(normalized: seq<Turn>, counts: map<string, nat>, ghost ms: seq<Message>, i: nat)
    returns (counts': map<string, nat>)
    requires i < |normalized| == |ms| && Distinct(normalized) && Snapshot(normalized) == SecondPass(ms, i)
    requires forall id :: CountOf(counts, id) == Room(ms, i, id)
    modifies normalized[i]
    ensures Snapshot(normalized) == SecondPass(ms, i + 1)
    ensures forall id :: CountOf(counts', id) == Room(ms, i + 1, id)
  {
    var message := normalized[i];
    AfterFirstPassRole(ms, i);
    assert SecondPass(ms, i)[i] == AfterFirstPass(ms, i)
        && Snapshot(normalized)[i] == Message(message.role, message.content);
    counts' := counts;
    if message.role.User? {
      counts' := FilterTurn(message, counts, ms, i);
    }
    assert forall k :: 0 <= k < |ms| && k != i ==> normalized[k] != message;
    assert Snapshot(normalized) == old(Snapshot(normalized))[i := Message(message.role, message.content)];
    SecondPassNext(ms, i);
  }

  method FilterResults(normalized: seq<Turn>, quotas: map<string, nat>, ghost ms: seq<Message>)
    requires Distinct(normalized) && Snapshot(normalized) == FirstPass(ms, |ms|)
    requires forall id :: CountOf(quotas, id) == Quota(ms, id)
    modifies normalized
    ensures Snapshot(normalized) == SecondPass(ms, |ms|)
  {
    var counts := quotas;
    assert SecondPass(ms, 0) == FirstPass(ms, |ms|);
    for i := 0 to |normalized|
      invariant Snapshot(normalized) == SecondPass(ms, i)
      invariant forall id :: CountOf(counts, id) == Room(ms, i, id)
    {
      counts := FilterAt(normalized, counts, ms, i);
    }
  }

  method SanitizeBedrockToolPairs(messages: seq<Turn>) returns (normalized: seq<Turn>)
    requires Distinct(messages)
    modifies messages
    ensures Snapshot(normalized) == Sanitize(old(Snapshot(messages)))
    ensures forall t :: t in normalized ==> t in messages
  {
    normalized := MergeConsecutiveToolResultMessages(messages);
    ghost var ms := Snapshot(normalized);
    assert forall k :: 0 <= k < |normalized| ==> normalized[k] in messages;
    var counts := PruneUses(normalized, ms);
    FilterResults(normalized, counts, ms);
    assert SecondPass(ms, |ms|) == Sanitize(old(Snapshot(messages)));
  }

  method AddToolCalls(own: seq<Block>, calls: seq<ToolCall>, pending: set<string>, answered: set<string>,
                      uuid: nat -> string, used: nat)
    returns (content: seq<Block>, pending': set<string>, used': nat)
    ensures (content, Ids(pending', answered, used')) == AddCalls(own, Ids(pending, answered, used), calls, uuid)
  {
    content, pending', used' := own, pending, used;
    for k := 0 to |calls|
      invariant (content, Ids(pending', answered, used'))
          == AddCalls(own, Ids(pending, answered, used), calls[..k], uuid)
    {
      assert calls[..k + 1][..k] == calls[..k];
      var call := calls[k];
      var (toolUseId, next) := IdOrSpare(call.id, uuid, used');
      used' := next;
      if toolUseId in pending' { continue; }
      if toolUseId !in answered { continue; }
      pending' := pending' + {toolUseId};
      content := content + [ToolUse(toolUseId, if call.name == "" then "unknown_tool" else call.name, call.input)];
    }
    assert calls[..|calls|] == calls;
  }

  method MessagesFromOpenAI(messages: seq<OpenAIMessage>, uuid: nat -> string) returns (result: seq<Turn>)
    ensures Snapshot(result) == Sanitize(Convert(messages, uuid))
    ensures fresh(result)
  {
    var converted: seq<Turn> := [];
    var answered := CollectAnsweredToolUseIds(messages);
    ghost var start := Ids({}, answered, 0);
    var pending: set<string>, used: nat := {}, 0;
    assert Snapshot([]) == [] && messages[..0] == [];
    for i := 0 to |messages|
      invariant Distinct(converted) && fresh(converted)
      invariant (Snapshot(converted), Ids(pending, answered, used)) == ConvertFrom(messages[..i], start, uuid)
    {
      assert messages[..i + 1][..i] == messages[..i];
      var message := messages[i];
      if IsSkipped(message) { continue; }
      ghost var done, ids := Snapshot(converted), Ids(pending, answered, used);
      var turn;
      if message.role == "tool" {
        var (toolUseId, used') := IdOrSpare(message.toolCallId, uuid, used);
        used := used';
        pending := pending - {toolUseId};
        answered := answered + {toolUseId};
        turn := new Turn(User, [ToolResult(toolUseId, message.result, false)]);
      } else {
        var content;
        content, used := TextBlocksFromContent(message.content, CallIds(message.toolCalls), answered, uuid, used);
        content, pending, used := AddToolCalls(content, message.toolCalls, pending, answered, uuid, used);
        if content == [] { content := [BLANK]; }
        turn := new Turn(NormalizeRole(message.role), content);
      }
      converted := converted + [turn];
      assert Snapshot(converted) == done + [ConvertOne(message, ids, uuid).0];
    }
    assert messages[..|messages|] == messages;
    if converted == [] {
      var turn := new Turn(User, [BLANK]);
      converted := [turn];
    }
    assert Snapshot(converted) == Convert(messages, uuid);
    result := SanitizeBedrockToolPairs(converted);
    assert forall k :: 0 <= k < |result| ==> result[k] in converted;
  }
}
