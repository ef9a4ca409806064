/**
 The values and the pure meaning of the Bedrock conversation converter
 (open-sse/executors/bedrock.ts): content blocks, turns, the merge of adjacent
 tool-result turns and the pruning of unpaired tool uses and results.
 */
module BedrockMessages {
  import opened JsText

  datatype Role = User | Assistant

  /** One Converse content block. Payloads no branch looks at are plain text. */
  datatype Block =
    | Text(text: string)
    | Image(format: string, bytes: string)
    | ToolUse(toolUseId: string, name: string, input: string)
    | ToolResult(toolUseId: string, result: string, isError: bool)

  datatype Message = Message(role: Role, content: seq<Block>)

  datatype Kind = Use | Result

  /** A tool id counts only when something is left of it after trimming. */
  function NormalizeToolUseId(id: string): Option<string> {
    if Trim(id) == "" then None else Some(Trim(id))
  }

  /** The normalised id of a tool use (or tool result) block; other blocks have none. */
  function IdOf(kind: Kind, b: Block): Option<string> {
    match b
    case ToolUse(id, _, _) => if kind.Use? then NormalizeToolUseId(id) else None
    case ToolResult(id, _, _) => if kind.Result? then NormalizeToolUseId(id) else None
    case _ => None
  }

  /** The number of uses (results) of `id` among the blocks. */
  function Count(kind: Kind, blocks: seq<Block>, id: string): nat {
    if blocks == [] then 0
    else Count(kind, blocks[..|blocks| - 1], id) + (if IdOf(kind, blocks[|blocks| - 1]) == Some(id) then 1 else 0)
  }

  predicate IsToolResultOnly(m: Message) {
    m.role.User? && m.content != [] && forall b :: b in m.content ==> IdOf(Result, b).Some?
  }

  /** The placeholder Bedrock gets instead of an empty turn. */
  const BLANK := Text(" ")

  function NonEmpty(content: seq<Block>): seq<Block> {
    if content == [] then [BLANK] else content
  }

  // ----- merging adjacent tool-result turns -----

  function MergeInto(acc: seq<Message>, m: Message): seq<Message> {
    if acc != [] && IsToolResultOnly(acc[|acc| - 1]) && IsToolResultOnly(m) then
      acc[|acc| - 1 := Message(User, acc[|acc| - 1].content + m.content)]
    else acc + [m]
  }

  function MergeFrom(acc: seq<Message>, ms: seq<Message>): seq<Message>
    decreases |ms|
  {
    if ms == [] then acc else MergeFrom(MergeInto(acc, ms[0]), ms[1..])
  }

  function Merge(ms: seq<Message>): seq<Message> {
    MergeFrom([], ms)
  }

  // ----- which uses and results survive -----

  /** The number of results of `id` in message `i` when it is a user turn. */
  function ResultsAt(ms: seq<Message>, i: int, id: string): nat {
    if 0 <= i < |ms| && ms[i].role.User? then Count(Result, ms[i].content, id) else 0
  }

  /** The number of uses of `id` in message `i` when it is an assistant turn. */
  function UsesAt(ms: seq<Message>, i: int, id: string): nat {
    if 0 <= i < |ms| && ms[i].role.Assistant? then Count(Use, ms[i].content, id) else 0
  }

  /** Turn `i` uses `id` and the very next turn holds a result for it. */
  predicate Matched(ms: seq<Message>, i: int, id: string) {
    UsesAt(ms, i, id) > 0 && ResultsAt(ms, i + 1, id) > 0
  }

  /** How many of the first `n` turns are matched for `id`. */
  function MatchedBefore(ms: seq<Message>, n: nat, id: string): nat {
    if n == 0 then 0 else MatchedBefore(ms, n - 1, id) + (if Matched(ms, n - 1, id) then 1 else 0)
  }

  /** The number of results of `id` that may stay: one for each matched assistant turn. */
  function Quota(ms: seq<Message>, id: string): nat {
    MatchedBefore(ms, |ms|, id)
  }

  /** The number of results of `id` in the user turns among the first `n` turns. */
  function ResultsBefore(ms: seq<Message>, n: nat, id: string): nat {
    if n == 0 then 0 else ResultsBefore(ms, n - 1, id) + ResultsAt(ms, n - 1, id)
  }

  /** The blocks of assistant turn `i` without its unmatched tool uses. */
  function KeepUses(ms: seq<Message>, i: nat, content: seq<Block>): seq<Block> {
    if content == [] then []
    else
      var init, b := content[..|content| - 1], content[|content| - 1];
      var id := IdOf(Use, b);
      KeepUses(ms, i, init) + (if id.None? || Matched(ms, i, id.value) then [b] else [])
  }

  /** The blocks of user turn `i` where, list-wide, only the first `Quota` results of each id stay. */
  function KeepResults(ms: seq<Message>, i: nat, content: seq<Block>): seq<Block> {
    if content == [] then []
    else
      var init, b := content[..|content| - 1], content[|content| - 1];
      var id := IdOf(Result, b);
      KeepResults(ms, i, init) +
      (if id.None? || ResultsBefore(ms, i, id.value) + Count(Result, init, id.value) < Quota(ms, id.value) then [b]
          else [])
  }

  predicate UsesTools(content: seq<Block>) {
    exists b :: b in content && IdOf(Use, b).Some?
  }

  /** Turn `i` after sanitising; an assistant turn that uses no tool is left as it is, even when empty. */
  function Clean(ms: seq<Message>, i: nat): Message
    requires i < |ms|
  {
    if ms[i].role.User? then Message(User, NonEmpty(KeepResults(ms, i, ms[i].content)))
    else if UsesTools(ms[i].content) then Message(Assistant, NonEmpty(KeepUses(ms, i, ms[i].content)))
    else ms[i]
  }

  /** `sanitizeBedrockToolPairs` on values. */
  function Sanitize(messages: seq<Message>): seq<Message> {
    var ms := Merge(messages);
    seq(|ms|, i requires 0 <= i < |ms| => Clean(ms, i))
  }
}
