/**
 The non-streaming conversion of open-sse/executors/bedrock.ts, and the proof that
 streaming a well-formed run of events gives the client the same message.
 */
module BedrockStreamAgreement {
  import opened JsText
  import opened BedrockStream

  // ----- the blocks the events build up, and the message made from them at once -----

  datatype Tool = Tool(id: string, name: string, args: string)
  datatype OutputBlock = TextBlock(text: string) | ReasoningBlock(text: string) | ToolBlock(tool: Tool)

  /** What a client collects; nothing collected is the empty string. */
  datatype Answer = Answer(text: string, reasoning: string, tools: seq<Tool>)

  /** The message of an answer made at once: its content may be null, its reasoning absent. */
  datatype Reply = Reply(content: Option<string>, reasoning: Option<string>, tools: seq<Tool>) {
    function Collected(): Answer { Answer(content.GetOr(""), reasoning.GetOr(""), tools) }
  }

  predicate HasReasoning(blocks: seq<OutputBlock>) { exists b :: b in blocks && b.ReasoningBlock? }

  function TextOf(blocks: seq<OutputBlock>): string {
    if blocks == [] then ""
    else
      var b := blocks[|blocks| - 1];
      TextOf(blocks[..|blocks| - 1]) + (if b.TextBlock? then b.text else "")
  }

  function ReasoningOf(blocks: seq<OutputBlock>): string {
    if blocks == [] then ""
    else
      var b := blocks[|blocks| - 1];
      ReasoningOf(blocks[..|blocks| - 1]) + (if b.ReasoningBlock? then b.text else "")
  }

  function ToolsOf(blocks: seq<OutputBlock>): seq<Tool> {
    if blocks == [] then []
    else
      var b := blocks[|blocks| - 1];
      ToolsOf(blocks[..|blocks| - 1]) + (if b.ToolBlock? then [b.tool] else [])
  }

  function Printed(tools: seq<Tool>, toJson: string -> string): seq<Tool> {
    seq(|tools|, k requires 0 <= k < |tools| => tools[k].(args := toJson(tools[k].args)))
  }

  /** The content is null exactly when there are tools and no text; reasoning is there when some block has it. */
  function ReplyOf(blocks: seq<OutputBlock>, toJson: string -> string): Reply {
    Reply(if TextOf(blocks) == "" && ToolsOf(blocks) != [] then None else Some(TextOf(blocks)),
          if HasReasoning(blocks) then Some(ReasoningOf(blocks)) else None,
          Printed(ToolsOf(blocks), toJson))
  }

  lemma {:induction false} NoReasoningIsEmpty(blocks: seq<OutputBlock>)
    requires !HasReasoning(blocks)
    ensures ReasoningOf(blocks) == ""
  {
    if blocks == [] {
    } else {
      assert blocks[|blocks| - 1] in blocks && forall b :: b in blocks[..|blocks| - 1] ==> b in blocks;
      NoReasoningIsEmpty(blocks[..|blocks| - 1]);
    }
  }

  /** What the conversion has gathered from the blocks read so far. */
  datatype Gathered = Gathered(text: string, reasoning: string, hasReasoning: bool, toolCalls: seq<Tool>) {
    function Add(b: OutputBlock, toJson: string -> string): Gathered {
      match b
      case TextBlock(t) => this.(text := text + t)
      case ReasoningBlock(t) => this.(reasoning := reasoning + t, hasReasoning := true)
      case ToolBlock(tool) => this.(toolCalls := toolCalls + [tool.(args := toJson(tool.args))])
    }
  }

  function GatheredFrom(blocks: seq<OutputBlock>, toJson: string -> string): Gathered {
    Gathered(TextOf(blocks), ReasoningOf(blocks), HasReasoning(blocks), Printed(ToolsOf(blocks), toJson))
  }

  lemma BlockSnoc(blocks: seq<OutputBlock>, b: OutputBlock)
    ensures TextOf(blocks + [b]) == TextOf(blocks) + (if b.TextBlock? then b.text else "")
    ensures ReasoningOf(blocks + [b]) == ReasoningOf(blocks) + (if b.ReasoningBlock? then b.text else "")
    ensures ToolsOf(blocks + [b]) == ToolsOf(blocks) + (if b.ToolBlock? then [b.tool] else [])
  {
    assert (blocks + [b])[..|blocks|] == blocks;
  }

  lemma ReasoningSnoc(blocks: seq<OutputBlock>, b: OutputBlock)
    ensures HasReasoning(blocks + [b]) <==> HasReasoning(blocks) || b.ReasoningBlock?
  {
    assert b in blocks + [b] && forall x :: x in blocks + [b] <==> x in blocks || x == b;
  }

  lemma PrintedSnoc(blocks: seq<OutputBlock>, b: OutputBlock, toJson: string -> string)
    ensures Printed(ToolsOf(blocks + [b]), toJson)
         == Printed(ToolsOf(blocks), toJson) + (if b.ToolBlock? then [b.tool.(args := toJson(b.tool.args))] else [])
  {
    BlockSnoc(blocks, b);
  }

  lemma GatheredSnoc(blocks: seq<OutputBlock>, b: OutputBlock, toJson: string -> string)
    ensures GatheredFrom(blocks + [b], toJson) == GatheredFrom(blocks, toJson).Add(b, toJson)
  {
    BlockSnoc(blocks, b);
    ReasoningSnoc(blocks, b);
    PrintedSnoc(blocks, b, toJson);
  }

  /** `contentBlocksToOpenAIMessage`; `toJson` turns the collected text of a tool input into its printed JSON. */
  method ContentBlocksToOpenAIMessage(blocks: seq<OutputBlock>, toJson: string -> string) returns (r: Reply)
    ensures r == ReplyOf(blocks, toJson)
  {
    var g := Gathered("", "", false, []);
    for k := 0 to |blocks|
      invariant g == GatheredFrom(blocks[..k], toJson)
    {
      GatheredSnoc(blocks[..k], blocks[k], toJson);
      assert blocks[..k + 1] == blocks[..k] + [blocks[k]];
      g := g.Add(blocks[k], toJson);
    }
    assert blocks[..|blocks|] == blocks;
    r := Reply(Some(g.text), if g.hasReasoning then Some(g.reasoning) else None, g.toolCalls);
    if |g.toolCalls| > 0 && g.text == "" {
      r := r.(content := None);
    }
  }

  lemma {:induction false} HasText(blocks: seq<OutputBlock>)
    ensures TextOf(blocks) == "" <==> forall b :: b in blocks && b.TextBlock? ==> b.text == ""
  {
    if blocks == [] {
    } else {
      HasText(blocks[..|blocks| - 1]);
      assert blocks == blocks[..|blocks| - 1] + [blocks[|blocks| - 1]];
    }
  }

  lemma {:induction false} HasTools(blocks: seq<OutputBlock>)
    ensures ToolsOf(blocks) == [] <==> forall b :: b in blocks ==> !b.ToolBlock?
  {
    if blocks == [] {
    } else {
      HasTools(blocks[..|blocks| - 1]);
      assert blocks == blocks[..|blocks| - 1] + [blocks[|blocks| - 1]];
    }
  }

  /** When the message has content and reasoning, and what becomes of its tools. */
  lemma ReplyIs(blocks: seq<OutputBlock>, toJson: string -> string)
    ensures var r, tools := ReplyOf(blocks, toJson), ToolsOf(blocks);
      && (r.content.None? <==> (exists b :: b in blocks && b.ToolBlock?)
                               && forall b :: b in blocks && b.TextBlock? ==> b.text == "")
      && (r.reasoning.Some? <==> exists b :: b in blocks && b.ReasoningBlock?)
      && |r.tools| == |tools|
      && forall k :: 0 <= k < |tools| ==> r.tools[k] == Tool(tools[k].id, tools[k].name, toJson(tools[k].args))
  {
    HasText(blocks);
    HasTools(blocks);
  }

  // ----- what a client makes of the chunks -----

  function Receive(a: Answer, c: Chunk): Answer {
    match c
    case ContentChunk(t) => a.(text := a.text + t)
    case ReasoningChunk(t) => a.(reasoning := a.reasoning + t)
    case ToolChunk(_, id, name) => a.(tools := a.tools + [Tool(id, name, "")])
    case ArgsChunk(k, t) => if k < |a.tools| then a.(tools := a.tools[k := a.tools[k].(args := a.tools[k].args + t)])
        else a
    case _ => a
  }

  function Received(chunks: seq<Chunk>): Answer {
    if chunks == [] then Answer("", "", [])
    else Receive(Received(chunks[..|chunks| - 1]), chunks[|chunks| - 1])
  }

  lemma ReceivedSnoc(chunks: seq<Chunk>, c: Chunk)
    ensures Received(chunks + [c]) == Receive(Received(chunks), c)
  {
    assert (chunks + [c])[..|chunks|] == chunks;
  }

  // ----- well-formed streams and the blocks they build -----

  type Indexed = seq<(int, OutputBlock)>

  /** The last block with the index, or `|blocks|`. */
  function Find(blocks: Indexed, index: int): (p: nat)
    ensures p <= |blocks| && (p < |blocks| ==> blocks[p].0 == index)
  {
    if blocks == [] then 0
    else if blocks[|blocks| - 1].0 == index then |blocks| - 1
    else
      var p := Find(blocks[..|blocks| - 1], index);
      if p < |blocks| - 1 then p else |blocks|
  }

  predicate IsNew(blocks: Indexed, index: int) {
    forall k :: 0 <= k < |blocks| ==> blocks[k].0 < index
  }

  /** Text goes on in the last block when that has the index, and otherwise opens a new one. */
  function AddText(blocks: Indexed, index: int, b: OutputBlock): Indexed
    requires !b.ToolBlock?
  {
    var n := |blocks|;
    if n > 0 && blocks[n - 1].0 == index then
      match (blocks[n - 1].1, b)
      case (TextBlock(prior), TextBlock(t)) => blocks[n - 1 := (index, TextBlock(prior + t))]
      case (ReasoningBlock(prior), ReasoningBlock(t)) => blocks[n - 1 := (index, ReasoningBlock(prior + t))]
      case _ => blocks
    else blocks + [(index, b)]
  }

  function AddArgs(blocks: Indexed, index: int, t: string): Indexed {
    var p := Find(blocks, index);
    if p < |blocks| && blocks[p].1.ToolBlock? then
      var tool := blocks[p].1.tool;
      blocks[p := (index, ToolBlock(tool.(args := tool.args + t)))]
    else blocks
  }

  function AddDelta(blocks: Indexed, d: Delta): Indexed {
    if d.text.Some? then AddText(blocks, d.block, TextBlock(d.text.value))
    else if d.reasoning.Some? then AddText(blocks, d.block, ReasoningBlock(d.reasoning.value))
    else if d.toolInput.Some? then AddArgs(blocks, d.block, d.toolInput.value)
    else blocks
  }

  function AddEvent(blocks: Indexed, e: Event): Indexed {
    if e.start.Some? then blocks + [(e.start.value.block, ToolBlock(Tool(e.start.value.id, e.start.value.name, "")))]
    else if e.delta.Some? then AddDelta(blocks, e.delta.value)
    else blocks
  }

  /** The content blocks, by block index, that the events build up. */
  function Assemble(events: seq<Event>): Indexed {
    if events == [] then [] else AddEvent(Assemble(events[..|events| - 1]), events[|events| - 1])
  }

  lemma AssembleSnoc(init: seq<Event>, e: Event)
    ensures Assemble(init + [e]) == AddEvent(Assemble(init), e)
  {
    assert (init + [e])[..|init|] == init;
  }

  predicate FitsText(blocks: Indexed, index: int, b: OutputBlock) {
    var n := |blocks|;
    IsNew(blocks, index)
    || (n > 0 && blocks[n - 1].0 == index
        && blocks[n - 1].1.TextBlock? == b.TextBlock? && blocks[n - 1].1.ReasoningBlock? == b.ReasoningBlock?)
  }

  predicate FitsArgs(blocks: Indexed, index: int) {
    Find(blocks, index) < |blocks| && blocks[Find(blocks, index)].1.ToolBlock?
  }

  /** The delta carries one kind of content and belongs to a block of that kind: for tools any started one. */
  predicate FitsDelta(blocks: Indexed, d: Delta) {
    && (d.text.Some? ==> d.reasoning.None? && d.toolInput.None? && FitsText(blocks, d.block, TextBlock("")))
    && (d.reasoning.Some? ==> d.toolInput.None? && FitsText(blocks, d.block, ReasoningBlock("")))
    && (d.toolInput.Some? ==> FitsArgs(blocks, d.block))
  }

  predicate FitsEvent(blocks: Indexed, e: Event) {
    if e.start.Some? then IsNew(blocks, e.start.value.block) else e.delta.Some? ==> FitsDelta(blocks, e.delta.value)
  }

  /** No exception; block indexes grow; a tool block starts before its input arrives. */
  predicate WellFormed(events: seq<Event>) {
    events == []
    || var init, e := events[..|events| - 1], events[|events| - 1];
       WellFormed(init) && e.exception.None? && FitsEvent(Assemble(init), e)
  }

  function Blocks(blocks: Indexed): seq<OutputBlock> {
    seq(|blocks|, k requires 0 <= k < |blocks| => blocks[k].1)
  }

  /** How many tool blocks come before position `p`. */
  function Ordinal(blocks: seq<OutputBlock>, p: nat): nat
    requires p <= |blocks|
  {
    |ToolsOf(blocks[..p])|
  }

  lemma {:induction false} ToolsUpdate(blocks: seq<OutputBlock>, p: nat, tool: Tool)
    requires p < |blocks| && blocks[p].ToolBlock?
    ensures Ordinal(blocks, p) < |ToolsOf(blocks)| && ToolsOf(blocks)[Ordinal(blocks, p)] == blocks[p].tool
    ensures var after := blocks[p := ToolBlock(tool)];
      && ToolsOf(after) == ToolsOf(blocks)[Ordinal(blocks, p) := tool]
      && TextOf(after) == TextOf(blocks) && ReasoningOf(after) == ReasoningOf(blocks)
  {
    var n := |blocks| - 1;
    var after := blocks[p := ToolBlock(tool)];
    if p == n {
      assert after[..n] == blocks[..n];
    } else {
      ToolsUpdate(blocks[..n], p, tool);
      assert blocks[..n][..p] == blocks[..p];
      assert after[..n] == blocks[..n][p := ToolBlock(tool)];
    }
  }

  /** Adding text to the blocks adds it to the answer they give. */
  lemma AddTextGives(blocks: Indexed, index: int, b: OutputBlock)
    requires !b.ToolBlock? && FitsText(blocks, index, b)
    ensures var before, after := Blocks(blocks), Blocks(AddText(blocks, index, b));
      && TextOf(after) == TextOf(before) + (if b.TextBlock? then b.text else "")
      && ReasoningOf(after) == ReasoningOf(before) + (if b.ReasoningBlock? then b.text else "")
      && ToolsOf(after) == ToolsOf(before)
  {
    var before, after := Blocks(blocks), Blocks(AddText(blocks, index, b));
    var n := |blocks| - 1;
    if IsNew(blocks, index) {
      assert after == before + [b];
      BlockSnoc(before, b);
    } else {
      var init, last := before[..n], before[n];
      assert before == init + [last] && after == init + [after[n]];
      BlockSnoc(init, last);
      BlockSnoc(init, after[n]);
    }
  }

  // ----- the streamed answer is the answer made at once -----

  /**
   The index the translator uses for a tool block is the block's place among the
   tools; `count` is the number of tools started, `indexes` the index of each block.
   */
  ghost predicate IndexesAgree(blocks: Indexed, count: nat, indexes: int -> nat) {
    && count == |ToolsOf(Blocks(blocks))|
    && (forall j, k :: 0 <= j < k < |blocks| ==> blocks[j].0 < blocks[k].0)
    && (forall p :: 0 <= p < |blocks| && blocks[p].1.ToolBlock? ==> indexes(blocks[p].0) == Ordinal(Blocks(blocks), p))
  }

  lemma StartKeepsIndexes(prior: Indexed, count: nat, indexes: int -> nat, s: ToolStart, indexes': int -> nat)
    requires IndexesAgree(prior, count, indexes) && IsNew(prior, s.block)
    requires forall b :: indexes'(b) == if b == s.block then count else indexes(b)
    ensures IndexesAgree(prior + [(s.block, ToolBlock(Tool(s.id, s.name, "")))], count + 1, indexes')
  {
    var block := ToolBlock(Tool(s.id, s.name, ""));
    var blocks := prior + [(s.block, block)];
    assert Blocks(blocks) == Blocks(prior) + [block];
    BlockSnoc(Blocks(prior), block);
    forall p | 0 <= p < |blocks| && blocks[p].1.ToolBlock?
      ensures indexes'(blocks[p].0) == Ordinal(Blocks(blocks), p)
    {
      assert Blocks(blocks)[..p] == Blocks(prior)[..p];
      assert p == |prior| ==> Blocks(prior)[..p] == Blocks(prior);
    }
  }

  /** Indexes and kinds stay, and at most one block, not a tool, is added at the end under a new index. */
  ghost predicate KeepsShape(prior: Indexed, blocks: Indexed) {
    && |prior| <= |blocks| <= |prior| + 1
    && (forall p :: 0 <= p < |prior| ==> blocks[p].0 == prior[p].0 && blocks[p].1.ToolBlock? == prior[p].1.ToolBlock?)
    && (|blocks| > |prior| ==> !blocks[|prior|].1.ToolBlock? && IsNew(prior, blocks[|prior|].0))
  }

  lemma DeltaKeepsShape(prior: Indexed, d: Delta)
    requires FitsDelta(prior, d)
    ensures KeepsShape(prior, AddDelta(prior, d))
  {
  }

  lemma {:induction false} ShapeKeepsOrdinals(prior: Indexed, blocks: Indexed, p: nat)
    requires KeepsShape(prior, blocks) && p <= |blocks|
    ensures Ordinal(Blocks(blocks), p) == Ordinal(Blocks(prior), if p <= |prior| then p else |prior|)
  {
    if p == 0 {
    } else {
      ShapeKeepsOrdinals(prior, blocks, p - 1);
      assert Blocks(blocks)[..p] == Blocks(blocks)[..p - 1] + [blocks[p - 1].1];
      BlockSnoc(Blocks(blocks)[..p - 1], blocks[p - 1].1);
      if p <= |prior| {
        assert Blocks(prior)[..p] == Blocks(prior)[..p - 1] + [prior[p - 1].1];
        BlockSnoc(Blocks(prior)[..p - 1], prior[p - 1].1);
      }
    }
  }

  lemma ShapeKeepsIndexes(prior: Indexed, blocks: Indexed, count: nat, indexes: int -> nat, indexes': int -> nat)
    requires IndexesAgree(prior, count, indexes) && KeepsShape(prior, blocks)
    requires forall b :: indexes'(b) == indexes(b)
    ensures IndexesAgree(blocks, count, indexes')
  {
    forall p | 0 <= p < |blocks| && blocks[p].1.ToolBlock?
      ensures indexes'(blocks[p].0) == Ordinal(Blocks(blocks), p)
    {
      ShapeKeepsOrdinals(prior, blocks, p);
    }
    ShapeKeepsOrdinals(prior, blocks, |blocks|);
    assert Blocks(blocks)[..|blocks|] == Blocks(blocks) && Blocks(prior)[..|prior|] == Blocks(prior);
  }

  ghost predicate EventsAgree(events: seq<Event>) {
    IndexesAgree(Assemble(events), StartCount(events), b => IndexFor(events, b))
  }

  lemma EventKeepsIndexes(init: seq<Event>, e: Event)
    requires EventsAgree(init) && FitsEvent(Assemble(init), e)
    ensures EventsAgree(init + [e])
  {
    var prior := Assemble(init);
    var indexes, indexes' := b => IndexFor(init, b), b => IndexFor(init + [e], b);
    Advance(init, e);
    AssembleSnoc(init, e);
    if e.start.Some? {
      StartKeepsIndexes(prior, StartCount(init), indexes, e.start.value, indexes');
    } else {
      if e.delta.Some? { DeltaKeepsShape(prior, e.delta.value); }
      ShapeKeepsIndexes(prior, AddEvent(prior, e), StartCount(init), indexes, indexes');
    }
  }

  lemma {:induction false} WellFormedIndexes(events: seq<Event>)
    requires WellFormed(events)
    ensures EventsAgree(events)
  {
    if events == [] {
    } else {
      var init, e := events[..|events| - 1], events[|events| - 1];
      WellFormedIndexes(init);
      EventKeepsIndexes(init, e);
      assert events == init + [e];
    }
  }

  function AnswerOf(blocks: seq<OutputBlock>): Answer {
    Answer(TextOf(blocks), ReasoningOf(blocks), ToolsOf(blocks))
  }

  lemma TextReceived(a: Answer, blocks: Indexed, index: int, b: OutputBlock)
    requires a == AnswerOf(Blocks(blocks)) && !b.ToolBlock? && FitsText(blocks, index, b)
    ensures AnswerOf(Blocks(AddText(blocks, index, b)))
         == Receive(a, if b.TextBlock? then ContentChunk(b.text) else ReasoningChunk(b.text))
    ensures b.text == "" ==> AnswerOf(Blocks(AddText(blocks, index, b))) == a
  {
    AddTextGives(blocks, index, b);
  }

  lemma ArgsReceived(a: Answer, blocks: Indexed, index: int, t: string)
    requires a == AnswerOf(Blocks(blocks)) && FitsArgs(blocks, index)
    ensures AnswerOf(Blocks(AddArgs(blocks, index, t)))
         == Receive(a, ArgsChunk(Ordinal(Blocks(blocks), Find(blocks, index)), t))
  {
    var p := Find(blocks, index);
    var tool := blocks[p].1.tool;
    ToolsUpdate(Blocks(blocks), p, tool.(args := tool.args + t));
    assert Blocks(AddArgs(blocks, index, t)) == Blocks(blocks)[p := ToolBlock(tool.(args := tool.args + t))];
  }

  /** A well-formed delta changes the received answer as it changes the assembled one. */
  lemma DeltaReceived(prior: Indexed, d: Delta, index: nat, sent: seq<Chunk>)
    requires FitsDelta(prior, d) && Received(sent) == AnswerOf(Blocks(prior))
    requires d.toolInput.Some? ==> index == Ordinal(Blocks(prior), Find(prior, d.block))
    ensures Received(sent + DeltaChunks(index, d)) == AnswerOf(Blocks(AddDelta(prior, d)))
  {
    var a := Received(sent);
    assert sent + [] == sent;
    if d.text.Some? {
      TextReceived(a, prior, d.block, TextBlock(d.text.value));
      ReceivedSnoc(sent, ContentChunk(d.text.value));
      assert DeltaChunks(index, d) == if d.text.value == "" then [] else [ContentChunk(d.text.value)];
    } else if d.reasoning.Some? {
      TextReceived(a, prior, d.block, ReasoningBlock(d.reasoning.value));
      ReceivedSnoc(sent, ReasoningChunk(d.reasoning.value));
      assert DeltaChunks(index, d) == if d.reasoning.value == "" then [] else [ReasoningChunk(d.reasoning.value)];
    } else if d.toolInput.Some? {
      ArgsReceived(a, prior, d.block, d.toolInput.value);
      ReceivedSnoc(sent, ArgsChunk(index, d.toolInput.value));
      assert DeltaChunks(index, d) == [ArgsChunk(index, d.toolInput.value)];
    } else {
      assert DeltaChunks(index, d) == [];
    }
  }

  lemma StartReceived(prior: Indexed, s: ToolStart, index: nat, sent: seq<Chunk>)
    requires Received(sent) == AnswerOf(Blocks(prior))
    ensures Received(sent + [ToolChunk(index, s.id, s.name)])
         == AnswerOf(Blocks(prior + [(s.block, ToolBlock(Tool(s.id, s.name, "")))]))
  {
    var block := ToolBlock(Tool(s.id, s.name, ""));
    ReceivedSnoc(sent, ToolChunk(index, s.id, s.name));
    BlockSnoc(Blocks(prior), block);
    assert Blocks(prior + [(s.block, block)]) == Blocks(prior) + [block];
  }

  lemma EventReceived(init: seq<Event>, e: Event)
    requires EventsAgree(init) && FitsEvent(Assemble(init), e)
    requires Received(Sent(init)) == AnswerOf(Blocks(Assemble(init)))
    ensures Received(Sent(init + [e])) == AnswerOf(Blocks(Assemble(init + [e])))
  {
    var prior, sent := Assemble(init), Sent(init);
    AssembleSnoc(init, e);
    assert Sent(init + [e]) == sent + EventChunks(init, e) by { Advance(init, e); }
    if e.start.Some? {
      StartReceived(prior, e.start.value, StartCount(init), sent);
    } else if e.delta.Some? {
      DeltaReceived(prior, e.delta.value, IndexFor(init, e.delta.value.block), sent);
    } else {
      assert sent + [] == sent;
    }
  }

  lemma {:induction false} SentReceived(events: seq<Event>)
    requires WellFormed(events)
    ensures Received(Sent(events)) == AnswerOf(Blocks(Assemble(events)))
  {
    if events == [] {
      ReceivedSnoc([], RoleChunk);
      assert [] + [RoleChunk] == [RoleChunk];
    } else {
      var init, e := events[..|events| - 1], events[|events| - 1];
      assert events == init + [e];
      SentReceived(init);
      WellFormedIndexes(init);
      EventReceived(init, e);
    }
  }

  lemma {:induction false} WellFormedHandled(events: seq<Event>)
    requires WellFormed(events)
    ensures forall k :: 0 <= k < |events| ==> events[k].exception.None?
  {
    if events == [] {
    } else {
      WellFormedHandled(events[..|events| - 1]);
    }
  }

  lemma WellFormedTranscript(events: seq<Event>)
    requires WellFormed(events)
    ensures Transcript(events, Exhausted)
         == Sent(events) + [FinishChunk(StopReason(events), LastUsage(events)), DoneChunk]
  {
    WellFormedHandled(events);
    TranscriptAt(events, Exhausted, |events|);
    assert events[..|events|] == events;
  }

  lemma EndIgnored(sent: seq<Chunk>, reason: string, usage: Option<Usage>)
    ensures Received(sent + [FinishChunk(reason, usage), DoneChunk]) == Received(sent)
  {
    var finish := FinishChunk(reason, usage);
    ReceivedSnoc(sent, finish);
    ReceivedSnoc(sent + [finish], DoneChunk);
    assert sent + [finish, DoneChunk] == sent + [finish] + [DoneChunk];
  }

  lemma FinishAgrees(events: seq<Event>)
    requires WellFormed(events)
    ensures var out := Transcript(events, Exhausted); var n := |out|;
      && n >= 2 && out[n - 2].FinishChunk?
      && Concludes(events, |events|, out[n - 2].reason) && Totals(events, |events|, out[n - 2].usage)
  {
    EndsRight(events, |events|);
    assert events[..|events|] == events;
    WellFormedTranscript(events);
  }

  lemma AnswersAgree(events: seq<Event>, toJson: string -> string)
    requires WellFormed(events)
    ensures var received := Received(Transcript(events, Exhausted));
      received.(tools := Printed(received.tools, toJson)) == ReplyOf(Blocks(Assemble(events)), toJson).Collected()
  {
    WellFormedTranscript(events);
    EndIgnored(Sent(events), StopReason(events), LastUsage(events));
    SentReceived(events);
    var blocks := Blocks(Assemble(events));
    if !HasReasoning(blocks) { NoReasoningIsEmpty(blocks); }
  }

  /**
   Streaming agrees with answering at once. For a well-formed stream, what a client
   collects from the chunks has the text, the reasoning, the tool ids and names and
   (once its tool inputs are printed) the tool arguments of the message made from
   the blocks the events build up; the chunk before the end marker carries the
   reason of the last stop in the client's words and the last usage.
   */
  lemma StreamAgreesWithBlocks(events: seq<Event>, toJson: string -> string)
    requires WellFormed(events)
    ensures var out, blocks := Transcript(events, Exhausted), Blocks(Assemble(events));
      && Received(out).(tools := Printed(Received(out).tools, toJson))
         == ReplyOf(blocks, toJson).Collected()
      && out[|out| - 2].FinishChunk?
      && Concludes(events, |events|, out[|out| - 2].reason) && Totals(events, |events|, out[|out| - 2].usage)
  {
    FinishAgrees(events);
    AnswersAgree(events, toJson);
  }
}
