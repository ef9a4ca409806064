/**
 The Converse stream translator of open-sse/executors/bedrock.ts: what each upstream
 event becomes, and what every run looks like. The events are whatever is sent.
 */
module BedrockStream {
  import opened JsText

  datatype Fault = Fault(name: string, message: string)
  datatype ToolStart = ToolStart(block: int, id: string, name: string)
  datatype Delta = Delta(block: int, text: Option<string>, reasoning: Option<string>, toolInput: Option<string>)
  datatype Usage = Usage(input: nat, output: nat, total: nat)

  /** One upstream event. The fields are looked at in this order; an empty stop reason is an absent one. */
  datatype Event = Event(
    exception: Option<Fault>, start: Option<ToolStart>, delta: Option<Delta>, stop: string, usage: Option<Usage>)

  /** How iterating over the events ends when no exception event stops it. */
  datatype Ending = Exhausted | Broken(error: Fault)

  datatype Chunk =
    | RoleChunk
    | ContentChunk(text: string)
    | ReasoningChunk(text: string)
    | ToolChunk(index: nat, id: string, name: string)
    | ArgsChunk(index: nat, args: string)
    | FaultChunk(fault: Fault)
    | FinishChunk(reason: string, usage: Option<Usage>)
    | DoneChunk

  function ConvertStopReason(reason: string): string {
    if reason == "tool_use" then "tool_calls" else if reason == "max_tokens" then "length" else "stop"
  }

  // ----- what each event means, given the ones before it -----

  /** The number of tool starts among the events. */
  function StartCount(events: seq<Event>): nat {
    if events == [] then 0
    else StartCount(events[..|events| - 1]) + (if events[|events| - 1].start.Some? then 1 else 0)
  }

  /** The number of tool starts before the latest start for the block, or 0 when it has none. */
  function IndexFor(events: seq<Event>, block: int): nat {
    if events == [] then 0
    else
      var init, e := events[..|events| - 1], events[|events| - 1];
      if e.start.Some? && e.start.value.block == block then StartCount(init) else IndexFor(init, block)
  }

  /** `index` is the tool index of the delta's block. */
  function DeltaChunks(index: nat, d: Delta): seq<Chunk> {
    (if d.text.GetOr("") != "" then [ContentChunk(d.text.value)] else []) +
    (if d.reasoning.GetOr("") != "" then [ReasoningChunk(d.reasoning.value)] else []) +
    (if d.toolInput.Some? then [ArgsChunk(index, d.toolInput.value)] else [])
  }

  function EventChunks(before: seq<Event>, e: Event): seq<Chunk> {
    match e.start
    case Some(s) => [ToolChunk(StartCount(before), s.id, s.name)]
    case None => if e.delta.Some? then DeltaChunks(IndexFor(before, e.delta.value.block), e.delta.value) else []
  }

  /** The role chunk and everything sent for the events. */
  function Sent(events: seq<Event>): seq<Chunk> {
    if events == [] then [RoleChunk]
    else Sent(events[..|events| - 1]) + EventChunks(events[..|events| - 1], events[|events| - 1])
  }

  predicate IsContent(e: Event) { e.start.Some? || e.delta.Some? }

  function StopReason(events: seq<Event>): string {
    if events == [] then "stop"
    else
      var e := events[|events| - 1];
      if !IsContent(e) && e.stop != "" then ConvertStopReason(e.stop) else StopReason(events[..|events| - 1])
  }

  function LastUsage(events: seq<Event>): Option<Usage> {
    if events == [] then None
    else
      var e := events[|events| - 1];
      if !IsContent(e) && e.stop == "" && e.usage.Some? then e.usage else LastUsage(events[..|events| - 1])
  }

  /** The number of events handled before the first exception event. */
  function Handled(events: seq<Event>): (n: nat)
    ensures n <= |events|
  {
    if events == [] || events[0].exception.Some? then 0 else 1 + Handled(events[1..])
  }

  /** What a run sends after its handled events; `cut` is the exception event that ended it early. */
  function Closing(handled: seq<Event>, cut: Option<Fault>, ending: Ending): seq<Chunk> {
    var finish := FinishChunk(StopReason(handled), LastUsage(handled));
    if cut.Some? then [FaultChunk(cut.value), finish, DoneChunk]
    else if ending.Broken? then [FaultChunk(ending.error), DoneChunk]
    else [finish, DoneChunk]
  }

  /** The chunks a whole run sends. */
  function Transcript(events: seq<Event>, ending: Ending): seq<Chunk> {
    var n := Handled(events);
    Sent(events[..n]) + Closing(events[..n], if n < |events| then events[n].exception else None, ending)
  }

  lemma {:induction false} HandledFrom(events: seq<Event>, k: nat)
    requires k <= |events| && forall i :: 0 <= i < k ==> events[i].exception.None?
    ensures Handled(events) >= k
    ensures k < |events| && events[k].exception.Some? ==> Handled(events) == k
  {
    if k == 0 {
    } else {
      HandledFrom(events[1..], k - 1);
    }
  }

  /** What one more event adds. */
  lemma Advance(before: seq<Event>, e: Event)
    ensures var after := before + [e];
      && Sent(after) == Sent(before) + EventChunks(before, e)
      && StartCount(after) == StartCount(before) + (if e.start.Some? then 1 else 0)
      && (forall b :: IndexFor(after, b) == if e.start.Some? && e.start.value.block == b then StartCount(before)
          else IndexFor(before, b))
      && StopReason(after) == (if !IsContent(e) && e.stop != "" then ConvertStopReason(e.stop) else StopReason(before))
      && LastUsage(after) == (if !IsContent(e) && e.stop == "" && e.usage.Some? then e.usage else LastUsage(before))
  {
  }

  lemma TranscriptAt(events: seq<Event>, ending: Ending, n: nat)
    requires n <= |events| && forall k :: 0 <= k < n ==> events[k].exception.None?
    requires n < |events| ==> events[n].exception.Some?
    ensures Transcript(events, ending)
         == Sent(events[..n]) + Closing(events[..n], if n < |events| then events[n].exception else None, ending)
  {
    HandledFrom(events, n);
  }

  function Lookup(indexes: map<int, nat>, block: int): nat {
    if block in indexes then indexes[block] else 0
  }

  method DeltaToChunks(delta: Delta, indexes: map<int, nat>) returns (out: seq<Chunk>)
    ensures out == DeltaChunks(Lookup(indexes, delta.block), delta)
  {
    out := [];
    if delta.text.Some? && delta.text.value != "" {
      out := out + [ContentChunk(delta.text.value)];
    }
    if delta.reasoning.Some? && delta.reasoning.value != "" {
      out := out + [ReasoningChunk(delta.reasoning.value)];
    }
    if delta.toolInput.Some? {
      out := out + [ArgsChunk(Lookup(indexes, delta.block), delta.toolInput.value)];
    }
  }

  /** What the loop of the stream carries along. */
  datatype Progress = Progress(out: seq<Chunk>, blockToolIndexes: map<int, nat>, nextToolIndex: nat,
                               finishReason: string, finalUsage: Option<Usage>)

  ghost predicate Reached(p: Progress, events: seq<Event>) {
    && p.out == Sent(events)
    && p.nextToolIndex == StartCount(events)
    && (forall b :: Lookup(p.blockToolIndexes, b) == IndexFor(events, b))
    && p.finishReason == StopReason(events) && p.finalUsage == LastUsage(events)
  }

  /** The checks on one round, on values. */
  lemma StillReached(p: Progress, p': Progress, e: Event, before: seq<Event>)
    requires Reached(p, before) && p'.out == p.out + EventChunks(before, e)
    requires p'.nextToolIndex == p.nextToolIndex + (if e.start.Some? then 1 else 0)
    requires p'.blockToolIndexes == if e.start.Some? then p.blockToolIndexes[e.start.value.block := p.nextToolIndex]
        else p.blockToolIndexes
    requires p'.finishReason == if !IsContent(e) && e.stop != "" then ConvertStopReason(e.stop) else p.finishReason
    requires p'.finalUsage == if !IsContent(e) && e.stop == "" && e.usage.Some? then e.usage else p.finalUsage
    ensures Reached(p', before + [e])
  {
    Advance(before, e);
  }

  /** One round of the loop for an event that is no exception. */
  method HandleEvent(p: Progress, event: Event, ghost before: seq<Event>) returns (p': Progress)
    requires Reached(p, before)
    ensures Reached(p', before + [event])
  {
    ghost var sent := EventChunks(before, event);
    if event.start.Some? {
      var tool := event.start.value;
      p' := p.(out := p.out + [ToolChunk(p.nextToolIndex, tool.id, tool.name)],
               blockToolIndexes := p.blockToolIndexes[tool.block := p.nextToolIndex],
               nextToolIndex := p.nextToolIndex + 1);
    } else if event.delta.Some? {
      var chunks := DeltaToChunks(event.delta.value, p.blockToolIndexes);
      p' := p.(out := p.out + chunks);
    } else if event.stop != "" {
      p' := p.(finishReason := ConvertStopReason(event.stop));
    } else if event.usage.Some? {
      p' := p.(finalUsage := event.usage);
    } else {
      p' := p;
    }
    assert p'.out == p.out + sent;
    StillReached(p, p', event, before);
  }

  /** The stream as it runs, with its index map, counter, finish reason and usage. */
  method CreateOpenAIStream(events: seq<Event>, ending: Ending) returns (out: seq<Chunk>)
    ensures out == Transcript(events, ending)
  {
    var p := Progress([RoleChunk], map[], 0, "stop", None);
    for i := 0 to |events|
      invariant forall k :: 0 <= k < i ==> events[k].exception.None?
      invariant Reached(p, events[..i])
    {
      var exception := events[i].exception;
      if exception.Some? {
        TranscriptAt(events, ending, i);
        return p.out + [FaultChunk(exception.value), FinishChunk(p.finishReason, p.finalUsage), DoneChunk];
      }
      assert events[..i + 1] == events[..i] + [events[i]];
      p := HandleEvent(p, events[i], events[..i]);
    }
    TranscriptAt(events, ending, |events|);
    assert events[..|events|] == events;
    if ending.Broken? {
      return p.out + [FaultChunk(ending.error), DoneChunk];
    }
    return p.out + [FinishChunk(p.finishReason, p.finalUsage), DoneChunk];
  }

  // ----- every run -----

  /** The indexes under which the chunks announce tools, in order. */
  function Announced(chunks: seq<Chunk>): seq<nat> {
    if chunks == [] then []
    else
      var c := chunks[|chunks| - 1];
      Announced(chunks[..|chunks| - 1]) + (if c.ToolChunk? then [c.index] else [])
  }

  lemma {:induction false} AnnouncedConcat(a: seq<Chunk>, b: seq<Chunk>)
    ensures Announced(a + b) == Announced(a) + Announced(b)
  {
    if b == [] {
      assert a + b == a;
    } else {
      assert (a + b)[..|a + b| - 1] == a + b[..|b| - 1];
      AnnouncedConcat(a, b[..|b| - 1]);
    }
  }

  lemma {:induction false} NoneAnnounced(chunks: seq<Chunk>)
    requires forall c :: c in chunks ==> !c.ToolChunk?
    ensures Announced(chunks) == []
  {
    if chunks == [] {
    } else {
      assert chunks[|chunks| - 1] in chunks;
      NoneAnnounced(chunks[..|chunks| - 1]);
    }
  }

  lemma AnnouncedByEvent(before: seq<Event>, e: Event)
    ensures Announced(EventChunks(before, e)) == if e.start.Some? then [StartCount(before)] else []
  {
    if e.start.Some? {
      assert EventChunks(before, e)[..0] == [];
    } else {
      NoneAnnounced(EventChunks(before, e));
    }
  }

  lemma {:induction false} SentAnnounces(events: seq<Event>)
    ensures |Announced(Sent(events))| == StartCount(events)
    ensures forall k :: 0 <= k < StartCount(events) ==> Announced(Sent(events))[k] == k
  {
    if events == [] {
      NoneAnnounced([RoleChunk]);
    } else {
      var init, e := events[..|events| - 1], events[|events| - 1];
      SentAnnounces(init);
      AnnouncedConcat(Sent(init), EventChunks(init, e));
      AnnouncedByEvent(init, e);
    }
  }

  predicate IsFraming(c: Chunk) { c.RoleChunk? || c.FaultChunk? || c.FinishChunk? || c.DoneChunk? }

  /** The role first and only content after it. */
  ghost predicate RoleThenContent(chunks: seq<Chunk>) {
    |chunks| > 0 && chunks[0] == RoleChunk && forall i :: 1 <= i < |chunks| ==> !IsFraming(chunks[i])
  }

  lemma RoleThenMore(chunks: seq<Chunk>, more: seq<Chunk>)
    requires RoleThenContent(chunks) && forall i :: 0 <= i < |more| ==> !IsFraming(more[i])
    ensures RoleThenContent(chunks + more)
  {
  }

  lemma {:induction false} SentIsRoleThenContent(events: seq<Event>)
    ensures RoleThenContent(Sent(events))
  {
    if events == [] {
    } else {
      var init, e := events[..|events| - 1], events[|events| - 1];
      SentIsRoleThenContent(init);
      RoleThenMore(Sent(init), EventChunks(init, e));
    }
  }

  lemma ClosingShape(handled: seq<Event>, cut: Option<Fault>, ending: Ending)
    ensures var tail := Closing(handled, cut, ending);
      && |tail| > 0 && tail[|tail| - 1] == DoneChunk
      && (forall i :: 0 <= i < |tail| - 1 ==> tail[i].FaultChunk? || tail[i].FinishChunk?)
      && Announced(tail) == []
  {
    NoneAnnounced(Closing(handled, cut, ending));
  }

  lemma FramedRun(sent: seq<Chunk>, tail: seq<Chunk>)
    requires RoleThenContent(sent)
    requires |tail| > 0 && tail[|tail| - 1] == DoneChunk
    requires forall i :: 0 <= i < |tail| - 1 ==> tail[i].FaultChunk? || tail[i].FinishChunk?
    ensures var out := sent + tail;
      && out[0] == RoleChunk && (forall i :: 0 < i < |out| ==> out[i] != RoleChunk)
      && out[|out| - 1] == DoneChunk && (forall i :: 0 <= i < |out| - 1 ==> out[i] != DoneChunk)
  {
  }

  /** What a run sends is framed by its handled events and its closing. */
  lemma TranscriptIsFramed(handled: seq<Event>, cut: Option<Fault>, ending: Ending)
    ensures var out := Sent(handled) + Closing(handled, cut, ending);
      && out[0] == RoleChunk && (forall i :: 0 < i < |out| ==> out[i] != RoleChunk)
      && out[|out| - 1] == DoneChunk && (forall i :: 0 <= i < |out| - 1 ==> out[i] != DoneChunk)
  {
    SentIsRoleThenContent(handled);
    ClosingShape(handled, cut, ending);
    FramedRun(Sent(handled), Closing(handled, cut, ending));
  }

  lemma TranscriptAnnounces(handled: seq<Event>, cut: Option<Fault>, ending: Ending)
    ensures var announced := Announced(Sent(handled) + Closing(handled, cut, ending));
      |announced| == StartCount(handled) && forall k :: 0 <= k < |announced| ==> announced[k] == k
  {
    var tail := Closing(handled, cut, ending);
    SentAnnounces(handled);
    ClosingShape(handled, cut, ending);
    AnnouncedConcat(Sent(handled), tail);
    assert Announced(Sent(handled)) + [] == Announced(Sent(handled));
  }

  /**
   Every run, also one cut short by an exception event or a failing iterator, sends
   the role first, then content, and one end marker, last; the tools are announced
   under the indexes 0, 1, 2, ... in the order they start.
   */
  lemma EveryRun(events: seq<Event>, ending: Ending)
    ensures var out := Transcript(events, ending);
      && out[0] == RoleChunk && (forall i :: 0 < i < |out| ==> out[i] != RoleChunk)
      && out[|out| - 1] == DoneChunk && (forall i :: 0 <= i < |out| - 1 ==> out[i] != DoneChunk)
      && |Announced(out)| == StartCount(events[..Handled(events)])
      && forall k :: 0 <= k < |Announced(out)| ==> Announced(out)[k] == k
  {
    var n := Handled(events);
    var cut := if n < |events| then events[n].exception else None;
    TranscriptIsFramed(events[..n], cut, ending);
    TranscriptAnnounces(events[..n], cut, ending);
  }

  // ----- what every run sends, spelled out -----

  /** The events before the first exception event, or all of them. */
  ghost predicate AreHandled(events: seq<Event>, n: nat) {
    && n <= |events| && (forall k :: 0 <= k < n ==> events[k].exception.None?)
    && (n < |events| ==> events[n].exception.Some?)
  }

  /** Where a tool starts before event `k`. */
  function Starts(events: seq<Event>, k: nat): set<nat>
    requires k <= |events|
  {
    set j: nat | j < k && events[j].start.Some?
  }

  /** The latest start for the block before event `k`. */
  ghost predicate LatestStart(events: seq<Event>, k: nat, block: int, j: nat)
    requires k <= |events|
  {
    && j < k && events[j].start.Some? && events[j].start.value.block == block
    && forall i :: j < i < k && events[i].start.Some? ==> events[i].start.value.block != block
  }

  /** The place, among all starts, of the latest one for the block; 0 for a block that has not started. */
  ghost predicate IsIndex(events: seq<Event>, k: nat, block: int, index: nat)
    requires k <= |events|
  {
    && (forall j :: LatestStart(events, k, block, j) ==> index == |Starts(events, j)|)
    && ((forall j :: 0 <= j < k && events[j].start.Some? ==> events[j].start.value.block != block) ==> index == 0)
  }

  /** What event `k` sends: a start its tool, any other a text, a reasoning, then arguments, as far as it has them. */
  ghost predicate Sends(events: seq<Event>, k: nat, chunks: seq<Chunk>)
    requires k < |events|
  {
    match (events[k].start, events[k].delta)
    case (Some(start), _) => chunks == [ToolChunk(|Starts(events, k)|, start.id, start.name)]
    case (None, None) => chunks == []
    case (None, Some(delta)) =>
      exists index :: IsIndex(events, k, delta.block, index)
        && chunks == (if delta.text in {None, Some("")} then [] else [ContentChunk(delta.text.value)])
                     + (if delta.reasoning in {None, Some("")} then [] else [ReasoningChunk(delta.reasoning.value)])
                     + (if delta.toolInput.None? then [] else [ArgsChunk(index, delta.toolInput.value)])
  }

  predicate Stops(e: Event) { e.start.None? && e.delta.None? && e.stop != "" }

  predicate Measures(e: Event) { e.start.None? && e.delta.None? && e.stop == "" && e.usage.Some? }

  /** The last of the first `n` events that gives a stop reason. */
  function LastStop(events: seq<Event>, n: nat): (last: Option<nat>)
    requires n <= |events|
    ensures last.Some? ==> last.value < n && Stops(events[last.value])
    ensures forall k: nat :: (if last.Some? then last.value + 1 else 0) <= k < n ==> !Stops(events[k])
  {
    if n == 0 then None else if Stops(events[n - 1]) then Some(n - 1) else LastStop(events, n - 1)
  }

  /** The last of the first `n` events that reports the usage. */
  function LastMeasure(events: seq<Event>, n: nat): (last: Option<nat>)
    requires n <= |events|
    ensures last.Some? ==> last.value < n && Measures(events[last.value])
    ensures forall k: nat :: (if last.Some? then last.value + 1 else 0) <= k < n ==> !Measures(events[k])
  {
    if n == 0 then None else if Measures(events[n - 1]) then Some(n - 1) else LastMeasure(events, n - 1)
  }

  /** The client's word for a stop reason. */
  predicate IsWordFor(reason: string, stop: string) {
    && (stop == "tool_use" ==> reason == "tool_calls")
    && (stop == "max_tokens" ==> reason == "length")
    && (stop != "tool_use" && stop != "max_tokens" ==> reason == "stop")
  }

  /** The finish reason of the first `n` events: that of the last stop, in the client's words. */
  predicate Concludes(events: seq<Event>, n: nat, reason: string)
    requires n <= |events|
  {
    match LastStop(events, n)
    case None => reason == "stop"
    case Some(k) => IsWordFor(reason, events[k].stop)
  }

  /** The usage of the first `n` events: that of the last one that reports it. */
  predicate Totals(events: seq<Event>, n: nat, usage: Option<Usage>)
    requires n <= |events|
  {
    match LastMeasure(events, n)
    case None => usage.None?
    case Some(k) => usage == events[k].usage
  }

  lemma {:induction false} StartsCounted(events: seq<Event>, k: nat)
    requires k <= |events|
    ensures StartCount(events[..k]) == |Starts(events, k)|
  {
    if k == 0 {
    } else {
      StartsCounted(events, k - 1);
      assert events[..k][..k - 1] == events[..k - 1];
      assert Starts(events, k) == Starts(events, k - 1) + (if events[k - 1].start.Some? then {k - 1} else {});
    }
  }

  lemma IndexNext(events: seq<Event>, k: nat, block: int, index: nat, next: nat)
    requires k < |events| && IsIndex(events, k, block, index)
    requires next
          == if events[k].start.Some? && events[k].start.value.block == block then |Starts(events, k)| else index
    ensures IsIndex(events, k + 1, block, next)
  {
    forall j: nat | LatestStart(events, k + 1, block, j) ensures next == |Starts(events, j)| {
      if j < k { assert LatestStart(events, k, block, j); }
    }
  }

  lemma {:induction false} IndexForIs(events: seq<Event>, k: nat, block: int)
    requires k <= |events|
    ensures IsIndex(events, k, block, IndexFor(events[..k], block))
  {
    if k == 0 {
    } else {
      IndexForIs(events, k - 1, block);
      StartsCounted(events, k - 1);
      assert events[..k][..k - 1] == events[..k - 1];
      IndexNext(events, k - 1, block, IndexFor(events[..k - 1], block), IndexFor(events[..k], block));
    }
  }

  lemma EventSends(events: seq<Event>, k: nat)
    requires k < |events|
    ensures Sends(events, k, EventChunks(events[..k], events[k]))
  {
    StartsCounted(events, k);
    if events[k].start.None? && events[k].delta.Some? {
      IndexForIs(events, k, events[k].delta.value.block);
    }
  }

  lemma {:induction false} EndsRight(events: seq<Event>, n: nat)
    requires n <= |events|
    ensures Concludes(events, n, StopReason(events[..n])) && Totals(events, n, LastUsage(events[..n]))
  {
    if n == 0 {
    } else {
      var init := events[..n - 1];
      EndsRight(events, n - 1);
      assert events[..n][..n - 1] == init;
    }
  }

  function Concat(pieces: seq<seq<Chunk>>): seq<Chunk> {
    if pieces == [] then [] else Concat(pieces[..|pieces| - 1]) + pieces[|pieces| - 1]
  }

  function Pieces(events: seq<Event>, n: nat): seq<seq<Chunk>>
    requires n <= |events|
  {
    seq(n, k requires 0 <= k < n => EventChunks(events[..k], events[k]))
  }

  lemma PiecesNext(events: seq<Event>, n: nat)
    requires n < |events|
    ensures Concat(Pieces(events, n + 1)) == Concat(Pieces(events, n)) + EventChunks(events[..n], events[n])
  {
    assert Pieces(events, n + 1)[..n] == Pieces(events, n);
  }

  lemma SentNext(events: seq<Event>, n: nat)
    requires n < |events|
    ensures Sent(events[..n + 1]) == Sent(events[..n]) + EventChunks(events[..n], events[n])
  {
    assert events[..n + 1][..n] == events[..n];
  }

  lemma PiecesStep(sent: seq<Chunk>, passed: seq<Chunk>, more: seq<Chunk>)
    requires sent == [RoleChunk] + passed
    ensures sent + more == [RoleChunk] + (passed + more)
  {
  }

  lemma SentIsPiecesNext(events: seq<Event>, n: nat)
    requires n < |events| && Sent(events[..n]) == [RoleChunk] + Concat(Pieces(events, n))
    ensures Sent(events[..n + 1]) == [RoleChunk] + Concat(Pieces(events, n + 1))
  {
    SentNext(events, n);
    PiecesNext(events, n);
    PiecesStep(Sent(events[..n]), Concat(Pieces(events, n)), EventChunks(events[..n], events[n]));
  }

  lemma SentIsPieces(events: seq<Event>, n: nat)
    requires n <= |events|
    ensures Sent(events[..n]) == [RoleChunk] + Concat(Pieces(events, n))
  {
    assert [RoleChunk] + [] == [RoleChunk];
    for k := 0 to n
      invariant Sent(events[..k]) == [RoleChunk] + Concat(Pieces(events, k))
    {
      SentIsPiecesNext(events, k);
    }
  }

  /** How a run ends: with a fault when it breaks or is cut short, and with a finish unless it breaks. */
  ghost predicate Ends(events: seq<Event>, n: nat, ending: Ending, last: seq<Chunk>)
    requires n <= |events|
  {
    if n == |events| && ending.Broken? then last == [FaultChunk(ending.error), DoneChunk]
    else
      exists reason, usage :: Concludes(events, n, reason) && Totals(events, n, usage)
        && last == (if n < |events| && events[n].exception.Some? then [FaultChunk(events[n].exception.value)] else [])
                   + [FinishChunk(reason, usage), DoneChunk]
  }

  /** Every run is the role, then what each handled event sends, in order, then how the run ends. */
  lemma EveryRunIs(events: seq<Event>, ending: Ending, n: nat) returns (pieces: seq<seq<Chunk>>, last: seq<Chunk>)
    requires AreHandled(events, n)
    ensures Transcript(events, ending) == [RoleChunk] + Concat(pieces) + last
    ensures |pieces| == n && (forall k :: 0 <= k < n ==> Sends(events, k, pieces[k])) && Ends(events, n, ending, last)
  {
    pieces := Pieces(events, n);
    last := Closing(events[..n], if n < |events| then events[n].exception else None, ending);
    TranscriptAt(events, ending, n);
    SentIsPieces(events, n);
    forall k | 0 <= k < n ensures Sends(events, k, pieces[k]) {
      EventSends(events, k);
    }
    EndsRight(events, n);
  }
}
