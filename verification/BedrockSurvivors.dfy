/**
 What the sanitiser of open-sse/executors/bedrock.ts joins and keeps, spelled out turn by turn and
 block by block, and what it means for a whole history: no text and no image is lost.
 */
module BedrockSurvivors {
  import opened JsText
  import opened BedrockMessages
  import opened BedrockPairing
  import opened BedrockIdempotence
  import opened BedrockConverter
  import opened BedrockConversion
  import opened BedrockLossless

  // ----- what is counted -----

  /** The block is a use (a result) with the id, which is what is left of its own id after trimming. */
  predicate Carries(kind: Kind, b: Block, id: string) {
    && (if kind.Use? then b.ToolUse? else b.ToolResult?)
    && id != "" && Trim(b.toolUseId) == id
  }

  lemma CarriesExactly(kind: Kind, b: Block, id: string)
    ensures IdOf(kind, b) == Some(id) <==> Carries(kind, b, id)
  {
  }

  /** Where the id is carried. */
  function Places(kind: Kind, blocks: seq<Block>, id: string): set<nat> {
    set k: nat | k < |blocks| && Carries(kind, blocks[k], id)
  }

  lemma PlacesSnoc(kind: Kind, blocks: seq<Block>, b: Block, id: string)
    ensures |Places(kind, blocks + [b], id)| == |Places(kind, blocks, id)| + (if Carries(kind, b, id) then 1 else 0)
  {
    assert Places(kind, blocks + [b], id)
        == Places(kind, blocks, id) + (if Carries(kind, b, id) then {|blocks|} else {});
  }

  lemma {:induction false} CountExactly(kind: Kind, blocks: seq<Block>, id: string)
    ensures Count(kind, blocks, id) == |Places(kind, blocks, id)|
  {
    if blocks == [] {
    } else {
      var n := |blocks| - 1;
      CountExactly(kind, blocks[..n], id);
      CarriesExactly(kind, blocks[n], id);
      PlacesSnoc(kind, blocks[..n], blocks[n], id);
      assert blocks == blocks[..n] + [blocks[n]];
    }
  }

  // ----- which turns are joined -----

  predicate HoldsOnlyResults(m: Message) {
    m.role.User? && m.content != [] && forall b :: b in m.content ==> b.ToolResult? && !AllSpace(b.toolUseId)
  }

  /** Each turn joins the one before it exactly when both hold tool results only. */
  function Joined(ms: seq<Message>): seq<Message> {
    if ms == [] then []
    else
      var n := |ms| - 1;
      var before, m := Joined(ms[..n]), ms[n];
      if n > 0 && before != [] && HoldsOnlyResults(ms[n - 1]) && HoldsOnlyResults(m)
      then before[..|before| - 1] + [Message(User, before[|before| - 1].content + m.content)]
      else before + [m]
  }

  lemma OnlyResultsExactly(m: Message)
    ensures IsToolResultOnly(m) <==> HoldsOnlyResults(m)
  {
    forall b | b in m.content ensures IdOf(Result, b).Some? <==> b.ToolResult? && !AllSpace(b.toolUseId) {
      if b.ToolResult? { NothingLeftExactly(b.toolUseId); }
    }
  }

  ghost predicate EndsWithResults(ms: seq<Message>) { ms != [] && IsToolResultOnly(ms[|ms| - 1]) }

  lemma MergeSnoc(ms: seq<Message>, m: Message)
    ensures Merge(ms + [m]) == MergeInto(Merge(ms), m)
  {
    MergeFromConcat([], ms, [m]);
    MergeFromOne(Merge(ms), m);
  }

  lemma MergeIntoEnds(acc: seq<Message>, m: Message)
    ensures MergeInto(acc, m) != [] && (EndsWithResults(MergeInto(acc, m)) <==> IsToolResultOnly(m))
    ensures MergeInto(acc, m)
         == if EndsWithResults(acc) && IsToolResultOnly(m)
            then acc[..|acc| - 1] + [Message(User, acc[|acc| - 1].content + m.content)] else acc + [m]
  {
  }

  /** The last merged turn holds only results exactly when the last turn did. */
  lemma {:induction false} MergeEnds(ms: seq<Message>)
    ensures ms != [] ==> Merge(ms) != []
    ensures EndsWithResults(Merge(ms)) <==> ms != [] && HoldsOnlyResults(ms[|ms| - 1])
  {
    if ms == [] {
    } else {
      var n := |ms| - 1;
      assert ms == ms[..n] + [ms[n]];
      MergeSnoc(ms[..n], ms[n]);
      MergeIntoEnds(Merge(ms[..n]), ms[n]);
      OnlyResultsExactly(ms[n]);
    }
  }

  lemma {:induction false} JoinedExactly(ms: seq<Message>)
    ensures Merge(ms) == Joined(ms)
  {
    if ms == [] {
    } else {
      var n := |ms| - 1;
      JoinedExactly(ms[..n]);
      assert ms == ms[..n] + [ms[n]];
      MergeSnoc(ms[..n], ms[n]);
      MergeIntoEnds(Merge(ms[..n]), ms[n]);
      MergeEnds(ms[..n]);
      OnlyResultsExactly(ms[n]);
    }
  }

  // ----- which blocks are kept -----

  /** The blocks at the places that stay, in order. */
  function Select(blocks: seq<Block>, stays: nat -> bool): seq<Block> {
    if blocks == [] then []
    else Select(blocks[..|blocks| - 1], stays) + (if stays(|blocks| - 1) then [blocks[|blocks| - 1]] else [])
  }

  /** A use stays when the very next turn is the user's and has a result for it. */
  predicate UseStays(ms: seq<Message>, i: nat, b: Block) {
    b.ToolUse? && !AllSpace(b.toolUseId) ==>
      && i + 1 < |ms| && ms[i + 1].role.User?
      && exists r :: r in ms[i + 1].content && Carries(Result, r, Trim(b.toolUseId))
  }

  /** Result `k` of turn `i` stays when fewer results of its id come before it than turns are answered right away. */
  predicate ResultStays(ms: seq<Message>, i: nat, k: nat)
    requires i < |ms| && k < |ms[i].content|
  {
    var b := ms[i].content[k];
    b.ToolResult? && !AllSpace(b.toolUseId) ==>
      var id := Trim(b.toolUseId);
      ResultsBefore(ms, i, id) + |Places(Result, ms[i].content[..k], id)| < MatchedBefore(ms, |ms|, id)
  }

  lemma UseStaysExactly(ms: seq<Message>, i: nat, b: Block, content: seq<Block>)
    requires i < |ms| && ms[i] == Message(Assistant, content) && b in content
    ensures UseStays(ms, i, b) <==> IdOf(Use, b).None? || Matched(ms, i, IdOf(Use, b).value)
  {
    if b.ToolUse? {
      var id := Trim(b.toolUseId);
      NothingLeftExactly(b.toolUseId);
      if id != "" {
        CountedIds(Use, content, id);
        if i + 1 < |ms| && ms[i + 1].role.User? {
          CountedIds(Result, ms[i + 1].content, id);
          forall r { CarriesExactly(Result, r, id); }
        }
      }
    }
  }

  lemma {:induction false} KeptUsesAre(ms: seq<Message>, i: nat, content: seq<Block>, n: nat, stays: nat -> bool)
    requires i < |ms| && ms[i] == Message(Assistant, content) && n <= |content|
    requires forall k: nat :: k < |content| ==> stays(k) == UseStays(ms, i, content[k])
    ensures KeepUses(ms, i, content[..n]) == Select(content[..n], stays)
  {
    if n == 0 {
    } else {
      KeptUsesAre(ms, i, content, n - 1, stays);
      assert content[..n][..n - 1] == content[..n - 1];
      UseStaysExactly(ms, i, content[n - 1], content);
    }
  }

  lemma {:induction false} ResultStaysExactly(ms: seq<Message>, i: nat, content: seq<Block>, k: nat)
    requires i < |ms| && ms[i] == Message(User, content) && k < |content|
    ensures ResultStays(ms, i, k)
        <==> var id := IdOf(Result, content[k]);
             id.None?
             || ResultsBefore(ms, i, id.value) + Count(Result, content[..k], id.value) < Quota(ms, id.value)
  {
    var b := content[k];
    if b.ToolResult? {
      NothingLeftExactly(b.toolUseId);
      CountExactly(Result, content[..k], Trim(b.toolUseId));
    }
  }

  lemma {:induction false} KeptResultsAre(ms: seq<Message>, i: nat, content: seq<Block>, n: nat, stays: nat -> bool)
    requires i < |ms| && ms[i] == Message(User, content) && n <= |content|
    requires forall k: nat :: k < |content| ==> stays(k) == ResultStays(ms, i, k)
    ensures KeepResults(ms, i, content[..n]) == Select(content[..n], stays)
  {
    if n == 0 {
    } else {
      KeptResultsAre(ms, i, content, n - 1, stays);
      assert content[..n][..n - 1] == content[..n - 1];
      ResultStaysExactly(ms, i, content, n - 1);
    }
  }

  /**
   Turn `i` of the sanitised list: of an assistant the uses answered by the next turn, of a user the
   first results of each id up to its number of answered turns, all other blocks, in order; and a
   blank text where nothing is left.
   */
  lemma KeptExactly(messages: seq<Message>, i: nat, stays: nat -> bool)
    requires i < |Joined(messages)|
    requires forall k: nat :: k < |Joined(messages)[i].content| ==>
      stays(k) == if Joined(messages)[i].role.User? then ResultStays(Joined(messages), i, k)
                  else UseStays(Joined(messages), i, Joined(messages)[i].content[k])
    ensures |Sanitize(messages)| == |Joined(messages)|
    ensures var m, out := Joined(messages)[i], Sanitize(messages)[i];
      && out.role == m.role
      && var kept := Select(m.content, stays);
         out.content == if kept == [] && (m.role.User? || m.content != []) then [Text(" ")] else kept
  {
    var ms := Joined(messages);
    var content := ms[i].content;
    JoinedExactly(messages);
    assert content[..|content|] == content;
    if ms[i].role.User? {
      KeptResultsAre(ms, i, content, |content|, stays);
    } else {
      KeptUsesAre(ms, i, content, |content|, stays);
      if !UsesTools(content) { KeepAllUses(ms, i, content); }
    }
  }

  // ----- text and images of whole histories -----

  predicate IsShown(b: Block) { b.Image? || (b.Text? && !AllSpace(b.text)) }

  /** The images and the texts that are not blank. */
  function Shown(blocks: seq<Block>): seq<Block> {
    if blocks == [] then []
    else Shown(blocks[..|blocks| - 1]) + (if IsShown(blocks[|blocks| - 1]) then [blocks[|blocks| - 1]] else [])
  }

  /** Those among blocks with the role of their turn. */
  function Heard(flat: seq<(Role, Block)>): seq<(Role, Block)> {
    if flat == [] then []
    else Heard(flat[..|flat| - 1]) + (if IsShown(flat[|flat| - 1].1) then [flat[|flat| - 1]] else [])
  }

  function PartShown(p: Part): seq<Block> {
    match p
    case PartText(text) => if AllSpace(text) then [] else [Text(text)]
    case PartImage(Some((format, bytes))) => [Image(format, bytes)]
    case _ => []
  }

  function PartsShown(parts: seq<Part>): seq<Block> {
    if parts == [] then [] else PartsShown(parts[..|parts| - 1]) + PartShown(parts[|parts| - 1])
  }

  function ContentShown(c: Content): seq<Block> {
    match c
    case Str(text) => if AllSpace(text) then [] else [Text(text)]
    case Parts(parts) => PartsShown(parts)
    case NoContent => []
  }

  /** What the user and the assistant say in a history: the texts that are not blank, and the images. */
  function Said(h: seq<OpenAIMessage>): seq<(Role, Block)> {
    if h == [] then []
    else
      var m := h[|h| - 1];
      Said(h[..|h| - 1])
      + (if m.NotAnObject? || m.role in {"system", "developer", "tool"} then []
         else Tag(if m.role == "assistant" then Assistant else User, ContentShown(m.content)))
  }

  lemma ShownSnoc(blocks: seq<Block>, b: Block)
    ensures Shown(blocks + [b]) == Shown(blocks) + (if IsShown(b) then [b] else [])
  {
    assert (blocks + [b])[..|blocks|] == blocks;
  }

  lemma {:induction false} ShownConcat(a: seq<Block>, b: seq<Block>)
    ensures Shown(a + b) == Shown(a) + Shown(b)
  {
    if b == [] {
      assert a + b == a;
    } else {
      assert (a + b)[..|a + b| - 1] == a + b[..|b| - 1];
      ShownConcat(a, b[..|b| - 1]);
    }
  }

  lemma {:induction false} HeardConcat(a: seq<(Role, Block)>, b: seq<(Role, Block)>)
    ensures Heard(a + b) == Heard(a) + Heard(b)
  {
    if b == [] {
      assert a + b == a;
    } else {
      assert (a + b)[..|a + b| - 1] == a + b[..|b| - 1];
      HeardConcat(a, b[..|b| - 1]);
    }
  }

  lemma {:induction false} HeardTag(role: Role, blocks: seq<Block>)
    ensures Heard(Tag(role, blocks)) == Tag(role, Shown(blocks))
  {
    if blocks == [] {
    } else {
      var n := |blocks| - 1;
      assert Tag(role, blocks)[..n] == Tag(role, blocks[..n]);
      HeardTag(role, blocks[..n]);
    }
  }

  /** One more turn is heard. */
  lemma HeardSnoc(ms: seq<Message>, m: Message)
    ensures Heard(Flatten(ms + [m])) == Heard(Flatten(ms)) + Tag(m.role, Shown(m.content))
  {
    FlattenSnoc(ms, m);
    HeardConcat(Flatten(ms), Tag(m.role, m.content));
    HeardTag(m.role, m.content);
  }

  // ----- pruning -----

  lemma {:induction false} OthersShow(kind: Kind, blocks: seq<Block>)
    ensures Shown(Others(kind, blocks)) == Shown(blocks)
  {
    if blocks == [] {
    } else {
      var init, b := blocks[..|blocks| - 1], blocks[|blocks| - 1];
      OthersShow(kind, init);
      assert init + [b] == blocks;
      ShownSnoc(init, b);
      OthersSnoc(kind, init, b);
      if IdOf(kind, b).None? {
        ShownSnoc(Others(kind, init), b);
      } else {
        assert Others(kind, blocks) == Others(kind, init) && !IsShown(b);
      }
    }
  }

  /** Pruning a turn removes no text and no image, and the placeholder shows nothing. */
  lemma CleanShows(ms: seq<Message>, i: nat)
    requires i < |ms|
    ensures Clean(ms, i).role == ms[i].role && Shown(Clean(ms, i).content) == Shown(ms[i].content)
  {
    var content := ms[i].content;
    OthersKept(ms, i, content);
    OthersShow(Use, content);
    OthersShow(Use, KeepUses(ms, i, content));
    OthersShow(Result, content);
    OthersShow(Result, KeepResults(ms, i, content));
    assert Shown([BLANK]) == [] by { ShownSnoc([], BLANK); }
  }

  lemma HeardNext(ms: seq<Message>, n: nat)
    requires n < |ms|
    ensures Heard(Flatten(ms[..n + 1])) == Heard(Flatten(ms[..n])) + Tag(ms[n].role, Shown(ms[n].content))
  {
    HeardSnoc(ms[..n], ms[n]);
    assert ms[..n + 1] == ms[..n] + [ms[n]];
  }

  lemma {:induction false} SameHeard(ms: seq<Message>, out: seq<Message>, n: nat)
    requires n <= |ms| == |out|
    requires forall i :: 0 <= i < |ms| ==> out[i].role == ms[i].role && Shown(out[i].content) == Shown(ms[i].content)
    ensures Heard(Flatten(out[..n])) == Heard(Flatten(ms[..n]))
  {
    if n == 0 {
    } else {
      SameHeard(ms, out, n - 1);
      HeardNext(ms, n - 1);
      HeardNext(out, n - 1);
    }
  }

  lemma SanitizeShows(messages: seq<Message>)
    ensures Heard(Flatten(Sanitize(messages))) == Heard(Flatten(messages))
  {
    var ms, out := Merge(messages), Sanitize(messages);
    MergeShape(messages);
    forall i | 0 <= i < |ms|
      ensures out[i].role == ms[i].role && Shown(out[i].content) == Shown(ms[i].content)
    {
      CleanShows(ms, i);
    }
    SameHeard(ms, out, |ms|);
    assert out[..|ms|] == out && ms[..|ms|] == ms;
  }

  // ----- conversion -----

  lemma PartShows(p: Part, listed: set<string>, answered: set<string>, spare: string)
    ensures Shown(BlockOf(p, listed, answered, spare)) == PartShown(p)
  {
    var blocks := BlockOf(p, listed, answered, spare);
    if blocks != [] {
      ShownSnoc([], blocks[0]);
      assert [] + [blocks[0]] == blocks;
    }
  }

  lemma PartAddsShown(done: seq<Block>, p: Part, listed: set<string>, answered: set<string>, spare: string)
    ensures Shown(done + BlockOf(p, listed, answered, spare)) == Shown(done) + PartShown(p)
  {
    PartShows(p, listed, answered, spare);
    ShownConcat(done, BlockOf(p, listed, answered, spare));
  }

  lemma PartsShownNext(parts: seq<Part>, n: nat)
    requires n < |parts|
    ensures PartsShown(parts[..n + 1]) == PartsShown(parts[..n]) + PartShown(parts[n])
  {
    assert parts[..n + 1][..n] == parts[..n];
  }

  lemma PartsShowNext(parts: seq<Part>, listed: set<string>, answered: set<string>, uuid: nat -> string, used: nat,
                      n: nat)
    requires n < |parts| && Shown(PartsUpTo(parts, listed, answered, uuid, used, n)) == PartsShown(parts[..n])
    ensures Shown(PartsUpTo(parts, listed, answered, uuid, used, n + 1)) == PartsShown(parts[..n + 1])
  {
    var done := PartsUpTo(parts, listed, answered, uuid, used, n);
    PartAddsShown(done, parts[n], listed, answered, uuid(used + NeedyParts(parts, n)));
    PartsShownNext(parts, n);
  }

  lemma {:induction false} PartsUpToShow(parts: seq<Part>, listed: set<string>, answered: set<string>,
                                         uuid: nat -> string, used: nat, n: nat)
    requires n <= |parts|
    ensures Shown(PartsUpTo(parts, listed, answered, uuid, used, n)) == PartsShown(parts[..n])
  {
    if n == 0 {
    } else {
      var k := n - 1;
      PartsUpToShow(parts, listed, answered, uuid, used, k);
      PartsShowNext(parts, listed, answered, uuid, used, k);
    }
  }

  lemma {:induction false} NoneShown(blocks: seq<Block>)
    requires forall b :: b in blocks ==> !IsShown(b)
    ensures Shown(blocks) == []
  {
    if blocks == [] {
    } else {
      NoneShown(blocks[..|blocks| - 1]);
      assert blocks[|blocks| - 1] in blocks;
    }
  }

  lemma {:induction false} CallsAreUses(calls: seq<ToolCall>, answered: set<string>, pending: set<string>,
                                        uuid: nat -> string, used: nat, n: nat)
    requires n <= |calls|
    ensures forall b :: b in CallsUpTo(calls, answered, pending, uuid, used, n) ==> b.ToolUse?
  {
    if n == 0 {
    } else {
      CallsAreUses(calls, answered, pending, uuid, used, n - 1);
    }
  }

  lemma OwnBlocksShow(c: Content, listed: set<string>, answered: set<string>, uuid: nat -> string, used: nat)
    ensures Shown(OwnBlocks(c, listed, answered, uuid, used)) == ContentShown(c)
  {
    match c
    case Str(text) => ShownSnoc([], Text(text));
    case Parts(parts) =>
      PartsUpToShow(parts, listed, answered, uuid, used, |parts|);
      assert parts[..|parts|] == parts;
    case NoContent =>
  }

  lemma ContentShows(m: OpenAIMessage, ids: Ids, uuid: nat -> string)
    requires HasCalls(m)
    ensures Shown(ContentOf(m, ids, uuid)) == ContentShown(m.content)
  {
    var from, listed := ids.used + NeedyContent(m.content), ListedIds(m.toolCalls);
    var own := OwnBlocks(m.content, listed, ids.answered, uuid, ids.used);
    var uses := CallsUpTo(m.toolCalls, ids.answered, ids.pending, uuid, from, |m.toolCalls|);
    OwnBlocksShow(m.content, listed, ids.answered, uuid, ids.used);
    CallsAreUses(m.toolCalls, ids.answered, ids.pending, uuid, from, |m.toolCalls|);
    NoneShown(uses);
    ShownConcat(own, uses);
  }

  lemma TurnShows(m: OpenAIMessage, ids: Ids, uuid: nat -> string)
    requires IsHandled(m)
    ensures Shown(TurnOf(m, ids, uuid).content) == if m.role == "tool" then [] else ContentShown(m.content)
  {
    if m.role == "tool" {
      NoneShown(TurnOf(m, ids, uuid).content);
    } else {
      ContentShows(m, ids, uuid);
      NoneShown([Text(" ")]);
    }
  }

  lemma SaidNext(h: seq<OpenAIMessage>, n: nat)
    requires n < |h|
    ensures Said(h[..n + 1])
         == Said(h[..n]) + (if !IsHandled(h[n]) || h[n].role == "tool" then []
                            else Tag(if h[n].role == "assistant" then Assistant else User, ContentShown(h[n].content)))
  {
    assert h[..n + 1][..n] == h[..n];
  }

  /** What one more message adds. */
  lemma TurnAddsShown(done: seq<Message>, m: OpenAIMessage, ids: Ids, uuid: nat -> string)
    requires IsHandled(m)
    ensures Heard(Flatten(done + [TurnOf(m, ids, uuid)]))
         == Heard(Flatten(done))
            + (if m.role == "tool" then []
               else Tag(if m.role == "assistant" then Assistant else User, ContentShown(m.content)))
  {
    TurnShows(m, ids, uuid);
    HeardSnoc(done, TurnOf(m, ids, uuid));
    assert Heard(Flatten(done)) + [] == Heard(Flatten(done));
  }

  lemma TurnsNext(h: seq<OpenAIMessage>, uuid: nat -> string, n: nat)
    requires n < |h|
    ensures TurnsUpTo(h, uuid, n + 1)
         == if IsHandled(h[n]) then TurnsUpTo(h, uuid, n) + [TurnOf(h[n], Carried(h, uuid, n), uuid)]
            else TurnsUpTo(h, uuid, n)
  {
  }

  lemma {:induction false} TurnsShow(h: seq<OpenAIMessage>, uuid: nat -> string, n: nat)
    requires n <= |h|
    ensures Heard(Flatten(TurnsUpTo(h, uuid, n))) == Said(h[..n])
  {
    if n == 0 {
    } else {
      var k := n - 1;
      TurnsShow(h, uuid, k);
      SaidNext(h, k);
      TurnsNext(h, uuid, k);
      if IsHandled(h[k]) {
        TurnAddsShown(TurnsUpTo(h, uuid, k), h[k], Carried(h, uuid, k), uuid);
      }
    }
  }

  /**
   Whatever the history, valid or not: every text that is not blank and every image that can be read
   reaches Bedrock, once, in order and under its role, and no other text or image does.
   */
  lemma EverythingSaidIsKept(h: seq<OpenAIMessage>, uuid: nat -> string)
    ensures Heard(Flatten(Sanitize(Convert(h, uuid)))) == Said(h)
  {
    SanitizeShows(Convert(h, uuid));
    ConversionIs(h, uuid);
    TurnsShow(h, uuid, |h|);
    assert h[..|h|] == h;
    if TurnsUpTo(h, uuid, |h|) == [] {
      HeardSnoc([], Message(User, [Text(" ")]));
      NoneShown([Text(" ")]);
      assert [] + [Message(User, [Text(" ")])] == [Message(User, [Text(" ")])];
    }
  }
}
