/**
 The two readers of an Adapta event stream in open-sse/executors/adapta-web.ts: the
 translator to OpenAI chunks and the collector of the whole text. The stream is
 adversarial; parsing one JSON line is a parameter.
 */
module AdaptaStream {
  import opened JsText

  /** A `delta` field: a string, or anything else with what `String(delta ?? "")` makes of it. */
  datatype Value = Str(text: string) | NotStr(printed: string)

  /** The event types the readers tell apart. */
  datatype Kind = TextDelta | Error | Done | End | Other

  /** `placeholder` marks the events with the id "quick-response"; `note` is what an error event shows the user. */
  datatype Event = Event(kind: Kind, placeholder: bool, delta: Value, note: string)

  /** The result of parsing a line: not JSON, the JSON null, or a value whose fields can be read. */
  datatype Parsed = Invalid | NullValue | Readable(event: Event)

  datatype Chunk = RoleChunk | ContentChunk(text: string) | StopChunk | DoneChunk

  const PREFIX := "data: "

  // ----- lines -----

  /** Reading on from a remainder gives the lines of the whole text. */
  lemma LinesConcat(a: string, b: string)
    ensures Lines(a + b) == Lines(a) + Lines(Remainder(a) + b)
    ensures Remainder(a + b) == Remainder(Remainder(a) + b)
  {
    SplitConcat(a, b);
  }

  function Concat(chunks: seq<string>): string {
    if chunks == [] then "" else Concat(chunks[..|chunks| - 1]) + chunks[|chunks| - 1]
  }

  /** The lines after one more chunk: the code's buffer is the remainder of what was read. */
  lemma ReadOn(chunks: seq<string>, i: nat)
    requires i < |chunks|
    ensures var read, next := Concat(chunks[..i]), Concat(chunks[..i + 1]);
      && next == read + chunks[i]
      && Lines(next) == Lines(read) + Lines(Remainder(read) + chunks[i])
      && Remainder(next) == Remainder(Remainder(read) + chunks[i])
  {
    assert chunks[..i + 1][..i] == chunks[..i];
    LinesConcat(Concat(chunks[..i]), chunks[i]);
  }

  // ----- the translator, on values -----

  datatype Sender = Sender(out: seq<Chunk>, roleEmitted: bool, closed: bool) {
    function EnsureRole(): Sender {
      if roleEmitted then this else this.(out := out + [RoleChunk], roleEmitted := true)
    }

    function Send(c: Chunk): Sender { this.(out := out + [c]) }

    function Finalize(): Sender {
      this.EnsureRole().Send(StopChunk).Send(DoneChunk).(closed := true)
    }
  }

  /** The payload of a line, if it has one and that is JSON. */
  function Payload(line: string, parse: string -> Parsed): Parsed {
    if PREFIX <= line && Trim(line[|PREFIX|..]) != "" then parse(Trim(line[|PREFIX|..])) else Invalid
  }

  function HandleEvent(s: Sender, e: Event): Sender {
    if e.kind.TextDelta? then
      if e.placeholder || e.delta.NotStr? || e.delta.text == "" then s
      else s.EnsureRole().Send(ContentChunk(e.delta.text))
    else if e.kind.Error? then s.EnsureRole().Send(ContentChunk(e.note)).Finalize()
    else if e.kind.Done? || e.kind.End? then s.Finalize()
    else s
  }

  /** Reading a field of null throws, and the catch clause finalizes. */
  function HandleParsed(s: Sender, p: Parsed): Sender {
    if s.closed then s
    else
      match p
      case Invalid => s
      case NullValue => s.Finalize()
      case Readable(e) => HandleEvent(s, e)
  }

  function HandleLine(s: Sender, line: string, parse: string -> Parsed): Sender {
    HandleParsed(s, Payload(line, parse))
  }

  function HandleLines(s: Sender, lines: seq<string>, parse: string -> Parsed): Sender {
    if lines == [] then s
    else HandleLine(HandleLines(s, lines[..|lines| - 1], parse), lines[|lines| - 1], parse)
  }

  const OPEN := Sender([], false, false)

  /** Everything sent for a text, however it arrives. */
  function Transcript(text: string, parse: string -> Parsed): seq<Chunk> {
    var s := HandleLines(OPEN, Lines(text), parse);
    (if s.closed then s else s.Finalize()).out
  }

  lemma {:induction false} HandleLinesConcat(s: Sender, a: seq<string>, b: seq<string>, parse: string -> Parsed)
    ensures HandleLines(s, a + b, parse) == HandleLines(HandleLines(s, a, parse), b, parse)
  {
    if b == [] {
      assert a + b == a;
    } else {
      assert (a + b)[..|a + b| - 1] == a + b[..|b| - 1];
      HandleLinesConcat(s, a, b[..|b| - 1], parse);
    }
  }

  lemma {:induction false} ClosedStays(s: Sender, lines: seq<string>, parse: string -> Parsed)
    requires s.closed
    ensures HandleLines(s, lines, parse) == s
  {
    if lines == [] {
    } else {
      ClosedStays(s, lines[..|lines| - 1], parse);
    }
  }

  // ----- the code -----

  class Controller {
    var out: seq<Chunk>
    var roleEmitted: bool
    ghost var closed: bool

    constructor ()
      ensures Value() == OPEN
    {
      out, roleEmitted, closed := [], false, false;
    }

    ghost function Value(): Sender
      reads this
    {
      Sender(out, roleEmitted, closed)
    }

    method EnsureRole()
      modifies this
      ensures Value() == old(Value()).EnsureRole()
    {
      if !roleEmitted {
        roleEmitted := true;
        out := out + [RoleChunk];
      }
    }

    method Finalize()
      modifies this
      ensures Value() == old(Value()).Finalize()
    {
      EnsureRole();
      out := out + [StopChunk];
      out := out + [DoneChunk];
      closed := true;
    }

    /** One line of the read loop; `ends` tells that the loop returns or that a null value makes it throw. */
    method ReadLine(line: string, parse: string -> Parsed) returns (ends: bool)
      requires !closed
      modifies this
      ensures Value() == HandleLine(old(Value()), line, parse) && ends == closed
    {
      if !(PREFIX <= line) { return false; }
      var payload := Trim(line[|PREFIX|..]);
      if payload == "" { return false; }
      match parse(payload) {
        case Invalid =>
          return false;
        case NullValue =>
          Finalize();
          return true;
        case Readable(event) =>
          if event.kind.TextDelta? {
            if event.placeholder { return false; }
            if event.delta.Str? && event.delta.text != "" {
              EnsureRole();
              out := out + [ContentChunk(event.delta.text)];
            }
          } else if event.kind.Error? {
            EnsureRole();
            out := out + [ContentChunk(event.note)];
            Finalize();
            return true;
          } else if event.kind.Done? || event.kind.End? {
            Finalize();
            return true;
          }
          return false;
      }
    }

    /** The complete lines of one chunk, up to the one that ends the stream, if any. */
    method ReadLines(lines: seq<string>, parse: string -> Parsed) returns (ends: bool, ghost n: nat)
      requires !closed
      modifies this
      ensures n <= |lines| && Value() == HandleLines(old(Value()), lines[..n], parse)
      ensures ends == closed && (ends ==> n > 0) && (!ends ==> n == |lines|)
    {
      for k := 0 to |lines|
        invariant !closed && Value() == HandleLines(old(Value()), lines[..k], parse)
      {
        assert lines[..k + 1][..k] == lines[..k];
        ends := ReadLine(lines[k], parse);
        if ends {
          return true, k + 1;
        }
      }
      return false, |lines|;
    }
  }

  lemma {:induction false} ConcatSplit(chunks: seq<string>, i: nat)
    requires i <= |chunks|
    ensures Concat(chunks) == Concat(chunks[..i]) + Concat(chunks[i..])
  {
    if i == |chunks| {
      assert chunks[..i] == chunks;
    } else {
      var n := |chunks| - 1;
      ConcatSplit(chunks[..n], i);
      assert chunks[..n][..i] == chunks[..i] && chunks[..n][i..] == chunks[i..][..n - i];
    }
  }

  lemma Regroup(a: seq<string>, b: seq<string>, c: seq<string>, k: nat)
    requires k <= |b|
    ensures a + b + c == a + b[..k] + (b[k..] + c)
  {
    assert b == b[..k] + b[k..];
  }

  /** The lines of the whole text begin with those read so far. */
  lemma LinesReadSoFar(chunks: seq<string>, i: nat, k: nat) returns (tail: seq<string>)
    requires i < |chunks| && k < |Lines(Remainder(Concat(chunks[..i])) + chunks[i])|
    ensures Lines(Concat(chunks))
         == Lines(Concat(chunks[..i])) + Lines(Remainder(Concat(chunks[..i])) + chunks[i])[..k + 1] + tail
  {
    var next, more := Concat(chunks[..i + 1]), Concat(chunks[i + 1..]);
    var lines := Lines(Remainder(Concat(chunks[..i])) + chunks[i]);
    ConcatSplit(chunks, i + 1);
    ReadOn(chunks, i);
    LinesConcat(next, more);
    tail := lines[k + 1..] + Lines(Remainder(next) + more);
    Regroup(Lines(Concat(chunks[..i])), lines, Lines(Remainder(next) + more), k + 1);
  }

  lemma ClosedPrefix(lines: seq<string>, tail: seq<string>, parse: string -> Parsed)
    requires HandleLines(OPEN, lines, parse).closed
    ensures HandleLines(OPEN, lines + tail, parse) == HandleLines(OPEN, lines, parse)
  {
    HandleLinesConcat(OPEN, lines, tail, parse);
    ClosedStays(HandleLines(OPEN, lines, parse), tail, parse);
  }

  /** Once a line has closed the stream, the rest of the text does not matter. */
  lemma ClosedTranscript(chunks: seq<string>, i: nat, k: nat, parse: string -> Parsed)
    requires i < |chunks| && k < |Lines(Remainder(Concat(chunks[..i])) + chunks[i])|
    requires var start := HandleLines(OPEN, Lines(Concat(chunks[..i])), parse);
      HandleLines(start, Lines(Remainder(Concat(chunks[..i])) + chunks[i])[..k + 1], parse).closed
    ensures var start := HandleLines(OPEN, Lines(Concat(chunks[..i])), parse);
      Transcript(Concat(chunks), parse)
        == HandleLines(start, Lines(Remainder(Concat(chunks[..i])) + chunks[i])[..k + 1], parse).out
  {
    var before, lines := Lines(Concat(chunks[..i])), Lines(Remainder(Concat(chunks[..i])) + chunks[i])[..k + 1];
    var tail := LinesReadSoFar(chunks, i, k);
    HandleLinesConcat(OPEN, before, lines, parse);
    ClosedPrefix(before + lines, tail, parse);
  }

  /** What the chunks read so far have sent. */
  function SentFor(read: string, parse: string -> Parsed): Sender { HandleLines(OPEN, Lines(read), parse) }

  /** One more chunk. */
  lemma SentNext(chunks: seq<string>, i: nat, parse: string -> Parsed)
    requires i < |chunks|
    ensures var read, next := Concat(chunks[..i]), Concat(chunks[..i + 1]);
      var pieces := Split(Remainder(read) + chunks[i]);
      && SentFor(next, parse) == HandleLines(SentFor(read, parse), pieces[..|pieces| - 1], parse)
      && Remainder(next) == pieces[|pieces| - 1]
  {
    var read := Concat(chunks[..i]);
    ReadOn(chunks, i);
    HandleLinesConcat(OPEN, Lines(read), Lines(Remainder(read) + chunks[i]), parse);
  }

  /**
   The translator fed with `chunks`, after which the reader is done or fails (both
   finalize). What is sent depends only on the concatenated text.
   */
  method TransformStream(chunks: seq<string>, parse: string -> Parsed) returns (out: seq<Chunk>)
    ensures out == Transcript(Concat(chunks), parse)
  {
    var controller := new Controller();
    var buffer := "";
    for i := 0 to |chunks|
      invariant fresh(controller) && !controller.closed
      invariant controller.Value() == SentFor(Concat(chunks[..i]), parse) && buffer == Remainder(Concat(chunks[..i]))
    {
      SentNext(chunks, i, parse);
      var pieces := Split(buffer + chunks[i]);
      var lines := pieces[..|pieces| - 1];
      var ends, k := controller.ReadLines(lines, parse);
      if ends {
        ClosedTranscript(chunks, i, k - 1, parse);
        return controller.out;
      }
      assert lines[..k] == lines;
      buffer := pieces[|pieces| - 1];
    }
    assert chunks[..|chunks|] == chunks;
    controller.Finalize();
    return controller.out;
  }

  // ----- every run -----

  /** What has been sent: nothing or the role and content, closed off once by the stop and end markers. */
  ghost predicate WellSent(s: Sender) {
    var n := |s.out|;
    && (s.roleEmitted <==> n > 0)
    && (n > 0 ==> s.out[0] == RoleChunk)
    && (s.closed ==> n >= 3 && s.out[n - 2] == StopChunk && s.out[n - 1] == DoneChunk)
    && forall i :: 1 <= i < (if s.closed then n - 2 else n) ==> s.out[i].ContentChunk?
  }

  lemma SendKeepsWellSent(s: Sender, text: string)
    requires WellSent(s) && !s.closed
    ensures WellSent(s.EnsureRole().Send(ContentChunk(text))) && WellSent(s.Finalize())
  {
  }

  function Printed(v: Value): string { if v.Str? then v.text else v.printed }

  lemma HandleParsedKeepsWellSent(s: Sender, p: Parsed)
    requires WellSent(s)
    ensures WellSent(HandleParsed(s, p))
  {
    if !s.closed && !p.Invalid? {
      SendKeepsWellSent(s, "");
      if p.Readable? {
        var text := if p.event.kind.Error? then p.event.note else Printed(p.event.delta);
        SendKeepsWellSent(s, text);
        SendKeepsWellSent(s.EnsureRole().Send(ContentChunk(text)), "");
      }
    }
  }

  lemma {:induction false} HandleLinesWellSent(lines: seq<string>, parse: string -> Parsed)
    ensures WellSent(HandleLines(OPEN, lines, parse))
  {
    if lines == [] {
    } else {
      HandleLinesWellSent(lines[..|lines| - 1], parse);
      HandleParsedKeepsWellSent(HandleLines(OPEN, lines[..|lines| - 1], parse), Payload(lines[|lines| - 1], parse));
    }
  }

  /** Every run sends the role, then content only, then one stop chunk and one end marker, and nothing after it. */
  lemma EveryRun(text: string, parse: string -> Parsed)
    ensures var out := Transcript(text, parse); var n := |out|;
      && n >= 3 && out[0] == RoleChunk && out[n - 2] == StopChunk && out[n - 1] == DoneChunk
      && forall i :: 1 <= i < n - 2 ==> out[i].ContentChunk?
  {
    HandleLinesWellSent(Lines(text), parse);
  }

  // ----- the collector -----

  function CollectedFrom(p: Parsed): string {
    if p.Readable? && p.event.kind.TextDelta? && !p.event.placeholder then Printed(p.event.delta) else ""
  }

  /** What the collector adds for a line; it parses the payload untrimmed. */
  function CollectedBy(line: string, parse: string -> Parsed): string {
    if PREFIX <= line then CollectedFrom(parse(line[|PREFIX|..])) else ""
  }

  function Collected(lines: seq<string>, parse: string -> Parsed): string {
    if lines == [] then "" else Collected(lines[..|lines| - 1], parse) + CollectedBy(lines[|lines| - 1], parse)
  }

  lemma {:induction false} CollectedConcat(a: seq<string>, b: seq<string>, parse: string -> Parsed)
    ensures Collected(a + b, parse) == Collected(a, parse) + Collected(b, parse)
  {
    if b == [] {
      assert a + b == a;
    } else {
      var init, line := b[..|b| - 1], b[|b| - 1];
      CollectedConcat(a, init, parse);
      assert (a + b)[..|a + b| - 1] == a + init && (a + b)[|a + b| - 1] == line;
      assert Collected(a, parse) + Collected(init, parse) + CollectedBy(line, parse)
          == Collected(a, parse) + (Collected(init, parse) + CollectedBy(line, parse));
    }
  }

  method CollectLines(lines: seq<string>, parse: string -> Parsed) returns (text: string)
    ensures text == Collected(lines, parse)
  {
    text := "";
    for k := 0 to |lines|
      invariant text == Collected(lines[..k], parse)
    {
      assert lines[..k + 1][..k] == lines[..k] && text + "" == text;
      var line := lines[k];
      if !(PREFIX <= line) { continue; }
      var ev := parse(line[|PREFIX|..]);
      assert CollectedBy(line, parse) == CollectedFrom(ev);
      if ev.Readable? && ev.event.kind.TextDelta? && !ev.event.placeholder {
        text := text + Printed(ev.event.delta);
      }
    }
    assert lines[..|lines|] == lines;
  }

  /** The non-streaming reader; also its result depends only on the concatenated text. */
  method CollectText(chunks: seq<string>, parse: string -> Parsed) returns (fullText: string)
    ensures fullText == Collected(Lines(Concat(chunks)), parse)
  {
    fullText := "";
    var buf := "";
    for i := 0 to |chunks|
      invariant fullText == Collected(Lines(Concat(chunks[..i])), parse) && buf == Remainder(Concat(chunks[..i]))
    {
      ReadOn(chunks, i);
      var pieces := Split(buf + chunks[i]);
      CollectedConcat(Lines(Concat(chunks[..i])), pieces[..|pieces| - 1], parse);
      var text := CollectLines(pieces[..|pieces| - 1], parse);
      fullText := fullText + text;
      buf := pieces[|pieces| - 1];
    }
    assert chunks[..|chunks|] == chunks;
  }

  // ----- exactly when both readers give the same text -----

  /** JSON parsing does not see white space around the value, and the empty text is not JSON. */
  ghost predicate IgnoresSpace(parse: string -> Parsed) {
    parse("") == Invalid && forall s :: parse(s) == parse(Trim(s))
  }

  /** With such a parser both readers see the same payload. */
  lemma SamePayload(line: string, parse: string -> Parsed)
    requires IgnoresSpace(parse)
    ensures CollectedBy(line, parse) == CollectedFrom(Payload(line, parse))
  {
    if PREFIX <= line {
      var raw := line[|PREFIX|..];
      assert parse(raw) == parse(Trim(raw));
    }
  }

  predicate Ends(p: Parsed) {
    p.NullValue? || (p.Readable? && (p.event.kind.Error? || p.event.kind.Done? || p.event.kind.End?))
  }

  predicate IsEnd(line: string, parse: string -> Parsed) { Ends(Payload(line, parse)) }

  predicate IsErrorEvent(p: Parsed) { p.Readable? && p.event.kind.Error? }

  predicate IsError(line: string, parse: string -> Parsed) { IsErrorEvent(Payload(line, parse)) }

  predicate HoldsString(p: Parsed) { p.Readable? && p.event.delta.Str? }

  predicate CarriesString(line: string, parse: string -> Parsed) { HoldsString(Payload(line, parse)) }

  function Streamed(out: seq<Chunk>): string {
    if out == [] then ""
    else Streamed(out[..|out| - 1]) + (if out[|out| - 1].ContentChunk? then out[|out| - 1].text else "")
  }

  lemma StreamedSnoc(out: seq<Chunk>, c: Chunk)
    ensures Streamed(out + [c]) == Streamed(out) + (if c.ContentChunk? then c.text else "")
  {
    assert (out + [c])[..|out|] == out;
  }

  lemma FinalizeAddsNoText(s: Sender)
    ensures Streamed(s.EnsureRole().out) == Streamed(s.out) && Streamed(s.Finalize().out) == Streamed(s.out)
  {
    StreamedSnoc(s.out, RoleChunk);
    var t := s.EnsureRole();
    StreamedSnoc(t.out, StopChunk);
    StreamedSnoc(t.out + [StopChunk], DoneChunk);
  }

  lemma SendAddsText(s: Sender, text: string)
    ensures Streamed(s.EnsureRole().Send(ContentChunk(text)).out) == Streamed(s.out) + text
  {
    FinalizeAddsNoText(s);
    StreamedSnoc(s.EnsureRole().out, ContentChunk(text));
  }

  /** What is no error adds to an open stream the text the collector takes from it, if that is a string. */
  lemma ParsedStreams(s: Sender, p: Parsed)
    requires !s.closed ==> !IsErrorEvent(p)
    ensures var s' := HandleParsed(s, p);
      && Streamed(s'.out) == Streamed(s.out) + (if !s.closed && HoldsString(p) then CollectedFrom(p) else "")
      && s'.closed == (s.closed || Ends(p))
  {
    var text := if !s.closed && HoldsString(p) then CollectedFrom(p) else "";
    if text != "" {
      SendAddsText(s, text);
      assert HandleParsed(s, p) == s.EnsureRole().Send(ContentChunk(text));
    } else {
      FinalizeAddsNoText(s);
      assert HandleParsed(s, p) == if !s.closed && Ends(p) then s.Finalize() else s;
      assert Streamed(s.out) + "" == Streamed(s.out);
    }
  }

  lemma LineStreams(s: Sender, line: string, parse: string -> Parsed)
    requires IgnoresSpace(parse) && (!s.closed ==> !IsError(line, parse))
    ensures var s' := HandleLine(s, line, parse);
      && Streamed(s'.out)
          == Streamed(s.out) + (if !s.closed && CarriesString(line, parse) then CollectedBy(line, parse) else "")
      && s'.closed == (s.closed || IsEnd(line, parse))
  {
    SamePayload(line, parse);
    ParsedStreams(s, Payload(line, parse));
  }

  ghost predicate Ended(lines: seq<string>, parse: string -> Parsed) {
    exists i :: 0 <= i < |lines| && IsEnd(lines[i], parse)
  }

  /** No error event is reached: the first end is a regular one. */
  ghost predicate NoErrorReached(lines: seq<string>, parse: string -> Parsed) {
    forall j :: 0 <= j < |lines| && IsError(lines[j], parse) ==> Ended(lines[..j], parse)
  }

  /** Text comes only as strings and only before the stream has ended. */
  ghost predicate TextWhileOpen(lines: seq<string>, parse: string -> Parsed) {
    forall k :: 0 <= k < |lines| && CollectedBy(lines[k], parse) != "" ==>
      CarriesString(lines[k], parse) && !Ended(lines[..k], parse)
  }

  lemma LastLine(lines: seq<string>, parse: string -> Parsed)
    requires lines != []
    ensures var n := |lines| - 1; var init, line := lines[..n], lines[n];
      && (NoErrorReached(lines, parse) ==> NoErrorReached(init, parse) && (IsError(line, parse) ==> Ended(init, parse)))
      && (Ended(lines, parse) <==> Ended(init, parse) || IsEnd(line, parse))
      && (TextWhileOpen(lines, parse) <==>
           (TextWhileOpen(init, parse)
               && (CollectedBy(line, parse) != "" ==> CarriesString(line, parse) && !Ended(init, parse))))
  {
    var n := |lines| - 1;
    assert forall j :: 0 <= j < n ==> lines[..n][j] == lines[j] && lines[..n][..j] == lines[..j];
  }

  lemma {:induction false} ReadersCompared(lines: seq<string>, parse: string -> Parsed)
    requires IgnoresSpace(parse) && NoErrorReached(lines, parse)
    ensures var s := HandleLines(OPEN, lines, parse);
      && (s.closed <==> Ended(lines, parse))
      && (TextWhileOpen(lines, parse) ==> Streamed(s.out) == Collected(lines, parse))
      && (!TextWhileOpen(lines, parse) ==> |Streamed(s.out)| < |Collected(lines, parse)|)
  {
    if lines == [] {
    } else {
      var n := |lines| - 1;
      LastLine(lines, parse);
      ReadersCompared(lines[..n], parse);
      LineStreams(HandleLines(OPEN, lines[..n], parse), lines[n], parse);
    }
  }

  /**
   When no error event is reached, the streamed content equals the collected text
   exactly if all text comes as strings and before the stream ends.
   */
  lemma ReadersAgreeExactly(text: string, parse: string -> Parsed)
    requires IgnoresSpace(parse) && NoErrorReached(Lines(text), parse)
    ensures Streamed(Transcript(text, parse)) == Collected(Lines(text), parse) <==> TextWhileOpen(Lines(text), parse)
  {
    ReadersCompared(Lines(text), parse);
    FinalizeAddsNoText(HandleLines(OPEN, Lines(text), parse));
  }

  // ----- what every run sends, spelled out -----

  /** The event on a line: behind "data: ", without white space around it. */
  function EventOn(line: string, parse: string -> Parsed): Parsed {
    if "data: " <= line && !AllSpace(line[6..]) then parse(Trim(line[6..])) else Invalid
  }

  /** The line ends the stream: with an error, with a regular end, or with a null, which cannot be read. */
  predicate EndsStream(p: Parsed) {
    p.NullValue? || (p.Readable? && (p.event.kind.Error? || p.event.kind.Done? || p.event.kind.End?))
  }

  /** What the user is sent for an event before the end: its text, unless that is no string, empty or a placeholder. */
  function ContentOf(p: Parsed): seq<Chunk> {
    if p.Readable? && p.event.kind.TextDelta? && !p.event.placeholder && p.event.delta.Str? && p.event.delta.text != ""
    then [ContentChunk(p.event.delta.text)] else []
  }

  /** The contents of the first `n` lines. */
  function Contents(lines: seq<string>, parse: string -> Parsed, n: nat): seq<Chunk>
    requires n <= |lines|
  {
    if n == 0 then [] else Contents(lines, parse, n - 1) + ContentOf(EventOn(lines[n - 1], parse))
  }

  /** The stream ends with line `n`, or with the text when that is the number of lines. */
  ghost predicate EndsWith(lines: seq<string>, parse: string -> Parsed, n: nat) {
    && n <= |lines| && (forall k :: 0 <= k < n ==> !EndsStream(EventOn(lines[k], parse)))
    && (n < |lines| ==> EndsStream(EventOn(lines[n], parse)))
  }

  /** The note of an error event. */
  function NoteOf(p: Parsed): seq<Chunk> {
    if p.Readable? && p.event.kind.Error? then [ContentChunk(p.event.note)] else []
  }

  lemma EventOnIs(line: string, parse: string -> Parsed)
    ensures Payload(line, parse) == EventOn(line, parse)
  {
    if PREFIX <= line { NothingLeftExactly(line[6..]); }
  }

  /** An open stream that has sent the contents, behind a role as soon as there are any. */
  function OpenWith(contents: seq<Chunk>): Sender {
    if contents == [] then OPEN else Sender([RoleChunk] + contents, true, false)
  }

  lemma ContentSent(contents: seq<Chunk>, p: Parsed)
    requires !EndsStream(p)
    ensures HandleParsed(OpenWith(contents), p) == OpenWith(contents + ContentOf(p))
  {
    assert contents + [] == contents;
    if ContentOf(p) != [] {
      var c := ContentOf(p)[0];
      assert [RoleChunk] + [c] == [RoleChunk] + ([] + [c]) && [] + [RoleChunk] == [RoleChunk];
      assert [RoleChunk] + contents + [c] == [RoleChunk] + (contents + [c]);
    }
  }

  lemma {:induction false} ContentsSent(lines: seq<string>, parse: string -> Parsed, n: nat)
    requires n <= |lines| && forall k :: 0 <= k < n ==> !EndsStream(EventOn(lines[k], parse))
    ensures HandleLines(OPEN, lines[..n], parse) == OpenWith(Contents(lines, parse, n))
  {
    if n == 0 {
    } else {
      ContentsSent(lines, parse, n - 1);
      assert lines[..n][..n - 1] == lines[..n - 1];
      EventOnIs(lines[n - 1], parse);
      ContentSent(Contents(lines, parse, n - 1), EventOn(lines[n - 1], parse));
    }
  }

  lemma EndSent(contents: seq<Chunk>)
    ensures OpenWith(contents).Finalize().out == [RoleChunk] + contents + [StopChunk, DoneChunk]
    ensures OpenWith(contents).EnsureRole().out == [RoleChunk] + contents
  {
    var before := [RoleChunk] + contents;
    assert before + [StopChunk] + [DoneChunk] == before + [StopChunk, DoneChunk];
    assert contents == [] ==> before == [RoleChunk] && [] + [RoleChunk] == [RoleChunk];
  }

  lemma EndEventSent(contents: seq<Chunk>, p: Parsed)
    requires EndsStream(p)
    ensures var s := HandleParsed(OpenWith(contents), p);
      s.closed && s.out == [RoleChunk] + contents + NoteOf(p) + [StopChunk, DoneChunk]
  {
    var before := [RoleChunk] + contents;
    EndSent(contents);
    assert before + [] == before;
    assert before + NoteOf(p) + [StopChunk] + [DoneChunk] == before + NoteOf(p) + [StopChunk, DoneChunk];
  }

  /** The line that ends the stream. */
  lemma EndLineSent(lines: seq<string>, parse: string -> Parsed, n: nat)
    requires n < |lines| && EndsWith(lines, parse, n)
    ensures var s := HandleLines(OPEN, lines[..n + 1], parse);
      && s.closed
      && s.out == [RoleChunk] + Contents(lines, parse, n) + NoteOf(EventOn(lines[n], parse)) + [StopChunk, DoneChunk]
  {
    ContentsSent(lines, parse, n);
    EventOnIs(lines[n], parse);
    EndEventSent(Contents(lines, parse, n), EventOn(lines[n], parse));
    assert lines[..n + 1][..n] == lines[..n];
  }

  lemma {:induction false} ClosedAt(lines: seq<string>, n: nat, parse: string -> Parsed)
    requires n <= |lines| && HandleLines(OPEN, lines[..n], parse).closed
    ensures HandleLines(OPEN, lines, parse) == HandleLines(OPEN, lines[..n], parse)
  {
    if n == |lines| {
      assert lines[..n] == lines;
    } else {
      var init := lines[..|lines| - 1];
      assert init[..n] == lines[..n];
      ClosedAt(init, n, parse);
    }
  }

  /** And everything behind it. */
  lemma EndReached(lines: seq<string>, parse: string -> Parsed, n: nat)
    requires n < |lines| && EndsWith(lines, parse, n)
    ensures var s := HandleLines(OPEN, lines, parse);
      && s.closed
      && s.out == [RoleChunk] + Contents(lines, parse, n) + NoteOf(EventOn(lines[n], parse)) + [StopChunk, DoneChunk]
  {
    EndLineSent(lines, parse, n);
    ClosedAt(lines, n + 1, parse);
  }

  /**
   Every run sends the role, the contents of the lines before the one that ends the stream, the note
   if that is an error, and the two end markers; nothing else, and nothing for any line after it.
   */
  lemma TranscriptIs(text: string, parse: string -> Parsed, n: nat)
    requires EndsWith(Lines(text), parse, n)
    ensures var lines := Lines(text);
      Transcript(text, parse)
      == [RoleChunk] + Contents(lines, parse, n) + (if n < |lines| then NoteOf(EventOn(lines[n], parse)) else [])
         + [StopChunk, DoneChunk]
  {
    var lines := Lines(text);
    if n < |lines| {
      EndReached(lines, parse, n);
    } else {
      ContentsSent(lines, parse, n);
      EndSent(Contents(lines, parse, n));
      assert lines[..n] == lines;
      assert [RoleChunk] + Contents(lines, parse, n) + [] == [RoleChunk] + Contents(lines, parse, n);
    }
  }

  /** What the collecting reader takes from a line: the text or the printed value, parsed with its white space. */
  function TakenFrom(line: string, parse: string -> Parsed): string {
    if !("data: " <= line) then ""
    else match parse(line[6..])
      case Readable(Event(TextDelta, false, Str(text), _)) => text
      case Readable(Event(TextDelta, false, NotStr(printed), _)) => printed
      case _ => ""
  }

  function TakenUpTo(lines: seq<string>, parse: string -> Parsed, n: nat): string
    requires n <= |lines|
  {
    if n == 0 then "" else TakenUpTo(lines, parse, n - 1) + TakenFrom(lines[n - 1], parse)
  }

  /** The collecting reader takes from every line, also after one that ends the stream. */
  lemma {:induction false} CollectedIs(lines: seq<string>, parse: string -> Parsed, n: nat)
    requires n <= |lines|
    ensures Collected(lines[..n], parse) == TakenUpTo(lines, parse, n)
  {
    if n == 0 {
    } else {
      CollectedIs(lines, parse, n - 1);
      assert lines[..n][..n - 1] == lines[..n - 1];
    }
  }
}
