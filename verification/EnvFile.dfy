/**
 The KEY=VALUE file of the desktop shell (electron/main.js): its parser and printer,
 and the start-up that generates missing secrets and writes them back.
 */
module EnvFile {
  import opened JsText
  import opened JsObject

  type Env = Fields<string>

  // ----- the parser -----

  function StripCr(piece: string): string {
    if piece != "" && piece[|piece| - 1] == '\r' then piece[..|piece| - 1] else piece
  }

  /** `text.split(/\r?\n/)`: the last piece keeps a carriage return. */
  function SplitLines(text: string): seq<string> {
    var pieces := Split(text);
    seq(|pieces|, i requires 0 <= i < |pieces| => if i < |pieces| - 1 then StripCr(pieces[i]) else pieces[i])
  }

  function ParseLine(env: Env, line: string): Env {
    var t := Trim(line);
    if t == "" || t[0] == '#' then env
    else
      var eq := IndexOf(t, '=');
      if eq < 1 || eq == |t| then env else Put(env, Trim(t[..eq]), Trim(t[eq + 1..]))
  }

  function ParseLines(lines: seq<string>): Env {
    if lines == [] then [] else ParseLine(ParseLines(lines[..|lines| - 1]), lines[|lines| - 1])
  }

  function Parse(text: string): Env { ParseLines(SplitLines(text)) }

  /** `parseEnvFile`; a missing file gives no entries. */
  method ParseEnvFile(text: Option<string>) returns (env: Env)
    ensures env == if text.Some? then Parse(text.value) else []
  {
    env := [];
    if text.None? { return; }
    var lines := SplitLines(text.value);
    for i := 0 to |lines|
      invariant env == ParseLines(lines[..i])
    {
      assert lines[..i + 1][..i] == lines[..i];
      var t := Trim(lines[i]);
      if t == "" || t[0] == '#' { continue; }
      var eq := IndexOf(t, '=');
      if eq < 1 || eq == |t| { continue; }
      env := Put(env, Trim(t[..eq]), Trim(t[eq + 1..]));
    }
    assert lines[..|lines|] == lines;
  }

  // ----- the printer -----

  function PrintEntry(e: (string, string)): string { e.0 + "=" + e.1 }

  function Join(lines: seq<string>): string
    requires lines != []
  {
    if |lines| == 1 then lines[0] else Join(lines[..|lines| - 1]) + "\n" + lines[|lines| - 1]
  }

  function EntryLines(env: Env): seq<string> {
    seq(|env|, i requires 0 <= i < |env| => PrintEntry(env[i]))
  }

  function PrintLines(header: string, env: Env): seq<string> {
    [header, ""] + EntryLines(env) + [""]
  }

  /** The text written to disk: a comment, the entries, and blank lines around them. */
  function Print(header: string, env: Env): string { Join(PrintLines(header, env)) }

  // ----- exactly which entries survive -----

  predicate Printable(e: (string, string)) {
    && e.0 != "" && Trimmed(e.0) && e.0[0] != '#' && '=' !in e.0 && '\n' !in e.0
    && Trimmed(e.1) && '\n' !in e.1
  }

  ghost predicate PrintableEnv(env: Env) {
    DistinctKeys(env) && forall e :: e in env ==> Printable(e)
  }

  /** The two halves of a line around its first equals sign. */
  lemma HalvesArePrintable(t: string, eq: nat)
    requires Trimmed(t) && '\n' !in t && 1 <= eq < |t| && t[0] != '#' && '=' !in t[..eq]
    ensures Printable((Trim(t[..eq]), Trim(t[eq + 1..])))
  {
    var left, right := t[..eq], t[eq + 1..];
    TrimIs(left);
    TrimIs(right);
    assert left[0] == t[0];
    assert '\n' !in left && '\n' !in right;
  }

  lemma ParseLinePrintable(env: Env, line: string)
    requires PrintableEnv(env) && '\n' !in line
    ensures PrintableEnv(ParseLine(env, line))
  {
    var t := Trim(line);
    TrimIs(line);
    if t != "" && t[0] != '#' {
      var eq := IndexOf(t, '=');
      if 1 <= eq < |t| {
        HalvesArePrintable(t, eq);
        PutIs(env, Trim(t[..eq]), Trim(t[eq + 1..]));
      }
    }
  }

  lemma {:induction false} ParseLinesPrintable(lines: seq<string>)
    requires forall l :: l in lines ==> '\n' !in l
    ensures PrintableEnv(ParseLines(lines))
  {
    if lines == [] {
    } else {
      assert forall l :: l in lines[..|lines| - 1] ==> l in lines;
      ParseLinesPrintable(lines[..|lines| - 1]);
      ParseLinePrintable(ParseLines(lines[..|lines| - 1]), lines[|lines| - 1]);
    }
  }

  lemma {:induction false} PiecesHaveNoLineFeed(s: string)
    ensures forall p :: p in Split(s) ==> '\n' !in p
  {
    if s == "" {
    } else {
      PiecesHaveNoLineFeed(s[..|s| - 1]);
    }
  }

  lemma ParsedIsPrintable(text: string)
    ensures PrintableEnv(Parse(text))
  {
    PiecesHaveNoLineFeed(text);
    forall l | l in SplitLines(text) ensures '\n' !in l {
      var i :| 0 <= i < |SplitLines(text)| && SplitLines(text)[i] == l;
      assert Split(text)[i] in Split(text);
    }
    ParseLinesPrintable(SplitLines(text));
  }

  /** One more line joined on. */
  lemma SplitJoinOne(text: string, lines: seq<string>, line: string)
    requires Split(text) == lines && '\n' !in line
    ensures Split(text + "\n" + line) == lines + [line]
  {
    SplitSnoc(text, '\n');
    SplitConcat(text + "\n", line);
    SplitLineless(line);
    assert Lines(text + "\n") == lines && Remainder(text + "\n") + line == line;
  }

  lemma {:induction false} SplitJoin(lines: seq<string>)
    requires lines != [] && forall i :: 0 <= i < |lines| ==> '\n' !in lines[i]
    ensures Split(Join(lines)) == lines
  {
    var n := |lines| - 1;
    if n == 0 {
      SplitLineless(lines[0]);
    } else {
      SplitJoin(lines[..n]);
      SplitJoinOne(Join(lines[..n]), lines[..n], lines[n]);
      assert lines[..n] + [lines[n]] == lines;
    }
  }

  lemma PrintedLineParses(env: Env, e: (string, string))
    requires Printable(e)
    ensures ParseLine(env, PrintEntry(e)) == Put(env, e.0, e.1)
  {
    var t := e.0 + "=" + e.1;
    assert t[0] == e.0[0] && t[|t| - 1] == if e.1 == "" then '=' else e.1[|e.1| - 1];
    TrimIs(t);
    IndexOfSplit(e.0, '=', e.1);
    TrimIs(e.0);
    TrimIs(e.1);
    assert t[..|e.0|] == e.0 && t[|e.0| + 1..] == e.1;
  }

  lemma ParseLinesSnoc(lines: seq<string>, line: string)
    ensures ParseLines(lines + [line]) == ParseLine(ParseLines(lines), line)
  {
    assert (lines + [line])[..|lines|] == lines;
  }

  /** A printed entry with a new key is appended. */
  lemma PrintedLineAppends(lines: seq<string>, m: nat, env: Env, n: nat)
    requires m < |lines| && n < |env| && DistinctKeys(env) && Printable(env[n])
    requires ParseLines(lines[..m]) == env[..n] && lines[m] == PrintEntry(env[n])
    ensures ParseLines(lines[..m + 1]) == env[..n + 1]
  {
    var init, next := lines[..m], lines[..m + 1];
    assert next[..m] == init && next[m] == lines[m];
    PrintedLineParses(env[..n], env[n]);
    assert Find(env[..n], env[n].0) == n;
  }

  /** `lines` holds the entries of `env` from line `m` on. */
  ghost predicate Holds(lines: seq<string>, m: nat, env: Env) {
    |lines| == m + |env| && forall i :: 0 <= i < |env| ==> lines[m + i] == PrintEntry(env[i])
  }

  /** Lines that hold a printable object from `m` on parse to that object. */
  lemma {:induction false} PrintedLinesParse(lines: seq<string>, m: nat, env: Env)
    requires DistinctKeys(env) && forall i :: 0 <= i < |env| ==> Printable(env[i])
    requires Holds(lines, m, env) && ParseLines(lines[..m]) == []
    ensures ParseLines(lines) == env
  {
    if env == [] {
      assert lines[..m] == lines;
    } else {
      var k, n := |lines| - 1, |env| - 1;
      var init, prior := env[..n], lines[..k];
      assert prior[..m] == lines[..m];
      PrintedLinesParse(prior, m, init);
      assert lines[m + n] == PrintEntry(env[n]);
      PrintedLineAppends(lines, k, env, n);
      assert lines[..k + 1] == lines && env[..n + 1] == env;
    }
  }

  /** A comment line for the top of the file. */
  predicate IsHeader(header: string) {
    header != "" && header[0] == '#' && Trimmed(header) && '\n' !in header
  }

  /** No printed line ends in a carriage return or holds a line feed. */
  lemma PrintedEntryIsLine(e: (string, string))
    requires Printable(e)
    ensures '\n' !in PrintEntry(e) && StripCr(PrintEntry(e)) == PrintEntry(e)
  {
    var l := PrintEntry(e);
    assert l[|l| - 1] == if e.1 == "" then '=' else e.1[|e.1| - 1];
  }

  lemma PrintedText(header: string, env: Env)
    requires IsHeader(header) && PrintableEnv(env)
    ensures SplitLines(Print(header, env)) == PrintLines(header, env)
  {
    var lines, entries := PrintLines(header, env), EntryLines(env);
    forall i | 0 <= i < |lines| ensures '\n' !in lines[i] && StripCr(lines[i]) == lines[i] {
      if 2 <= i < |env| + 2 {
        assert lines[i] == entries[i - 2] == PrintEntry(env[i - 2]);
        PrintedEntryIsLine(env[i - 2]);
      } else {
        assert lines[i] == header || lines[i] == "";
      }
    }
    SplitJoin(lines);
  }

  lemma HeadParsesToNothing(header: string)
    requires IsHeader(header)
    ensures ParseLines([header, ""]) == []
  {
    TrimIs(header);
    TrimIs("");
    ParseLinesSnoc([], header);
    ParseLinesSnoc([header], "");
    assert [] + [header] == [header] && [header] + [""] == [header, ""];
  }

  lemma PrintedParses(header: string, env: Env)
    requires IsHeader(header) && PrintableEnv(env)
    ensures Parse(Print(header, env)) == env
  {
    PrintedText(header, env);
    HeadParsesToNothing(header);
    var lines := [header, ""] + EntryLines(env);
    assert lines[..2] == [header, ""];
    PrintedLinesParse(lines, 2, env);
    ParseLinesSnoc(lines, "");
    TrimIs("");
  }

  /** Printing and parsing give an object back exactly when all its entries are printable. */
  lemma RoundTripExactly(header: string, env: Env)
    requires IsHeader(header)
    ensures Parse(Print(header, env)) == env <==> PrintableEnv(env)
  {
    if PrintableEnv(env) {
      PrintedParses(header, env);
    }
    ParsedIsPrintable(Print(header, env));
  }

  // ----- what is read and written, spelled out -----

  /** The line, trimmed, is no comment and has a name before its first equals sign. */
  predicate IsAssignment(line: string, left: string, right: string) {
    Trim(line) == left + "=" + right && '=' !in left && left != "" && left[0] != '#'
  }

  ghost predicate Assigns(line: string) { exists left, right :: IsAssignment(line, left, right) }

  /** An assignment sets what stands before the first equals sign to what stands behind it, both trimmed. */
  lemma AssignmentIs(env: Env, line: string, left: string, right: string)
    requires IsAssignment(line, left, right)
    ensures ParseLine(env, line) == Put(env, Trim(left), Trim(right))
  {
    var t := Trim(line);
    IndexOfSplit(left, '=', right);
    assert t[..|left|] == left && t[|left| + 1..] == right && t[0] == left[0];
  }

  /** Any other line sets nothing. */
  lemma NoAssignmentIs(env: Env, line: string)
    requires !Assigns(line)
    ensures ParseLine(env, line) == env
  {
    var t := Trim(line);
    if t != "" && t[0] != '#' {
      var eq := IndexOf(t, '=');
      if 1 <= eq < |t| {
        assert t[..eq] + "=" + t[eq + 1..] == t;
        assert IsAssignment(line, t[..eq], t[eq + 1..]);
      }
    }
  }

  /** Of several lines that set a name the last one counts. */
  lemma LastAssignmentCounts(lines: seq<string>, line: string, name: string)
    requires forall l :: l in lines ==> '\n' !in l
    ensures forall left, right :: IsAssignment(line, left, right) ==>
      Get(ParseLines(lines + [line]), name)
      == if name == Trim(left) then Some(Trim(right)) else Get(ParseLines(lines), name)
    ensures !Assigns(line) ==> ParseLines(lines + [line]) == ParseLines(lines)
    ensures ParseLines([]) == []
  {
    ParseLinesSnoc(lines, line);
    ParseLinesPrintable(lines);
    forall left, right | IsAssignment(line, left, right)
      ensures Get(ParseLines(lines + [line]), name)
        == if name == Trim(left) then Some(Trim(right)) else Get(ParseLines(lines), name)
    {
      AssignmentIs(ParseLines(lines), line, left, right);
      PutIs(ParseLines(lines), Trim(left), Trim(right));
    }
    if !Assigns(line) { NoAssignmentIs(ParseLines(lines), line); }
  }

  /** The entries, one on a line. */
  function EntryText(env: Env): string {
    if env == [] then ""
    else EntryText(env[..|env| - 1]) + env[|env| - 1].0 + "=" + env[|env| - 1].1 + "\n"
  }

  lemma JoinSnoc(lines: seq<string>, line: string)
    requires lines != []
    ensures Join(lines + [line]) == Join(lines) + "\n" + line
  {
    assert (lines + [line])[..|lines|] == lines;
  }

  lemma EntryAdds(joined: string, before: string, text: string, name: string, value: string)
    requires joined + "\n" == before + text
    ensures joined + "\n" + (name + "=" + value) + "\n" == before + (text + name + "=" + value + "\n")
  {
    assert joined + "\n" + (name + "=" + value) + "\n" == joined + "\n" + (name + "=" + value + "\n");
    assert before + text + (name + "=" + value + "\n") == before + (text + (name + "=" + value + "\n"));
    assert text + (name + "=" + value + "\n") == text + name + "=" + value + "\n";
  }

  lemma {:induction false} JoinedEntries(header: string, env: Env)
    ensures Join([header, ""] + EntryLines(env)) + "\n" == header + "\n\n" + EntryText(env)
  {
    if env == [] {
      JoinSnoc([header], "");
      assert [header, ""] + EntryLines(env) == [header] + [""];
    } else {
      var n := |env| - 1;
      var init, line := [header, ""] + EntryLines(env[..n]), PrintEntry(env[n]);
      JoinedEntries(header, env[..n]);
      assert [header, ""] + EntryLines(env) == init + [line];
      JoinSnoc(init, line);
      EntryAdds(Join(init), header + "\n\n", EntryText(env[..n]), env[n].0, env[n].1);
    }
  }

  /** The text written: the comment, an empty line, and each entry on a line that is ended. */
  lemma PrintIs(header: string, env: Env)
    ensures Print(header, env) == header + "\n\n" + EntryText(env)
  {
    JoinedEntries(header, env);
    JoinSnoc([header, ""] + EntryLines(env), "");
  }
}
