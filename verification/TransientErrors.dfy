/**
 Which upstream errors count as transient in open-sse/executors/antigravity.ts, by status and
 by the text of the error.
 */
module TransientErrors {
  import opened JsText

  const RATE_LIMITED := 429
  const SERVER_ERROR := 500
  const BAD_GATEWAY := 502
  const SERVICE_UNAVAILABLE := 503
  const GATEWAY_TIMEOUT := 504

  predicate IsTransientStatus(status: int) {
    status in {SERVER_ERROR, BAD_GATEWAY, SERVICE_UNAVAILABLE, GATEWAY_TIMEOUT}
  }

  /** The error patterns, spelled out: words with white space between them. */
  const PATTERNS: seq<seq<string>> := [
    ["high", "traffic"],
    ["agent", "terminated", "due", "to", "error"],
    ["agent", "execution", "terminated", "due", "to", "error"],
    ["capacity"],
    ["temporarily", "unavailable"],
    ["timeout"],
    ["stream", "ended"], ["stream", "closed"], ["stream", "terminated"], ["stream", "interrupted"],
    ["empty", "response"]
  ]

  function Lower(s: string): string {
    seq(|s|, i requires 0 <= i < |s| => if 'A' <= s[i] <= 'Z' then (s[i] as int + 32) as char else s[i])
  }

  /** The words begin the text, one after the other. */
  predicate BeginsWith(s: string, words: seq<string>)
    decreases |words|
  {
    if words == [] then true
    else
      && words[0] <= s
      && var rest := s[|words[0]|..];
         |words| == 1 || (rest != "" && IsSpace(rest[0]) && BeginsWith(TrimStart(rest), words[1..]))
  }

  predicate Contains(s: string, words: seq<string>) {
    exists i :: 0 <= i <= |s| && BeginsWith(s[i..], words)
  }

  predicate MatchesPattern(message: string) {
    exists k :: 0 <= k < |PATTERNS| && Contains(Lower(message), PATTERNS[k])
  }

  predicate IsTransient(status: int, message: string) {
    status == RATE_LIMITED || IsTransientStatus(status) || MatchesPattern(message)
  }

  /** `shouldAutoRetryTransient`; `message` is the flattened text of the error, none when reading it fails. */
  predicate ShouldAutoRetry(status: int, message: Option<string>) {
    if status == RATE_LIMITED then true
    else if !IsTransientStatus(status) then false
    else message.Some? && IsTransient(status, message.value)
  }

  /** What the comment above it promises: a transient 5xx only when its text matches a pattern. */
  predicate Announced(status: int, message: Option<string>) {
    status == RATE_LIMITED || (IsTransientStatus(status) && message.Some? && MatchesPattern(message.value))
  }

  /** The code keeps that promise exactly unless a transient 5xx has a text that matches no pattern. */
  lemma AnnouncedExactly(status: int, message: Option<string>)
    ensures (ShouldAutoRetry(status, message) <==> Announced(status, message))
      <==> !(IsTransientStatus(status) && message.Some? && !MatchesPattern(message.value))
  {
  }

  /** Which errors count as transient, and which are retried: of a retried one the text never decides. */
  lemma RetriedExactly(status: int, message: Option<string>)
    ensures ShouldAutoRetry(status, message)
        <==> status == 429 || (status in {500, 502, 503, 504} && message.Some?)
    ensures message.Some? ==>
      (IsTransient(status, message.value)
       <==> status in {429, 500, 502, 503, 504} || MatchesPattern(message.value))
  {
  }

  // ----- which texts match -----

  const PHRASES: set<seq<string>> := {
    ["high", "traffic"], ["agent", "terminated", "due", "to", "error"],
    ["agent", "execution", "terminated", "due", "to", "error"], ["capacity"], ["temporarily", "unavailable"],
    ["timeout"], ["stream", "ended"], ["stream", "closed"], ["stream", "terminated"], ["stream", "interrupted"],
    ["empty", "response"]
  }

  /** The words with the gaps between them. */
  function Spell(words: seq<string>, gaps: seq<string>): string
    requires |words| == |gaps| + 1
  {
    if gaps == [] then words[0] else words[0] + gaps[0] + Spell(words[1..], gaps[1..])
  }

  /** The text begins with the words, with white space between them. */
  ghost predicate Spells(s: string, words: seq<string>, gaps: seq<string>, rest: string) {
    && |words| == |gaps| + 1 && s == Spell(words, gaps) + rest
    && forall k :: 0 <= k < |gaps| ==> gaps[k] != "" && AllSpace(gaps[k])
  }

  predicate AreWords(words: seq<string>) {
    words != [] && forall k :: 0 <= k < |words| ==> words[k] != "" && !IsSpace(words[k][0])
  }

  lemma SpellCons(words: seq<string>, gap: string, gaps: seq<string>, rest: string)
    requires |words| == |gaps| + 2
    ensures Spell(words, [gap] + gaps) + rest == words[0] + (gap + (Spell(words[1..], gaps) + rest))
  {
    assert ([gap] + gaps)[1..] == gaps;
  }

  lemma SpelledOn(s: string, words: seq<string>, gap: string, gaps: seq<string>, rest: string)
    requires |words| == |gaps| + 2 && gap != "" && AllSpace(gap) && Spells(s, words[1..], gaps, rest)
    ensures Spells(words[0] + (gap + s), words, [gap] + gaps, rest)
  {
    SpellCons(words, gap, gaps, rest);
  }

  lemma {:induction false} BeginsIsSpelled(s: string, words: seq<string>) returns (gaps: seq<string>, rest: string)
    requires AreWords(words) && BeginsWith(s, words)
    ensures Spells(s, words, gaps, rest)
    decreases |words|
  {
    var tail := s[|words[0]|..];
    assert s == words[0] + tail;
    if |words| == 1 {
      gaps, rest := [], tail;
    } else {
      var gap := TrimStartSplits(tail);
      var more;
      more, rest := BeginsIsSpelled(TrimStart(tail), words[1..]);
      SpelledOn(TrimStart(tail), words, gap, more, rest);
      gaps := [gap] + more;
    }
  }

  lemma SpellStarts(words: seq<string>, gaps: seq<string>)
    requires AreWords(words) && |words| == |gaps| + 1
    ensures words[0] <= Spell(words, gaps) && !IsSpace(Spell(words, gaps)[0])
  {
  }

  lemma {:induction false} SpelledBegins(s: string, words: seq<string>, gaps: seq<string>, rest: string)
    requires AreWords(words) && Spells(s, words, gaps, rest)
    ensures BeginsWith(s, words)
    decreases |words|
  {
    SpellStarts(words, gaps);
    if gaps != [] {
      var more := Spell(words[1..], gaps[1..]) + rest;
      assert s == words[0] + (gaps[0] + more);
      assert s[|words[0]|..] == gaps[0] + more;
      SpellStarts(words[1..], gaps[1..]);
      TrimStartDrops(gaps[0], more);
      SpelledBegins(more, words[1..], gaps[1..], rest);
    }
  }

  lemma PatternsAre()
    ensures forall k :: 0 <= k < |PATTERNS| ==> PATTERNS[k] in PHRASES && AreWords(PATTERNS[k])
    ensures forall words :: words in PHRASES ==> words in PATTERNS
  {
  }

  /** Lower case: letters A to Z change, nothing else does. */
  lemma LowerIs(s: string, i: nat)
    requires i < |s|
    ensures |Lower(s)| == |s|
    ensures if 'A' <= s[i] <= 'Z' then Lower(s)[i] as int - 'a' as int == s[i] as int - 'A' as int
            else Lower(s)[i] == s[i]
  {
  }

  /** Somewhere the words stand in the text. */
  ghost predicate Says(s: string, words: seq<string>) {
    exists i, gaps, rest :: 0 <= i <= |s| && Spells(s[i..], words, gaps, rest)
  }

  lemma ContainsExactly(s: string, words: seq<string>)
    requires AreWords(words)
    ensures Contains(s, words) <==> Says(s, words)
  {
    if i :| 0 <= i <= |s| && BeginsWith(s[i..], words) {
      var gaps, rest := BeginsIsSpelled(s[i..], words);
    }
    if i, gaps, rest :| 0 <= i <= |s| && Spells(s[i..], words, gaps, rest) {
      SpelledBegins(s[i..], words, gaps, rest);
    }
  }

  lemma AnyIsSaid(s: string, patterns: seq<seq<string>>, phrases: set<seq<string>>)
    requires forall k :: 0 <= k < |patterns| ==> patterns[k] in phrases && AreWords(patterns[k])
    requires forall words :: words in phrases ==> words in patterns
    ensures (exists k :: 0 <= k < |patterns| && Contains(s, patterns[k]))
        <==> exists words :: words in phrases && Says(s, words)
  {
    forall k | 0 <= k < |patterns| ensures Contains(s, patterns[k]) <==> Says(s, patterns[k]) {
      ContainsExactly(s, patterns[k]);
    }
  }

  /** A text matches exactly when, in lower case, it holds one of the phrases, its words apart by white space. */
  lemma MatchesExactly(message: string)
    ensures MatchesPattern(message) <==> exists words :: words in PHRASES && Says(Lower(message), words)
  {
    PatternsAre();
    AnyIsSaid(Lower(message), PATTERNS, PHRASES);
  }

  predicate IsLong(words: seq<string>) {
    words != [] && (if |words| == 1 then |words[0]| >= 7 else |words[0]| + |words[1]| >= 7)
  }

  lemma PatternsAreLong()
    ensures forall k :: 0 <= k < |PATTERNS| ==> IsLong(PATTERNS[k])
  {
  }

  lemma ShortTextBegins(s: string, words: seq<string>)
    requires |s| < 7 && IsLong(words)
    ensures !BeginsWith(s, words)
  {
    if |words| > 1 && words[0] <= s {
      var rest := TrimStart(s[|words[0]|..]);
      TrimStartIs(s[|words[0]|..]);
      assert words[1..][0] == words[1] && !(words[1] <= rest);
    }
  }

  /** No pattern is shorter than seven characters. */
  lemma ShortTextMatchesNothing(message: string)
    requires |message| < 7
    ensures !MatchesPattern(message)
  {
    var s := Lower(message);
    PatternsAreLong();
    forall k | 0 <= k < |PATTERNS| ensures !Contains(s, PATTERNS[k]) {
      var words := PATTERNS[k];
      forall i | 0 <= i <= |s| ensures !BeginsWith(s[i..], words) {
        ShortTextBegins(s[i..], words);
      }
    }
  }

  /** A 503 that says "busy" is retried against the announcement. */
  lemma BusyIsRetried()
    ensures ShouldAutoRetry(SERVICE_UNAVAILABLE, Some("busy")) && !Announced(SERVICE_UNAVAILABLE, Some("busy"))
  {
    ShortTextMatchesNothing("busy");
  }
}
