/**
 The few JavaScript string operations the modelled code relies on, over plain
 character sequences: trimming, prefixes, the position of a character.
 */
module JsText {
  datatype Option<+T> = None | Some(value: T) {
    function GetOr(default: T): T {
      match this
      case Some(v) => v
      case None => default
    }
  }

  /** The white space that `trim` removes, among plain characters. */
  predicate IsSpace(c: char) {
    c == ' ' || c == '\t' || c == '\n' || c == '\r'
  }

  function TrimStart(s: string): string {
    if s != "" && IsSpace(s[0]) then TrimStart(s[1..]) else s
  }

  function TrimEnd(s: string): string {
    if s != "" && IsSpace(s[|s| - 1]) then TrimEnd(s[..|s| - 1]) else s
  }

  function Trim(s: string): string {
    TrimEnd(TrimStart(s))
  }

  predicate Trimmed(s: string) {
    s == "" || (!IsSpace(s[0]) && !IsSpace(s[|s| - 1]))
  }

  lemma {:induction false} TrimStartIs(s: string)
    ensures var r := TrimStart(s);
      && |r| <= |s| && r == s[|s| - |r|..] && (r == "" || !IsSpace(r[0]))
  {
    if s != "" && IsSpace(s[0]) {
      TrimStartIs(s[1..]);
    }
  }

  lemma {:induction false} TrimEndIs(s: string)
    ensures var r := TrimEnd(s);
      && r <= s && (r == "" || !IsSpace(r[|r| - 1])) && (s != "" && !IsSpace(s[0]) ==> r != "")
  {
    if s != "" && IsSpace(s[|s| - 1]) {
      TrimEndIs(s[..|s| - 1]);
    }
  }

  /** Trimming leaves a trimmed stretch of the string, and all of it when it is trimmed already. */
  lemma TrimIs(s: string)
    ensures Trimmed(Trim(s)) && (forall c :: c in Trim(s) ==> c in s)
    ensures Trimmed(s) ==> Trim(s) == s
    ensures s != "" && !IsSpace(s[0]) ==> Trim(s) != "" && Trim(s)[0] == s[0]
  {
    var t := TrimStart(s);
    TrimStartIs(s);
    TrimEndIs(t);
    forall c | c in Trim(s) ensures c in s {
      assert c in t;
    }
  }

  predicate AllSpace(s: string) { forall k :: 0 <= k < |s| ==> IsSpace(s[k]) }

  lemma {:induction false} TrimStartDrops(a: string, s: string)
    requires AllSpace(a) && (s == "" || !IsSpace(s[0]))
    ensures TrimStart(a + s) == s
  {
    if a == "" {
      assert a + s == s;
    } else {
      assert (a + s)[1..] == a[1..] + s;
      TrimStartDrops(a[1..], s);
    }
  }

  lemma {:induction false} TrimEndDrops(s: string, b: string)
    requires AllSpace(b) && (s == "" || !IsSpace(s[|s| - 1]))
    ensures TrimEnd(s + b) == s
  {
    if b == "" {
      assert s + b == s;
    } else {
      assert (s + b)[..|s + b| - 1] == s + b[..|b| - 1];
      TrimEndDrops(s, b[..|b| - 1]);
    }
  }

  lemma {:induction false} TrimStartSplits(s: string) returns (a: string)
    ensures AllSpace(a) && s == a + TrimStart(s)
  {
    if s != "" && IsSpace(s[0]) {
      a := TrimStartSplits(s[1..]);
      a := [s[0]] + a;
    } else {
      a := "";
    }
  }

  lemma {:induction false} TrimEndSplits(s: string) returns (b: string)
    ensures AllSpace(b) && s == TrimEnd(s) + b
  {
    if s != "" && IsSpace(s[|s| - 1]) {
      b := TrimEndSplits(s[..|s| - 1]);
      b := b + [s[|s| - 1]];
    } else {
      b := "";
    }
  }

  /** `t` is what is left of `s` without white space around it. */
  ghost predicate IsTrimOf(t: string, s: string) {
    Trimmed(t) && exists a, b :: AllSpace(a) && AllSpace(b) && s == a + t + b
  }

  /** Trimming takes away the white space around the string and nothing else. */
  lemma TrimExactly(s: string, t: string)
    ensures Trim(s) == t <==> IsTrimOf(t, s)
  {
    var a := TrimStartSplits(s);
    var b := TrimEndSplits(TrimStart(s));
    TrimIs(s);
    assert s == a + Trim(s) + b;
    if IsTrimOf(t, s) {
      var a', b' :| AllSpace(a') && AllSpace(b') && s == a' + t + b';
      if t == "" {
        assert s == a' + b' && AllSpace(s);
        TrimStartDrops(s, "");
        assert s + "" == s;
      } else {
        assert s == a' + (t + b');
        TrimStartDrops(a', t + b');
        TrimEndDrops(t, b');
      }
    }
  }

  /** Nothing is left exactly of white space. */
  lemma NothingLeftExactly(s: string)
    ensures Trim(s) == "" <==> AllSpace(s)
  {
    TrimExactly(s, "");
    if AllSpace(s) {
      var a, b := s, "";
      assert AllSpace(b) && s == a + "" + b;
    }
  }

  predicate StartsWith(s: string, prefix: string) {
    prefix <= s
  }

  /** The position of the first `c` in `s`, or `|s|` when there is none. */
  function IndexOf(s: string, c: char): (i: nat)
    ensures i <= |s| && c !in s[..i] && (i < |s| ==> s[i] == c)
  {
    if s == "" || s[0] == c then 0
    else
      var r := IndexOf(s[1..], c);
      assert s[..r + 1] == [s[0]] + s[1..][..r];
      r + 1
  }

  lemma {:induction false} IndexOfSplit(a: string, c: char, b: string)
    requires c !in a
    ensures IndexOf(a + [c] + b, c) == |a|
  {
    if a == "" {
    } else {
      assert (a + [c] + b)[1..] == a[1..] + [c] + b;
      IndexOfSplit(a[1..], c, b);
    }
  }

  // ----- lines -----

  /** The pieces after one more character. */
  function Extend(pieces: seq<string>, c: char): (r: seq<string>)
    requires pieces != []
    ensures r != []
  {
    if c == '\n' then pieces + [""] else pieces[|pieces| - 1 := pieces[|pieces| - 1] + [c]]
  }

  /** `s.split("\n")`. */
  function Split(s: string): (pieces: seq<string>)
    ensures pieces != []
  {
    if s == "" then [""] else Extend(Split(s[..|s| - 1]), s[|s| - 1])
  }

  /** The lines that are complete, that is ended by a line feed. */
  function Lines(s: string): seq<string> { Split(s)[..|Split(s)| - 1] }

  function Remainder(s: string): string { Split(s)[|Split(s)| - 1] }

  lemma SplitSnoc(s: string, c: char)
    ensures Split(s + [c]) == Extend(Split(s), c)
  {
    assert (s + [c])[..|s|] == s;
  }

  lemma ExtendConcat(a: seq<string>, b: seq<string>, c: char)
    requires b != []
    ensures Extend(a + b, c) == a + Extend(b, c)
  {
  }

  lemma {:induction false} RemainderHasNoLine(s: string)
    ensures '\n' !in Remainder(s)
  {
    if s == "" {
    } else {
      RemainderHasNoLine(s[..|s| - 1]);
    }
  }

  lemma {:induction false} SplitLineless(s: string)
    requires '\n' !in s
    ensures Split(s) == [s]
  {
    if s == "" {
    } else {
      SplitLineless(s[..|s| - 1]);
      assert s == s[..|s| - 1] + [s[|s| - 1]];
    }
  }

  lemma {:induction false} SplitConcat(a: string, b: string)
    ensures Split(a + b) == Lines(a) + Split(Remainder(a) + b)
  {
    if b == "" {
      assert a + b == a && Remainder(a) + b == Remainder(a);
      RemainderHasNoLine(a);
      SplitLineless(Remainder(a));
    } else {
      var init, c := b[..|b| - 1], b[|b| - 1];
      SplitConcat(a, init);
      SplitSnoc(a + init, c);
      SplitSnoc(Remainder(a) + init, c);
      ExtendConcat(Lines(a), Split(Remainder(a) + init), c);
      assert a + b == a + init + [c] && Remainder(a) + b == Remainder(a) + init + [c];
    }
  }
}
