/**
 The content normaliser of `transformRequest` in open-sse/executors/antigravity.ts:
 parts are filtered, roles re-assigned, neighbouring turns of one role merged in
 place, and on the Claude path trailing model turns popped.
 */
module AntigravityContents {
  import opened JsText

  const BYPASS_SIGNATURE := "skip_thought_signature_validator"

  /**
   A part, as far as the filter looks at it: `call` is the name of its function call
   (empty when nameless), an empty signature is an absent one.
   */
  datatype Part = Part(text: Option<string>, call: Option<string>, isResponse: bool, isThought: bool,
                       signature: string, payload: string)

  datatype Content = Content(role: Option<string>, parts: Option<seq<Part>>)

  function PartsOf(c: Content): seq<Part> { c.parts.GetOr([]) }

  function RoleOf(c: Content): string {
    if exists p :: p in PartsOf(c) && p.isResponse then "user" else c.role.GetOr("user")
  }

  predicate HasCall(c: Content) { exists p :: p in PartsOf(c) && p.call.Some? }

  predicate Survives(p: Part, hasCall: bool) {
    && p.text != Some("") && p.call != Some("") && !p.isThought
    && (hasCall || p.signature == "" || p.signature == BYPASS_SIGNATURE)
  }

  function Kept(c: Content, parts: seq<Part>): seq<Part> {
    if parts == [] then []
    else
      var p := parts[|parts| - 1];
      Kept(c, parts[..|parts| - 1]) + (if Survives(p, HasCall(c)) then [p] else [])
  }

  function WithRole(role: string, parts: seq<Part>): seq<(string, Part)> {
    seq(|parts|, i requires 0 <= i < |parts| => (role, parts[i]))
  }

  /** All surviving parts in order, each under the re-assigned role of its content. */
  function Surviving(raw: seq<Content>): seq<(string, Part)> {
    if raw == [] then []
    else
      var c := raw[|raw| - 1];
      Surviving(raw[..|raw| - 1]) + WithRole(RoleOf(c), Kept(c, PartsOf(c)))
  }

  datatype Turn = Turn(role: string, parts: seq<Part>)

  function Flatten(turns: seq<Turn>): seq<(string, Part)> {
    if turns == [] then []
    else Flatten(turns[..|turns| - 1]) + WithRole(turns[|turns| - 1].role, turns[|turns| - 1].parts)
  }

  ghost predicate Alternates(turns: seq<Turn>) {
    && (forall i :: 0 <= i < |turns| ==> turns[i].parts != [])
    && (forall i :: 0 <= i && i + 1 < |turns| ==> turns[i].role != turns[i + 1].role)
  }

  // ----- the code -----

  class TurnObject {
    const role: string
    var parts: seq<Part>

    constructor (role: string, parts: seq<Part>)
      ensures this.role == role && this.parts == parts
    {
      this.role, this.parts := role, parts;
    }
  }

  ghost function Snapshot(objects: seq<TurnObject>): seq<Turn>
    reads objects
  {
    seq(|objects|, i requires 0 <= i < |objects| reads objects => Turn(objects[i].role, objects[i].parts))
  }

  method FilterParts(c: Content) returns (kept: seq<Part>)
    ensures kept == Kept(c, PartsOf(c))
  {
    kept := [];
    var parts, hasCall := PartsOf(c), HasCall(c);
    for k := 0 to |parts|
      invariant kept == Kept(c, parts[..k])
    {
      assert parts[..k + 1][..k] == parts[..k];
      if Survives(parts[k], hasCall) { kept := kept + [parts[k]]; }
    }
    assert parts[..|parts|] == parts;
  }

  lemma FlattenSnoc(turns: seq<Turn>, t: Turn)
    ensures Flatten(turns + [t]) == Flatten(turns) + WithRole(t.role, t.parts)
  {
    assert (turns + [t])[..|turns|] == turns;
  }

  lemma WithRoleConcat(role: string, a: seq<Part>, b: seq<Part>)
    ensures WithRole(role, a + b) == WithRole(role, a) + WithRole(role, b)
  {
  }

  lemma FlattenExtend(turns: seq<Turn>, more: seq<Part>)
    requires turns != []
    ensures var n := |turns| - 1;
      Flatten(turns[n := Turn(turns[n].role, turns[n].parts + more)]) == Flatten(turns) + WithRole(turns[n].role, more)
  {
    var n := |turns| - 1;
    var init, last := turns[..n], turns[n];
    FlattenSnoc(init, last);
    FlattenSnoc(init, Turn(last.role, last.parts + more));
    WithRoleConcat(last.role, last.parts, more);
    assert turns == init + [last];
    assert turns[n := Turn(last.role, last.parts + more)] == init + [Turn(last.role, last.parts + more)];
  }

  ghost predicate Distinct(objects: seq<TurnObject>) {
    forall j, k :: 0 <= j < k < |objects| ==> objects[j] != objects[k]
  }

  lemma AlternatesExtend(turns: seq<Turn>, role: string, parts: seq<Part>)
    requires Alternates(turns) && parts != []
    ensures var n := |turns| - 1;
      if turns != [] && turns[n].role == role then Alternates(turns[n := Turn(role, turns[n].parts + parts)])
      else Alternates(turns + [Turn(role, parts)])
  {
  }

  /** The turns after one more batch of parts: they join the last turn when it has their role, or start a new one. */
  function Pushed(turns: seq<Turn>, role: string, parts: seq<Part>): seq<Turn> {
    var n := |turns| - 1;
    if turns != [] && turns[n].role == role then turns[n := Turn(role, turns[n].parts + parts)]
    else turns + [Turn(role, parts)]
  }

  lemma PushedKeeps(turns: seq<Turn>, role: string, parts: seq<Part>)
    requires Alternates(turns) && parts != []
    ensures Alternates(Pushed(turns, role, parts))
    ensures Flatten(Pushed(turns, role, parts)) == Flatten(turns) + WithRole(role, parts)
  {
    AlternatesExtend(turns, role, parts);
    if turns != [] && turns[|turns| - 1].role == role {
      FlattenExtend(turns, parts);
    } else {
      FlattenSnoc(turns, Turn(role, parts));
    }
  }

  /** The merge of the contents read so far. */
  function MergeAll(raw: seq<Content>): seq<Turn> {
    if raw == [] then []
    else
      var c := raw[|raw| - 1];
      var parts := Kept(c, PartsOf(c));
      if parts == [] then MergeAll(raw[..|raw| - 1]) else Pushed(MergeAll(raw[..|raw| - 1]), RoleOf(c), parts)
  }

  /** Only non-empty turns, neighbours of different roles, and exactly the surviving parts in order. */
  lemma {:induction false} MergeAllIs(raw: seq<Content>)
    ensures Alternates(MergeAll(raw)) && Flatten(MergeAll(raw)) == Surviving(raw)
  {
    if raw == [] {
    } else {
      var init, c := raw[..|raw| - 1], raw[|raw| - 1];
      var parts := Kept(c, PartsOf(c));
      MergeAllIs(init);
      if parts == [] {
        assert Surviving(init) + WithRole(RoleOf(c), parts) == Surviving(init);
      } else {
        PushedKeeps(MergeAll(init), RoleOf(c), parts);
      }
    }
  }

  /** One step of the merge, in place. */
  method PushTurn(contents: seq<TurnObject>, role: string, parts: seq<Part>) returns (contents': seq<TurnObject>)
    requires Distinct(contents)
    modifies contents
    ensures Distinct(contents') && Snapshot(contents') == Pushed(old(Snapshot(contents)), role, parts)
    ensures forall k :: 0 <= k < |contents'| ==> contents'[k] in contents || fresh(contents'[k])
  {
    ghost var before := Snapshot(contents);
    if contents != [] && contents[|contents| - 1].role == role {
      var last := contents[|contents| - 1];
      assert before[|before| - 1] == Turn(role, last.parts);
      last.parts := last.parts + parts;
      return contents;
    }
    var turn := new TurnObject(role, parts);
    contents' := contents + [turn];
  }

  /** The normalising loop. */
  method NormalizeContents(raw: seq<Content>) returns (contents: seq<TurnObject>)
    ensures fresh(contents) && Snapshot(contents) == MergeAll(raw)
    ensures Alternates(Snapshot(contents)) && Flatten(Snapshot(contents)) == Surviving(raw)
  {
    contents := [];
    for i := 0 to |raw|
      invariant fresh(contents) && Distinct(contents)
      invariant Snapshot(contents) == MergeAll(raw[..i])
    {
      assert raw[..i + 1][..i] == raw[..i];
      var parts := FilterParts(raw[i]);
      if parts != [] {
        contents := PushTurn(contents, RoleOf(raw[i]), parts);
      }
    }
    assert raw[..|raw|] == raw;
    MergeAllIs(raw);
  }

  /** `stripTrailingAntigravityAssistantTurn`: pops trailing model turns but never the first one. */
  method StripTrailingAssistantTurn<T>(contents: seq<T>, roleOf: T -> Option<string>) returns (kept: seq<T>)
    ensures kept <= contents && (contents != [] ==> kept != [])
    ensures forall i :: |kept| <= i < |contents| ==> roleOf(contents[i]) == Some("model")
    ensures |kept| > 1 ==> roleOf(kept[|kept| - 1]) != Some("model")
  {
    kept := contents;
    while |kept| > 1 && roleOf(kept[|kept| - 1]) == Some("model")
      invariant kept <= contents && (contents != [] ==> kept != [])
      invariant forall i :: |kept| <= i < |contents| ==> roleOf(contents[i]) == Some("model")
    {
      kept := kept[..|kept| - 1];
    }
  }

  /** Merged turns alternate, so only one trailing model turn can be popped. */
  lemma StripPopsAtMostOne(turns: seq<Turn>, kept: nat)
    requires Alternates(turns) && 1 <= kept <= |turns|
    requires forall i :: kept <= i < |turns| ==> turns[i].role == "model"
    requires kept > 1 ==> turns[kept - 1].role != "model"
    ensures kept == if |turns| > 1 && turns[|turns| - 1].role == "model" then |turns| - 1 else |turns|
  {
    assert |turns| - kept >= 2 ==> turns[|turns| - 2].role != turns[|turns| - 2 + 1].role;
  }

  /** On merged turns the strip pops at most the last one. */
  method StripMerged(contents: seq<TurnObject>) returns (kept: seq<TurnObject>)
    requires contents != [] && Alternates(Snapshot(contents))
    ensures var merged := Snapshot(contents);
      Snapshot(kept) == if |merged| > 1 && merged[|merged| - 1].role == "model" then merged[..|merged| - 1] else merged
  {
    kept := StripTrailingAssistantTurn(contents, (t: TurnObject) => Some(t.role));
    StripPopsAtMostOne(Snapshot(contents), |kept|);
  }

  /** The contents that go upstream: the merged turns, or the raw contents when no part survives. */
  datatype Upstream = Merged(turns: seq<TurnObject>) | Raw(contents: seq<Content>)

  lemma {:induction false} MergedIsEmptyWhenNothingSurvives(turns: seq<Turn>)
    requires Alternates(turns)
    ensures Flatten(turns) == [] <==> turns == []
  {
  }

  /** Raw contents need not alternate: all their trailing model entries are popped, but never the first one. */
  method StripRaw(raw: seq<Content>) returns (kept: seq<Content>)
    ensures kept <= raw && (raw != [] ==> kept != [])
    ensures forall i :: |kept| <= i < |raw| ==> raw[i].role == Some("model")
    ensures |kept| > 1 ==> kept[|kept| - 1].role != Some("model")
  {
    kept := StripTrailingAssistantTurn(raw, (c: Content) => c.role);
  }

  method TransformContents(raw: seq<Content>, isClaude: bool) returns (up: Upstream, ghost merged: seq<Turn>)
    ensures Alternates(merged) && Flatten(merged) == Surviving(raw)
    ensures up.Merged? <==> Surviving(raw) != []
    ensures up.Merged? ==>
      Snapshot(up.turns)
        == if isClaude && |merged| > 1 && merged[|merged| - 1].role == "model" then merged[..|merged| - 1] else merged
    ensures up.Raw? ==> up.contents <= raw && (!isClaude ==> up.contents == raw) && (raw != [] ==> up.contents != [])
    ensures up.Raw? && isClaude && |up.contents| > 1 ==> up.contents[|up.contents| - 1].role != Some("model")
    ensures up.Raw? ==> forall i :: |up.contents| <= i < |raw| ==> raw[i].role == Some("model")
  {
    var contents := NormalizeContents(raw);
    merged := Snapshot(contents);
    MergedIsEmptyWhenNothingSurvives(merged);
    assert |merged| == |contents|;
    if contents == [] {
      var kept := raw;
      if isClaude { kept := StripRaw(raw); }
      up := Raw(kept);
    } else {
      var kept := contents;
      if isClaude { kept := StripMerged(contents); }
      up := Merged(kept);
    }
  }

  // ----- which parts survive, and under which role -----

  /**
   A part stays unless its text is empty, it calls a function without a name or it is a thought; one with
   a signature stays only beside a call, or when the signature is the one that is to be skipped.
   */
  predicate Stays(p: Part, parts: seq<Part>) {
    && p.text != Some("") && p.call != Some("") && !p.isThought
    && (p.signature in {"", "skip_thought_signature_validator"} || exists q :: q in parts && q.call.Some?)
  }

  /** A content that holds a function response is the user's, whatever its role. */
  predicate IsRoleOf(role: string, c: Content) {
    if exists p :: p in c.parts.GetOr([]) && p.isResponse then role == "user"
    else if c.role.Some? then role == c.role.value
    else role == "user"
  }

  /** The parts at the places. */
  ghost predicate Picks(kept: seq<Part>, parts: seq<Part>, places: seq<nat>) {
    && |kept| == |places| && (forall p, q :: 0 <= p < q < |places| ==> places[p] < places[q])
    && forall p :: 0 <= p < |places| ==> places[p] < |parts| && kept[p] == parts[places[p]]
  }

  lemma PicksNext(kept: seq<Part>, all: seq<Part>, places: seq<nat>, n: nat)
    requires Picks(kept, all, places) && n < |all| && forall i :: i in places ==> i < n
    ensures Picks(kept + [all[n]], all, places + [n])
    ensures forall i :: i in places + [n] <==> i in places || i == n
  {
    forall p | 0 <= p < |places| ensures places[p] < n {
      assert places[p] in places;
    }
  }

  lemma KeptNext(c: Content, parts: seq<Part>, n: nat)
    requires n < |parts|
    ensures Kept(c, parts[..n + 1])
         == if Stays(parts[n], c.parts.GetOr([])) then Kept(c, parts[..n]) + [parts[n]] else Kept(c, parts[..n])
  {
    assert parts[..n + 1][..n] == parts[..n];
  }

  lemma KeptAt(c: Content, parts: seq<Part>) returns (places: seq<nat>)
    ensures Picks(Kept(c, parts), parts, places)
    ensures forall i :: i in places <==> 0 <= i < |parts| && Stays(parts[i], c.parts.GetOr([]))
  {
    places := [];
    for n := 0 to |parts|
      invariant Picks(Kept(c, parts[..n]), parts, places)
      invariant forall i :: i in places <==> 0 <= i < n && Stays(parts[i], c.parts.GetOr([]))
    {
      KeptNext(c, parts, n);
      if Stays(parts[n], c.parts.GetOr([])) {
        PicksNext(Kept(c, parts[..n]), parts, places, n);
        places := places + [n];
      }
    }
    assert parts[..|parts|] == parts;
  }

  /** One more content adds its parts that stay, in their order, under its role. */
  lemma SurvivingGrows(raw: seq<Content>, c: Content)
    returns (role: string, kept: seq<Part>, places: seq<nat>)
    ensures Surviving(raw + [c]) == Surviving(raw) + WithRole(role, kept)
    ensures IsRoleOf(role, c) && Picks(kept, c.parts.GetOr([]), places)
    ensures var parts := c.parts.GetOr([]); forall i :: 0 <= i < |parts| ==> (i in places <==> Stays(parts[i], parts))
  {
    role, kept := RoleOf(c), Kept(c, PartsOf(c));
    places := KeptAt(c, PartsOf(c));
    assert (raw + [c])[..|raw|] == raw;
  }

  // ----- the merge is the only one there is -----

  /** Where the last turn begins can be read off the flattened parts: it is their last run of one role. */
  ghost predicate LastRun(flat: seq<(string, Part)>, role: string, k: nat) {
    && 1 <= k <= |flat|
    && (forall i :: |flat| - k <= i < |flat| ==> flat[i].0 == role)
    && (k < |flat| ==> flat[|flat| - k - 1].0 != role)
  }

  lemma LastTurnIsLastRun(turns: seq<Turn>)
    requires Alternates(turns) && turns != []
    ensures var last := turns[|turns| - 1];
      LastRun(Flatten(turns), last.role, |last.parts|)
  {
  }

  lemma SameLastTurn(flat: seq<(string, Part)>, before: seq<(string, Part)>, t: Turn, before': seq<(string, Part)>,
                     t': Turn)
    requires flat == before + WithRole(t.role, t.parts) == before' + WithRole(t'.role, t'.parts)
    requires LastRun(flat, t.role, |t.parts|) && LastRun(flat, t'.role, |t'.parts|)
    ensures t == t' && before == before'
  {
    var k := |t.parts|;
    assert flat[|flat| - 1].0 == t.role == t'.role;
    assert k == |t'.parts|;
    assert flat[..|flat| - k] == before == before';
    forall i | 0 <= i < k ensures t.parts[i] == t'.parts[i] {
      assert flat[|flat| - k + i] == (t.role, t.parts[i]);
      assert flat[|flat| - k + i] == (t'.role, t'.parts[i]);
    }
  }

  /** Two merges of the same surviving parts are the same list of turns. */
  lemma {:induction false} MergeIsUnique(turns: seq<Turn>, other: seq<Turn>)
    requires Alternates(turns) && Alternates(other) && Flatten(turns) == Flatten(other)
    ensures turns == other
    decreases |turns|
  {
    MergedIsEmptyWhenNothingSurvives(turns);
    MergedIsEmptyWhenNothingSurvives(other);
    if turns == [] {
    } else {
      var n, m := |turns| - 1, |other| - 1;
      LastTurnIsLastRun(turns);
      LastTurnIsLastRun(other);
      SameLastTurn(Flatten(turns), Flatten(turns[..n]), turns[n], Flatten(other[..m]), other[m]);
      MergeIsUnique(turns[..n], other[..m]);
      assert turns == turns[..n] + [turns[n]] && other == other[..m] + [other[m]];
    }
  }
}
