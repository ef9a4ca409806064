/** Removal of unsupported schema keys from tool declarations (open-sse/config/toolCloaking.ts). */
module ToolCloaking {
  import opened JsText
  import opened JsObject

  /** A parsed JSON value; an atom is a string, a number, a truth value or null. */
  datatype Json = Atom(text: string) | List(items: seq<Json>) | Object(fields: Fields<Json>)

  const ENUM_DESCRIPTIONS := "enumDescriptions"

  /** An object has every key once. */
  ghost predicate WellFormed(j: Json) {
    match j
    case Atom(_) => true
    case List(items) => forall i :: 0 <= i < |items| ==> WellFormed(items[i])
    case Object(fields) => DistinctKeys(fields) && forall i :: 0 <= i < |fields| ==> WellFormed(fields[i].1)
  }

  // ----- stripping a key at every depth -----

  /** The fields with other keys, in their order. */
  function Omit(banned: string, fields: Fields<Json>): Fields<Json> {
    if fields == [] then []
    else
      var n := |fields| - 1;
      Omit(banned, fields[..n]) + if fields[n].0 == banned then [] else [fields[n]]
  }

  function Strip(banned: string, j: Json): Json
    decreases j
  {
    match j
    case Atom(_) => j
    case List(items) => List(seq(|items|, i requires 0 <= i < |items| => Strip(banned, items[i])))
    case Object(fields) =>
      Object(Omit(banned, seq(|fields|, i requires 0 <= i < |fields| => (fields[i].0, Strip(banned, fields[i].1)))))
  }

  /** The fields of a stripped object. */
  function StripFields(banned: string, fields: Fields<Json>): Fields<Json> {
    Strip(banned, Object(fields)).fields
  }

  lemma StripFieldsSnoc(banned: string, fields: Fields<Json>, n: nat)
    requires n < |fields|
    ensures StripFields(banned, fields[..n + 1]) == StripFields(banned, fields[..n])
      + if fields[n].0 == banned then [] else [(fields[n].0, Strip(banned, fields[n].1))]
  {
    var all := fields[..n + 1];
    var mapped := seq(n + 1, i requires 0 <= i < n + 1 => (all[i].0, Strip(banned, all[i].1)));
    assert mapped[..n] == seq(n, i requires 0 <= i < n => (fields[..n][i].0, Strip(banned, fields[..n][i].1)));
  }

  /** The key occurs somewhere in the tree. */
  ghost predicate Mentions(banned: string, j: Json) {
    match j
    case Atom(_) => false
    case List(items) => exists i :: 0 <= i < |items| && Mentions(banned, items[i])
    case Object(fields) => exists i :: 0 <= i < |fields| && (fields[i].0 == banned || Mentions(banned, fields[i].1))
  }

  method StripEnumDescriptions(schema: Json) returns (r: Json)
    requires WellFormed(schema)
    ensures r == Strip(ENUM_DESCRIPTIONS, schema)
    decreases schema
  {
    match schema
    case Atom(_) => r := schema;
    case List(items) =>
      var mapped := [];
      for i := 0 to |items|
        invariant |mapped| == i && forall k :: 0 <= k < i ==> mapped[k] == Strip(ENUM_DESCRIPTIONS, items[k])
      {
        var entry := StripEnumDescriptions(items[i]);
        mapped := mapped + [entry];
      }
      r := List(mapped);
      assert r.items == Strip(ENUM_DESCRIPTIONS, schema).items;
    case Object(fields) =>
      var result: Fields<Json> := [];
      for i := 0 to |fields|
        invariant result == StripFields(ENUM_DESCRIPTIONS, fields[..i])
        invariant forall k :: 0 <= k < |result| ==> exists l :: 0 <= l < i && fields[l].0 == result[k].0
      {
        StripFieldsSnoc(ENUM_DESCRIPTIONS, fields, i);
        var key, value := fields[i].0, fields[i].1;
        if key != ENUM_DESCRIPTIONS {
          var stripped := StripEnumDescriptions(value);
          PutNew(result, key, stripped);
          result := Put(result, key, stripped);
        }
      }
      assert fields[..|fields|] == fields;
      r := Object(result);
  }

  // ----- what stripping does -----

  lemma {:induction false} StripFieldsHas(banned: string, fields: Fields<Json>, k: nat) returns (i: nat)
    requires k < |StripFields(banned, fields)|
    ensures i < |fields| && fields[i].0 != banned
        && StripFields(banned, fields)[k] == (fields[i].0, Strip(banned, fields[i].1))
    decreases |fields|
  {
    var n := |fields| - 1;
    StripFieldsSnoc(banned, fields, n);
    assert fields[..n + 1] == fields;
    if k < |StripFields(banned, fields[..n])| {
      i := StripFieldsHas(banned, fields[..n], k);
    } else {
      i := n;
    }
  }

  /** Nothing of the key is left at any depth. */
  lemma {:induction false} StrippedMentionsNothing(banned: string, j: Json)
    ensures !Mentions(banned, Strip(banned, j))
    decreases j
  {
    match j
    case Atom(_) =>
    case List(items) =>
      forall i | 0 <= i < |items| ensures !Mentions(banned, Strip(banned, j).items[i]) {
        StrippedMentionsNothing(banned, items[i]);
      }
    case Object(fields) =>
      var r := StripFields(banned, fields);
      forall k | 0 <= k < |r| ensures r[k].0 != banned && !Mentions(banned, r[k].1) {
        var i := StripFieldsHas(banned, fields, k);
        StrippedMentionsNothing(banned, fields[i].1);
      }
  }

  lemma {:induction false} FieldsWithoutAreKept(banned: string, fields: Fields<Json>)
    requires forall i :: 0 <= i < |fields| ==> fields[i].0 != banned && Strip(banned, fields[i].1) == fields[i].1
    ensures StripFields(banned, fields) == fields
  {
    if fields == [] {
    } else {
      var n := |fields| - 1;
      FieldsWithoutAreKept(banned, fields[..n]);
      StripFieldsSnoc(banned, fields, n);
      assert fields[..n + 1] == fields;
    }
  }

  lemma {:induction false} WithoutIsKept(banned: string, j: Json)
    requires !Mentions(banned, j)
    ensures Strip(banned, j) == j
    decreases j
  {
    match j
    case Atom(_) =>
    case List(items) =>
      forall i | 0 <= i < |items| ensures Strip(banned, items[i]) == items[i] {
        WithoutIsKept(banned, items[i]);
      }
      assert Strip(banned, j).items == items;
    case Object(fields) =>
      forall i | 0 <= i < |fields| ensures Strip(banned, fields[i].1) == fields[i].1 {
        WithoutIsKept(banned, fields[i].1);
      }
      FieldsWithoutAreKept(banned, fields);
  }

  /** Exactly the trees without the key are left alone; so stripping twice is stripping once. */
  lemma UnchangedExactly(banned: string, j: Json)
    ensures Strip(banned, j) == j <==> !Mentions(banned, j)
    ensures Strip(banned, Strip(banned, j)) == Strip(banned, j)
  {
    StrippedMentionsNothing(banned, j);
    WithoutIsKept(banned, Strip(banned, j));
    if !Mentions(banned, j) { WithoutIsKept(banned, j); }
  }

  // ----- what can be read afterwards -----

  datatype Step = Key(key: string) | At(index: nat)

  /** The value a path leads to. */
  function Lookup(j: Json, path: seq<Step>): Option<Json>
    decreases |path|
  {
    if path == [] then Some(j)
    else match path[0]
      case Key(key) =>
        if j.Object? && Get(j.fields, key).Some? then Lookup(Get(j.fields, key).value, path[1..]) else None
      case At(index) =>
        if j.List? && index < |j.items| then Lookup(j.items[index], path[1..]) else None
  }

  lemma GetSnoc(fields: Fields<Json>, last: (string, Json), key: string)
    ensures Get(fields + [last], key) == if last.0 == key then Some(last.1) else Get(fields, key)
  {
    assert (fields + [last])[..|fields|] == fields;
  }

  lemma {:induction false} StripFieldsGet(banned: string, fields: Fields<Json>, key: string)
    ensures var got := Get(fields, key);
      Get(StripFields(banned, fields), key)
      == if key == banned || got.None? then None else Some(Strip(banned, got.value))
  {
    if fields == [] {
      assert |StripFields(banned, fields)| == 0;
    } else {
      var n := |fields| - 1;
      var init, last := fields[..n], fields[n];
      StripFieldsGet(banned, init, key);
      StripFieldsSnoc(banned, fields, n);
      assert fields[..n + 1] == fields == init + [last];
      GetSnoc(init, last, key);
      GetSnoc(StripFields(banned, init), (last.0, Strip(banned, last.1)), key);
      if last.0 == banned {
        assert StripFields(banned, fields) == StripFields(banned, init);
      } else {
        assert StripFields(banned, fields) == StripFields(banned, init) + [(last.0, Strip(banned, last.1))];
      }
    }
  }

  /** Every path leads to what it led to, stripped, unless it goes through the key; then it leads nowhere. */
  lemma {:induction false} StripLookup(banned: string, j: Json, path: seq<Step>)
    ensures var was := Lookup(j, path);
      Lookup(Strip(banned, j), path)
      == if Key(banned) in path || was.None? then None else Some(Strip(banned, was.value))
    decreases |path|
  {
    if path == [] {
    } else {
      assert path == [path[0]] + path[1..];
      match path[0]
      case Key(key) =>
        if j.Object? {
          StripFieldsGet(banned, j.fields, key);
          if Get(j.fields, key).Some? { StripLookup(banned, Get(j.fields, key).value, path[1..]); }
        }
      case At(index) =>
        if j.List? && index < |j.items| { StripLookup(banned, j.items[index], path[1..]); }
    }
  }

  function Without(banned: string, names: seq<string>): seq<string> {
    if names == [] then []
    else Without(banned, names[..|names| - 1]) + if names[|names| - 1] == banned then [] else [names[|names| - 1]]
  }

  /** The other keys stay, in their order. */
  lemma {:induction false} StrippedKeys(banned: string, fields: Fields<Json>)
    ensures Keys(StripFields(banned, fields)) == Without(banned, Keys(fields))
  {
    if fields == [] {
    } else {
      var n := |fields| - 1;
      StrippedKeys(banned, fields[..n]);
      StripFieldsSnoc(banned, fields, n);
      assert fields[..n + 1] == fields;
      assert Keys(fields)[..n] == Keys(fields[..n]);
    }
  }

  // ----- the payload -----

  /** One level of the way from a request body to a parameter schema. */
  datatype Level = Under(key: string) | Each

  const REQUEST := "request"
  const TOOLS := "tools"
  const DECLARATIONS := "functionDeclarations"
  const PARAMETERS := "parameters"

  const DECLARATION_WAY := [Under(PARAMETERS)]
  const TOOL_WAY := [Under(DECLARATIONS), Each] + DECLARATION_WAY
  const BODY_WAY := [Under(REQUEST), Under(TOOLS), Each] + TOOL_WAY

  /** The tree with everything at the end of the way stripped; where the way is missing, nothing happens. */
  function Rewrite(banned: string, way: seq<Level>, j: Json): Json
    decreases |way|
  {
    if way == [] then Strip(banned, j)
    else match way[0]
      case Under(key) =>
        if j.Object? && Get(j.fields, key).Some?
        then Object(Put(j.fields, key, Rewrite(banned, way[1..], Get(j.fields, key).value))) else j
      case Each =>
        if j.List? then List(seq(|j.items|, i requires 0 <= i < |j.items| => Rewrite(banned, way[1..], j.items[i])))
        else j
  }

  predicate Fits(level: Level, step: Step) {
    match level
    case Under(key) => step == Key(key)
    case Each => step.At?
  }

  /** The steps taken so far follow the way. */
  predicate Follows(way: seq<Level>, path: seq<Step>) {
    forall i :: 0 <= i < |way| && i < |path| ==> Fits(way[i], path[i])
  }

  /** The same kind of value, with the same keys or the same number of items. */
  predicate SameShape(a: Json, b: Json) {
    match a
    case Atom(_) => b == a
    case List(items) => b.List? && |b.items| == |items|
    case Object(fields) => b.Object? && Keys(b.fields) == Keys(fields)
  }

  lemma {:induction false} FindByKeys(a: Fields<Json>, b: Fields<Json>, key: string)
    requires |a| == |b| && forall i :: 0 <= i < |a| ==> a[i].0 == b[i].0
    ensures Find(a, key) == Find(b, key)
  {
    if a != [] { FindByKeys(a[..|a| - 1], b[..|b| - 1], key); }
  }

  lemma PutPresent(fields: Fields<Json>, key: string, value: Json, other: string)
    requires Get(fields, key).Some?
    ensures Keys(Put(fields, key, value)) == Keys(fields)
    ensures Get(Put(fields, key, value), other) == if other == key then Some(value) else Get(fields, other)
  {
    FindByKeys(fields, Put(fields, key, value), other);
  }

  lemma FollowsTail(way: seq<Level>, path: seq<Step>)
    requires way != [] && path != []
    ensures Follows(way, path) <==> Fits(way[0], path[0]) && Follows(way[1..], path[1..])
    ensures |path| >= |way| ==> path[|way|..] == path[1..][|way[1..]|..]
  {
    if Fits(way[0], path[0]) && Follows(way[1..], path[1..]) {
      forall i | 0 <= i < |way| && i < |path| ensures Fits(way[i], path[i]) {
        if i > 0 { assert Fits(way[1..][i - 1], path[1..][i - 1]); }
      }
    }
  }

  /**
   What every path leads to afterwards: at or below the end of the way, what stripping leaves;
   on the way there, a value of the same shape; anywhere else, the same value.
   */
  lemma {:induction false} RewriteLookup(banned: string, way: seq<Level>, j: Json, path: seq<Step>)
    ensures var was, now := Lookup(j, path), Lookup(Rewrite(banned, way, j), path);
      if !Follows(way, path) then now == was
      else if |path| < |way| then now.Some? == was.Some? && (was.Some? ==> SameShape(was.value, now.value))
      else now == if Key(banned) in path[|way|..] || was.None? then None else Some(Strip(banned, was.value))
    decreases |way|
  {
    if way == [] {
      StripLookup(banned, j, path);
      assert path[0..] == path;
    } else if path == [] {
      if way[0].Under? && j.Object? && Get(j.fields, way[0].key).Some? {
        PutPresent(j.fields, way[0].key, Rewrite(banned, way[1..], Get(j.fields, way[0].key).value), way[0].key);
      }
    } else {
      FollowsTail(way, path);
      if path[0].Key? && way[0].Under? && j.Object? && Get(j.fields, way[0].key).Some? {
        var v := Get(j.fields, way[0].key).value;
        PutPresent(j.fields, way[0].key, Rewrite(banned, way[1..], v), path[0].key);
        RewriteLookup(banned, way[1..], v, path[1..]);
      } else if path[0].At? && way[0].Each? && j.List? && path[0].index < |j.items| {
        RewriteLookup(banned, way[1..], j.items[path[0].index], path[1..]);
      }
    }
  }

  /** The steps from a request body to the parameters of a function declaration, as far as the path goes. */
  predicate IsOnTheWay(path: seq<Step>) {
    && (|path| > 0 ==> path[0] == Key("request")) && (|path| > 1 ==> path[1] == Key("tools"))
    && (|path| > 2 ==> path[2].At?) && (|path| > 3 ==> path[3] == Key("functionDeclarations"))
    && (|path| > 4 ==> path[4].At?) && (|path| > 5 ==> path[5] == Key("parameters"))
  }

  lemma OnTheWayExactly(path: seq<Step>)
    ensures Follows(BODY_WAY, path) <==> IsOnTheWay(path)
    ensures |BODY_WAY| == 6
  {
    var way := BODY_WAY;
    assert way == [Under(REQUEST), Under(TOOLS), Each, Under(DECLARATIONS), Each, Under(PARAMETERS)];
    if IsOnTheWay(path) {
      forall i | 0 <= i < |way| && i < |path| ensures Fits(way[i], path[i]) {
      }
    }
    if Follows(way, path) {
      assert forall i :: 0 <= i < 6 && i < |path| ==> Fits(way[i], path[i]);
    }
  }

  /**
   What every path of a request body leads to in the payload: in the parameters of a function declaration, what
   it led to without `enumDescriptions`, and nothing behind such a key; on the way there, a value of the same
   shape; anywhere else, what it led to.
   */
  lemma PayloadLookup(body: Json, path: seq<Step>)
    ensures var was, now := Lookup(body, path), Lookup(Rewrite(ENUM_DESCRIPTIONS, BODY_WAY, body), path);
      if !IsOnTheWay(path) then now == was
      else if |path| < 6 then now.Some? == was.Some? && (was.Some? ==> SameShape(was.value, now.value))
      else if Key("enumDescriptions") in path[6..] || was.None? then now.None?
      else now == Some(Strip("enumDescriptions", was.value))
  {
    OnTheWayExactly(path);
    RewriteLookup(ENUM_DESCRIPTIONS, BODY_WAY, body, path);
  }

  // ----- the operation -----

  function RewriteAll(banned: string, way: seq<Level>, items: seq<Json>): seq<Json> {
    seq(|items|, i requires 0 <= i < |items| => Rewrite(banned, way, items[i]))
  }

  /** Putting back the value a field has changes nothing, so nothing needs to be rebuilt then. */
  lemma RewriteUnder(banned: string, key: string, way: seq<Level>, j: Json)
    requires j.Object? && Get(j.fields, key).Some?
    ensures var v := Get(j.fields, key).value;
      var r := Rewrite(banned, [Under(key)] + way, j);
      && r == Object(Put(j.fields, key, Rewrite(banned, way, v)))
      && (Rewrite(banned, way, v) == v ==> r == j)
  {
    assert ([Under(key)] + way)[1..] == way;
  }

  lemma RewriteEach(banned: string, way: seq<Level>, items: seq<Json>)
    ensures Rewrite(banned, [Each] + way, List(items)) == List(RewriteAll(banned, way, items))
  {
    assert ([Each] + way)[1..] == way;
  }

  /** `tool.functionDeclarations.map(…)` with its flag. */
  method SanitizeDeclarations(items: seq<Json>) returns (mapped: seq<Json>, changed: bool)
    requires forall i :: 0 <= i < |items| ==> WellFormed(items[i])
    ensures mapped == RewriteAll(ENUM_DESCRIPTIONS, DECLARATION_WAY, items)
    ensures !changed ==> mapped == items
  {
    mapped, changed := [], false;
    for i := 0 to |items|
      invariant mapped == RewriteAll(ENUM_DESCRIPTIONS, DECLARATION_WAY, items[..i])
      invariant !changed ==> mapped == items[..i]
    {
      var declaration := items[i];
      var entry := declaration;
      if declaration.Object? && Get(declaration.fields, PARAMETERS).Some? {
        changed := true;
        RewriteUnder(ENUM_DESCRIPTIONS, PARAMETERS, [], declaration);
        var stripped := StripEnumDescriptions(Get(declaration.fields, PARAMETERS).value);
        entry := Object(Put(declaration.fields, PARAMETERS, stripped));
      }
      assert entry == Rewrite(ENUM_DESCRIPTIONS, DECLARATION_WAY, declaration)
          by { assert [Under(PARAMETERS)] + [] == DECLARATION_WAY; }
      mapped := mapped + [entry];
    }
  }

  method SanitizeTool(tool: Json) returns (r: Json, changed: bool)
    requires WellFormed(tool)
    ensures r == Rewrite(ENUM_DESCRIPTIONS, TOOL_WAY, tool)
    ensures !changed ==> r == tool
  {
    r, changed := tool, false;
    if tool.Object? && Get(tool.fields, DECLARATIONS).Some? {
      var value := Get(tool.fields, DECLARATIONS).value;
      var inner := [Each] + DECLARATION_WAY;
      RewriteUnder(ENUM_DESCRIPTIONS, DECLARATIONS, inner, tool);
      assert [Under(DECLARATIONS)] + inner == TOOL_WAY;
      if value.List? {
        RewriteEach(ENUM_DESCRIPTIONS, DECLARATION_WAY, value.items);
        var declarations, declarationsChanged := SanitizeDeclarations(value.items);
        if declarationsChanged {
          r, changed := Object(Put(tool.fields, DECLARATIONS, List(declarations))), true;
        }
      }
    }
  }

  method SanitizeTools(items: seq<Json>) returns (mapped: seq<Json>, changed: bool)
    requires forall i :: 0 <= i < |items| ==> WellFormed(items[i])
    ensures mapped == RewriteAll(ENUM_DESCRIPTIONS, TOOL_WAY, items)
    ensures !changed ==> mapped == items
  {
    mapped, changed := [], false;
    for i := 0 to |items|
      invariant mapped == RewriteAll(ENUM_DESCRIPTIONS, TOOL_WAY, items[..i])
      invariant !changed ==> mapped == items[..i]
    {
      var tool, toolChanged := SanitizeTool(items[i]);
      changed := changed || toolChanged;
      mapped := mapped + [tool];
    }
  }

  /** The flags only save rebuilding: the result is the rewritten tree in every case. */
  method SanitizeAntigravityToolPayload(body: Json) returns (r: Json)
    requires body.Object? && WellFormed(body)
    ensures r == Rewrite(ENUM_DESCRIPTIONS, BODY_WAY, body)
  {
    if Get(body.fields, REQUEST).None? { return body; }
    var request := Get(body.fields, REQUEST).value;
    var below := [Under(TOOLS), Each] + TOOL_WAY;
    RewriteUnder(ENUM_DESCRIPTIONS, REQUEST, below, body);
    assert [Under(REQUEST)] + below == BODY_WAY;
    if !request.Object? || Get(request.fields, TOOLS).None? { return body; }
    var tools := Get(request.fields, TOOLS).value;
    RewriteUnder(ENUM_DESCRIPTIONS, TOOLS, [Each] + TOOL_WAY, request);
    assert [Under(TOOLS)] + ([Each] + TOOL_WAY) == below;
    if !tools.List? { return body; }
    assert WellFormed(request) && WellFormed(tools);
    RewriteEach(ENUM_DESCRIPTIONS, TOOL_WAY, tools.items);
    var mapped, changed := SanitizeTools(tools.items);
    if !changed { return body; }
    r := Object(Put(body.fields, REQUEST, Object(Put(request.fields, TOOLS, List(mapped)))));
  }
}
