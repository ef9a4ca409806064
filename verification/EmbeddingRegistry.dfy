/**
 Listing, parsing and dimension lookup of embedding models
 (open-sse/config/embeddingRegistry.ts) over an arbitrary registry and alias table;
 the rerank parser (open-sse/config/rerankRegistry.ts) has the same shape.
 */
module EmbeddingRegistry {
  import opened JsText

  datatype Model = Model(id: string, name: string, dimensions: Option<nat>)
  datatype Provider = Provider(id: string, models: seq<Model>)

  /** The providers in the order of the object's keys, and the provider aliases. */
  datatype Registry = Registry(providers: seq<Provider>, aliases: map<string, string>)

  datatype Parse = Parse(provider: Option<string>, model: Option<string>)

  function Resolve(r: Registry, id: string): string {
    if id in r.aliases && r.aliases[id] != "" then r.aliases[id] else id
  }

  /** The position of the provider, or the number of providers. */
  function FindProvider(providers: seq<Provider>, id: string): (i: nat)
    ensures i <= |providers| && (i < |providers| ==> providers[i].id == id)
    ensures i == |providers| ==> forall k :: 0 <= k < |providers| ==> providers[k].id != id
  {
    if providers == [] then 0
    else if providers[0].id == id then 0
    else 1 + FindProvider(providers[1..], id)
  }

  function FindModel(models: seq<Model>, id: string): (i: nat)
    ensures i <= |models| && (i < |models| ==> models[i].id == id)
    ensures forall k :: 0 <= k < i ==> models[k].id != id
  {
    if models == [] then 0
    else if models[0].id == id then 0
    else 1 + FindModel(models[1..], id)
  }

  predicate Holds(models: seq<Model>, id: string) { FindModel(models, id) < |models| }

  function Normalize(r: Registry, providerId: string, modelId: string): string {
    var resolved := Resolve(r, providerId);
    var i := FindProvider(r.providers, resolved);
    if i < |r.providers| && Holds(r.providers[i].models, modelId) then modelId
    else if i < |r.providers| && Holds(r.providers[i].models, resolved + "/" + modelId) then resolved + "/" + modelId
    else if StartsWith(modelId, providerId + "/") then modelId[|providerId| + 1..]
    else modelId
  }

  /** The id under which the lister prints a model. */
  function ToScoped(providerId: string, modelId: string): string {
    if StartsWith(modelId, providerId + "/") then modelId else providerId + "/" + modelId
  }

  function FirstPrefix(ids: seq<string>, s: string): (i: nat)
    ensures i <= |ids| && (i < |ids| ==> StartsWith(s, ids[i] + "/"))
  {
    if ids == [] then 0 else if StartsWith(s, ids[0] + "/") then 0 else 1 + FirstPrefix(ids[1..], s)
  }

  function Ids(providers: seq<Provider>): (ids: seq<string>)
    ensures |ids| == |providers|
  {
    seq(|providers|, i requires 0 <= i < |providers| => providers[i].id)
  }

  function FirstHolder(providers: seq<Provider>, model: string): Option<string> {
    if providers == [] then None
    else if Holds(providers[0].models, model) then Some(providers[0].id)
    else FirstHolder(providers[1..], model)
  }

  function Bare(r: Registry, s: string): Parse {
    var holder := FirstHolder(r.providers, s);
    if holder.Some? then Parse(holder, Some(s)) else Parse(None, Some(s))
  }

  /** `parseEmbeddingModel`; `dynamic` are the ids of the dynamic providers. */
  function ParseEmbedding(r: Registry, dynamic: seq<string>, s: string): Parse {
    if s == "" then Parse(None, None)
    else
      var slash := IndexOf(s, '/');
      if 0 < slash < |s| then
        var resolved := Resolve(r, s[..slash]);
        var k := FirstPrefix(Ids(r.providers), s);
        var d := FirstPrefix(dynamic, s);
        if FindProvider(r.providers, resolved) < |r.providers| then
          Parse(Some(resolved), Some(Normalize(r, resolved, s[slash + 1..])))
        else if k < |r.providers| then
          var id := Ids(r.providers)[k];
          Parse(Some(id), Some(Normalize(r, id, s[|id| + 1..])))
        else if d < |dynamic| then
          Parse(Some(dynamic[d]), Some(s[|dynamic[d]| + 1..]))
        else Parse(Some(s[..slash]), Some(s[slash + 1..]))
      else Bare(r, s)
  }

  /** `parseRerankModel`: no dynamic providers, and a bare lookup for what has no known prefix. */
  function ParseRerank(r: Registry, s: string): Parse {
    if s == "" then Parse(None, None)
    else
      var slash := IndexOf(s, '/');
      var k := FirstPrefix(Ids(r.providers), s);
      if 0 < slash < |s| && FindProvider(r.providers, Resolve(r, s[..slash])) < |r.providers| then
        var resolved := Resolve(r, s[..slash]);
        Parse(Some(resolved), Some(Normalize(r, resolved, s[slash + 1..])))
      else if k < |r.providers| then
        var id := Ids(r.providers)[k];
        Parse(Some(id), Some(Normalize(r, id, s[|id| + 1..])))
      else Bare(r, s)
  }

  // ----- listing -----

  datatype Listed = Listed(id: string, name: string, provider: string, dimensions: Option<nat>)

  function EntryOf(p: Provider, m: Model): Listed {
    Listed(ToScoped(p.id, m.id), m.name, p.id, m.dimensions)
  }

  function ModelEntries(p: Provider, models: seq<Model>): seq<Listed> {
    if models == [] then []
    else
      var m := models[|models| - 1];
      ModelEntries(p, models[..|models| - 1]) + [EntryOf(p, m)]
  }

  function AllEntries(providers: seq<Provider>): seq<Listed> {
    if providers == [] then []
    else
      var p := providers[|providers| - 1];
      AllEntries(providers[..|providers| - 1]) + ModelEntries(p, p.models)
  }

  method PushModels(models: seq<Listed>, p: Provider) returns (models': seq<Listed>)
    ensures models' == models + ModelEntries(p, p.models)
  {
    models' := models;
    for n := 0 to |p.models|
      invariant models' == models + ModelEntries(p, p.models[..n])
    {
      assert p.models[..n + 1][..n] == p.models[..n];
      models' := models' + [EntryOf(p, p.models[n])];
    }
    assert p.models[..|p.models|] == p.models;
  }

  method GetAllEmbeddingModels(r: Registry) returns (models: seq<Listed>)
    ensures models == AllEntries(r.providers)
  {
    models := [];
    for i := 0 to |r.providers|
      invariant models == AllEntries(r.providers[..i])
    {
      assert r.providers[..i + 1][..i] == r.providers[..i];
      models := PushModels(models, r.providers[i]);
    }
    assert r.providers[..|r.providers|] == r.providers;
  }

  lemma {:induction false} ModelEntriesAre(p: Provider, models: seq<Model>, e: Listed)
    ensures e in ModelEntries(p, models) <==> exists m :: m in models && e == EntryOf(p, m)
  {
    if models == [] {
    } else {
      var init, m := models[..|models| - 1], models[|models| - 1];
      ModelEntriesAre(p, init, e);
      assert forall y :: y in models <==> y in init || y == m;
    }
  }

  /** The listing holds the entry of every model of every provider, and nothing else. */
  lemma {:induction false} ListingIs(providers: seq<Provider>, e: Listed)
    ensures e in AllEntries(providers) <==> exists p, m :: p in providers && m in p.models && e == EntryOf(p, m)
  {
    if providers == [] {
    } else {
      var init, p := providers[..|providers| - 1], providers[|providers| - 1];
      ListingIs(init, e);
      ModelEntriesAre(p, p.models, e);
      assert forall q :: q in providers <==> q in init || q == p;
    }
  }

  /** Entries depend on a provider's own id only. */
  lemma {:induction false} ModelEntriesBy(p: Provider, q: Provider, models: seq<Model>)
    requires p.id == q.id
    ensures ModelEntries(p, models) == ModelEntries(q, models)
  {
    if models == [] {
    } else {
      ModelEntriesBy(p, q, models[..|models| - 1]);
    }
  }

  /** The entry of the last model comes last, under its id with the provider's before it, unless it has that already. */
  lemma ListingGrows(providers: seq<Provider>, p: Provider, m: Model)
    ensures AllEntries(providers + [p.(models := p.models + [m])])
         == AllEntries(providers + [p])
            + [Listed(if p.id + "/" <= m.id then m.id else p.id + "/" + m.id, m.name, p.id, m.dimensions)]
    ensures AllEntries(providers + [p.(models := [])]) == AllEntries(providers)
  {
    var longer := p.(models := p.models + [m]);
    assert (providers + [longer])[..|providers|] == providers && (providers + [p])[..|providers|] == providers;
    assert (providers + [p.(models := [])])[..|providers|] == providers;
    assert (p.models + [m])[..|p.models|] == p.models;
    ModelEntriesBy(p, longer, p.models);
  }

  // ----- exactly when parsing undoes listing -----

  /** Provider ids are distinct keys without slashes, not empty, and not aliases of something else. */
  ghost predicate PlainIds(r: Registry) {
    && (forall i, j :: 0 <= i < j < |r.providers| ==> r.providers[i].id != r.providers[j].id)
    && (forall p :: p in r.providers ==> p.id != "" && '/' !in p.id && Resolve(r, p.id) == p.id)
  }

  /** The provider holds both `m` and `provider/m`; `modelId` is the latter. */
  predicate IsTwin(p: Provider, modelId: string) {
    StartsWith(modelId, p.id + "/") && Holds(p.models, modelId[|p.id| + 1..])
  }

  lemma ScopedSplits(p: Provider, modelId: string)
    requires p.id != "" && '/' !in p.id
    ensures var s := ToScoped(p.id, modelId); var slash := IndexOf(s, '/');
      && s != "" && slash == |p.id| && 0 < slash < |s| && s[..slash] == p.id
      && s[slash + 1..] == if StartsWith(modelId, p.id + "/") then modelId[|p.id| + 1..] else modelId
  {
    var s := ToScoped(p.id, modelId);
    var rest := if StartsWith(modelId, p.id + "/") then modelId[|p.id| + 1..] else modelId;
    assert s == p.id + ['/'] + rest;
    IndexOfSplit(p.id, '/', rest);
  }

  lemma FoundProvider(r: Registry, p: Provider)
    requires PlainIds(r) && p in r.providers
    ensures FindProvider(r.providers, p.id) < |r.providers| && r.providers[FindProvider(r.providers, p.id)] == p
  {
  }

  lemma HeldModel(models: seq<Model>, m: Model)
    requires m in models
    ensures Holds(models, m.id)
  {
  }

  /** A listed model parses back to its provider and its own id exactly when it is no twin. */
  lemma ListedParsesExactly(r: Registry, dynamic: seq<string>, p: Provider, m: Model)
    requires PlainIds(r) && p in r.providers && m in p.models
    ensures var s := ToScoped(p.id, m.id);
      && ParseEmbedding(r, dynamic, s) == ParseRerank(r, s)
      && ParseEmbedding(r, dynamic, s).provider == Some(p.id)
      && (ParseEmbedding(r, dynamic, s) == Parse(Some(p.id), Some(m.id)) <==> !IsTwin(p, m.id))
  {
    var s := ToScoped(p.id, m.id);
    ScopedSplits(p, m.id);
    FoundProvider(r, p);
    HeldModel(p.models, m);
    var rest := s[|p.id| + 1..];
    if StartsWith(m.id, p.id + "/") {
      assert p.id + "/" + rest == m.id;
      assert |rest| < |m.id|;
    }
  }

  /** The entry parses, in both registries, to the provider and a model it was listed for. */
  ghost predicate ParsesBack(r: Registry, dynamic: seq<string>, e: Listed) {
    exists p, m :: p in r.providers && m in p.models && e == EntryOf(p, m)
      && ParseEmbedding(r, dynamic, e.id) == ParseRerank(r, e.id) == Parse(Some(p.id), Some(m.id))
  }

  /** Every listed id parses back to the very model it is listed for, unless a provider holds `m` and `provider/m`. */
  lemma RoundTripExactly(r: Registry, dynamic: seq<string>)
    requires PlainIds(r)
    ensures (forall p, m :: p in r.providers && m in p.models ==>
               ParseEmbedding(r, dynamic, EntryOf(p, m).id) == Parse(Some(p.id), Some(m.id)))
        <==> (forall p, m :: p in r.providers && m in p.models ==> !IsTwin(p, m.id))
  {
    forall p, m | p in r.providers && m in p.models
      ensures ParseEmbedding(r, dynamic, EntryOf(p, m).id) == Parse(Some(p.id), Some(m.id)) <==> !IsTwin(p, m.id)
    {
      ListedParsesExactly(r, dynamic, p, m);
    }
  }

  /** So without such twins the whole listing parses back. */
  lemma ListedIdsParse(r: Registry, dynamic: seq<string>, e: Listed)
    requires PlainIds(r) && e in AllEntries(r.providers)
    requires forall p, m :: p in r.providers && m in p.models ==> !IsTwin(p, m.id)
    ensures ParsesBack(r, dynamic, e)
  {
    ListingIs(r.providers, e);
    var p, m :| p in r.providers && m in p.models && e == EntryOf(p, m);
    ListedParsesExactly(r, dynamic, p, m);
  }

  // ----- what every string parses to, spelled out -----

  /** The keys of the registry are distinct. */
  ghost predicate DistinctIds(r: Registry) {
    forall i, j :: 0 <= i < j < |r.providers| ==> r.providers[i].id != r.providers[j].id
  }

  predicate Lists(p: Provider, id: string) { exists m :: m in p.models && m.id == id }

  predicate Knows(r: Registry, id: string) { exists p :: p in r.providers && p.id == id }

  /** A provider with the id holds the model. */
  predicate KnowsModel(r: Registry, id: string, modelId: string) {
    exists p :: p in r.providers && p.id == id && Lists(p, modelId)
  }

  /** The model of the provider, with the provider's id before it if it is only held that way, else without it. */
  predicate IsModelFor(r: Registry, id: string, modelId: string, model: string) {
    var resolved := Resolve(r, id);
    if KnowsModel(r, resolved, modelId) then model == modelId
    else if KnowsModel(r, resolved, resolved + "/" + modelId) then model == resolved + "/" + modelId
    else if id + "/" <= modelId then id + "/" + model == modelId
    else model == modelId
  }

  /** The first of the ids that begins the string, with a slash behind it. */
  ghost predicate IsFirstPrefix(ids: seq<string>, s: string, i: nat) {
    i < |ids| && ids[i] + "/" <= s && forall k :: 0 <= k < i ==> !(ids[k] + "/" <= s)
  }

  /** The place of that id, or the number of ids when none begins the string. */
  ghost predicate IsPrefixAt(ids: seq<string>, s: string, i: nat) {
    if i == |ids| then forall k :: 0 <= k < |ids| ==> !(ids[k] + "/" <= s) else IsFirstPrefix(ids, s, i)
  }

  /** The first provider that holds the model, or none. */
  ghost predicate HoldsFirst(providers: seq<Provider>, model: string, found: Option<string>) {
    match found
    case None => forall i :: 0 <= i < |providers| ==> !Lists(providers[i], model)
    case Some(id) =>
      exists i :: 0 <= i < |providers| && providers[i].id == id && Lists(providers[i], model)
                  && forall j :: 0 <= j < i ==> !Lists(providers[j], model)
  }

  lemma {:induction false} FirstPrefixIs(ids: seq<string>, s: string)
    ensures IsPrefixAt(ids, s, FirstPrefix(ids, s))
  {
    if ids == [] || StartsWith(s, ids[0] + "/") {
    } else {
      FirstPrefixIs(ids[1..], s);
      assert forall k :: 1 <= k < |ids| ==> ids[1..][k - 1] == ids[k];
    }
  }

  lemma HoldsExactly(p: Provider, id: string)
    ensures Holds(p.models, id) <==> Lists(p, id)
  {
    if m :| m in p.models && m.id == id {
      var k :| 0 <= k < |p.models| && p.models[k] == m;
    }
  }

  lemma {:induction false} FirstHolderIs(providers: seq<Provider>, model: string)
    ensures HoldsFirst(providers, model, FirstHolder(providers, model))
  {
    if providers == [] {
    } else {
      HoldsExactly(providers[0], model);
      FirstHolderIs(providers[1..], model);
      assert forall k :: 1 <= k < |providers| ==> providers[1..][k - 1] == providers[k];
      var found := FirstHolder(providers[1..], model);
      if found.Some? && !Holds(providers[0].models, model) {
        var i :| 0 <= i < |providers[1..]| && providers[1..][i].id == found.value && Lists(providers[1..][i], model)
                 && forall j :: 0 <= j < i ==> !Lists(providers[1..][j], model);
        assert providers[i + 1] == providers[1..][i];
      }
    }
  }

  lemma KnowsExactly(r: Registry, id: string, modelId: string)
    requires DistinctIds(r)
    ensures var i := FindProvider(r.providers, id);
      && (i < |r.providers| <==> Knows(r, id))
      && (i < |r.providers| && Holds(r.providers[i].models, modelId) <==> KnowsModel(r, id, modelId))
  {
    var i := FindProvider(r.providers, id);
    if i < |r.providers| {
      HoldsExactly(r.providers[i], modelId);
      assert forall p :: p in r.providers && p.id == id ==> p == r.providers[i];
    }
  }

  lemma NormalizeIs(r: Registry, id: string, modelId: string)
    requires DistinctIds(r)
    ensures IsModelFor(r, id, modelId, Normalize(r, id, modelId))
  {
    var resolved := Resolve(r, id);
    KnowsExactly(r, resolved, modelId);
    KnowsExactly(r, resolved, resolved + "/" + modelId);
  }

  /**
   Where a string with a slash behind its first characters leads: to the provider they name or stand for, else to
   the first provider whose id begins the string, else to the first dynamic one, else to what stands before the
   slash.
   */
  lemma PrefixedParses(r: Registry, dynamic: seq<string>, before: string, rest: string)
    returns (resolved: string, i: nat, d: nat, model: string)
    requires DistinctIds(r) && before != "" && '/' !in before
    ensures var s, ids := before + "/" + rest, Ids(r.providers);
      && resolved == (if before in r.aliases && r.aliases[before] != "" then r.aliases[before] else before)
      && IsPrefixAt(ids, s, i) && IsPrefixAt(dynamic, s, d)
      && ParseEmbedding(r, dynamic, s)
           == (if Knows(r, resolved) then Parse(Some(resolved), Some(model))
               else if i < |ids| then Parse(Some(ids[i]), Some(model))
               else if d < |dynamic| then Parse(Some(dynamic[d]), Some(s[|dynamic[d]| + 1..]))
               else Parse(Some(before), Some(rest)))
      && (Knows(r, resolved) ==> IsModelFor(r, resolved, rest, model))
      && (!Knows(r, resolved) && i < |ids| ==> IsModelFor(r, ids[i], s[|ids[i]| + 1..], model))
  {
    var s, ids := before + "/" + rest, Ids(r.providers);
    resolved, i, d := Resolve(r, before), FirstPrefix(ids, s), FirstPrefix(dynamic, s);
    IndexOfSplit(before, '/', rest);
    assert s[..|before|] == before && s[|before| + 1..] == rest;
    KnowsExactly(r, resolved, rest);
    FirstPrefixIs(ids, s);
    FirstPrefixIs(dynamic, s);
    model := "";
    if Knows(r, resolved) {
      model := Normalize(r, resolved, rest);
      NormalizeIs(r, resolved, rest);
    } else if i < |ids| {
      model := Normalize(r, ids[i], s[|ids[i]| + 1..]);
      NormalizeIs(r, ids[i], s[|ids[i]| + 1..]);
    }
  }

  /** Any other string is looked up as it is. */
  lemma BareParses(r: Registry, dynamic: seq<string>, s: string)
    requires s != "" && ('/' !in s || s[0] == '/')
    ensures var p := ParseEmbedding(r, dynamic, s); p.model == Some(s) && HoldsFirst(r.providers, s, p.provider)
    ensures ParseEmbedding(r, dynamic, "") == Parse(None, None)
  {
    FirstHolderIs(r.providers, s);
  }

  /** The rerank parser agrees where a provider is found, and otherwise looks the whole string up. */
  lemma RerankParses(r: Registry, before: string, rest: string) returns (i: nat)
    requires DistinctIds(r) && before != "" && '/' !in before
    ensures var s, ids := before + "/" + rest, Ids(r.providers);
      && IsPrefixAt(ids, s, i)
      && if Knows(r, Resolve(r, before)) || i < |ids| then ParseRerank(r, s) == ParseEmbedding(r, [], s)
         else ParseRerank(r, s).model == Some(s) && HoldsFirst(r.providers, s, ParseRerank(r, s).provider)
  {
    var s, ids := before + "/" + rest, Ids(r.providers);
    i := FirstPrefix(ids, s);
    IndexOfSplit(before, '/', rest);
    assert s[..|before|] == before;
    KnowsExactly(r, Resolve(r, before), rest);
    FirstPrefixIs(ids, s);
    FirstHolderIs(r.providers, s);
  }

  /** A string without a slash behind its first characters is looked up too, unless a provider has the empty id. */
  lemma BareReranks(r: Registry, s: string) returns (i: nat)
    requires DistinctIds(r) && s != "" && ('/' !in s || s[0] == '/')
    ensures var p, ids := ParseRerank(r, s), Ids(r.providers);
      && IsPrefixAt(ids, s, i)
      && if i < |ids| then p.provider == Some(ids[i]) && p.model.Some?
                           && IsModelFor(r, ids[i], s[|ids[i]| + 1..], p.model.value)
         else p.model == Some(s) && HoldsFirst(r.providers, s, p.provider)
    ensures ParseRerank(r, "") == Parse(None, None)
  {
    var ids := Ids(r.providers);
    i := FirstPrefix(ids, s);
    FirstPrefixIs(ids, s);
    FirstHolderIs(r.providers, s);
    if i < |ids| { NormalizeIs(r, ids[i], s[|ids[i]| + 1..]); }
  }

  // ----- dimensions -----

  function GetDimension(r: Registry, s: string): Option<nat> {
    var parsed := ParseEmbedding(r, [], s);
    if parsed.provider.GetOr("") == "" || parsed.model.GetOr("") == "" then None
    else
      var i := FindProvider(r.providers, Resolve(r, parsed.provider.value));
      if i == |r.providers| then None
      else
        var k := FindModel(r.providers[i].models, parsed.model.value);
        if k < |r.providers[i].models| then r.providers[i].models[k].dimensions else None
  }

  /** So the dimension recorded for a listed model is found through its listed id. */
  lemma ListedDimensionIsFound(r: Registry, p: Provider, m: Model)
    requires PlainIds(r) && p in r.providers && m in p.models && m.id != "" && !IsTwin(p, m.id)
    requires forall i, j :: 0 <= i < j < |p.models| ==> p.models[i].id != p.models[j].id
    ensures GetDimension(r, ToScoped(p.id, m.id)) == m.dimensions
  {
    ListedParsesExactly(r, [], p, m);
    FoundProvider(r, p);
    HeldModel(p.models, m);
    var k :| 0 <= k < |p.models| && p.models[k] == m;
    var i := FindModel(p.models, m.id);
    assert i == k;
  }

  lemma AtMostOne(values: set<nat>)
    requires |values| <= 1
    ensures forall a, b :: a in values && b in values ==> a == b
  {
    forall a, b | a in values && b in values ensures a == b {
      assert |values - {a}| == |values| - 1;
    }
  }

  /** A conflict is reported exactly when two of the models have known and different dimensions. */
  method DetectDimensionConflict(r: Registry, modelStrs: seq<string>)
    returns (conflict: bool, dimensions: map<string, nat>)
    ensures forall s :: s in dimensions <==> s in modelStrs && GetDimension(r, s).Some?
    ensures forall s :: s in dimensions ==> dimensions[s] == GetDimension(r, s).value
    ensures conflict <==> exists s, t :: s in dimensions && t in dimensions && dimensions[s] != dimensions[t]
  {
    dimensions := map[];
    for i := 0 to |modelStrs|
      invariant forall s :: s in dimensions <==> s in modelStrs[..i] && GetDimension(r, s).Some?
      invariant forall s :: s in dimensions ==> dimensions[s] == GetDimension(r, s).value
    {
      assert modelStrs[..i + 1] == modelStrs[..i] + [modelStrs[i]];
      var dim := GetDimension(r, modelStrs[i]);
      if dim.Some? { dimensions := dimensions[modelStrs[i] := dim.value]; }
    }
    assert modelStrs[..|modelStrs|] == modelStrs;
    var distinct := dimensions.Values;
    conflict := |distinct| > 1;
    if conflict {
      var a :| a in distinct;
      assert |distinct - {a}| == |distinct| - 1;
      var b :| b in distinct - {a};
      var s :| s in dimensions && dimensions[s] == a;
      var t :| t in dimensions && dimensions[t] == b;
    } else {
      AtMostOne(distinct);
      assert forall s :: s in dimensions ==> dimensions[s] in distinct;
    }
  }
}
