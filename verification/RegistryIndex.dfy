/**
 The shared registry helpers (open-sse/config/registryUtils.ts) and the linear-scan
 parser they replace (open-sse/config/audioRegistry.ts), over arbitrary registries.
 */
module RegistryIndex {
  import opened JsText

  datatype Model = Model(id: string, name: string)

  /**
   A provider under its key; an empty alias is an absent one. `extra` stands for the extra
   fields the caller of the lister asks for.
   */
  datatype Provider = Provider(id: string, alias: string, models: seq<Model>, extra: string)

  predicate Holds(models: seq<Model>, id: string) { exists m :: m in models && m.id == id }

  lemma HoldsSnoc(models: seq<Model>, m: Model, id: string)
    ensures Holds(models + [m], id) <==> Holds(models, id) || m.id == id
  {
    assert m in models + [m];
    assert forall x :: x in models + [m] <==> x in models || x == m;
  }

  /** What a parser answers: a provider or none, and a model or none. */
  datatype Parse = Parse(provider: Option<string>, model: Option<string>)

  /** The keys of an object are distinct. */
  ghost predicate DistinctIds(providers: seq<Provider>) {
    forall i, j :: 0 <= i < j < |providers| ==> providers[i].id != providers[j].id
  }

  /** The earlier holder if there is one, else the provider when it lists the model. */
  function OrHolds(prior: Option<string>, p: Provider, models: seq<Model>, model: string): Option<string> {
    if prior.Some? then prior else if Holds(models, model) then Some(p.id) else None
  }

  /** The linear scan: the first provider that lists the model. */
  function FirstHolder(providers: seq<Provider>, model: string): Option<string> {
    if providers == [] then None
    else
      var p := providers[|providers| - 1];
      OrHolds(FirstHolder(providers[..|providers| - 1], model), p, p.models, model)
  }

  /** The id of the first provider that holds the model, or none when no provider does. */
  ghost predicate NamesFirst(providers: seq<Provider>, model: string, holder: Option<string>) {
    match holder
    case None => forall i :: 0 <= i < |providers| ==> !Holds(providers[i].models, model)
    case Some(id) =>
      exists i :: 0 <= i < |providers| && providers[i].id == id && Holds(providers[i].models, model)
                  && forall j :: 0 <= j < i ==> !Holds(providers[j].models, model)
  }

  lemma {:induction false} FirstHolderIs(providers: seq<Provider>, model: string)
    ensures NamesFirst(providers, model, FirstHolder(providers, model))
  {
    if providers == [] {
    } else {
      var n := |providers| - 1;
      FirstHolderIs(providers[..n], model);
      if FirstHolder(providers[..n], model).Some? {
        var i :| 0 <= i < n && providers[..n][i].id == FirstHolder(providers[..n], model).value
                 && Holds(providers[..n][i].models, model)
                 && forall j :: 0 <= j < i ==> !Holds(providers[..n][j].models, model);
        assert providers[i] == providers[..n][i] && forall j :: 0 <= j < i ==> providers[..n][j] == providers[j];
      } else {
        assert forall j :: 0 <= j < n ==> providers[..n][j] == providers[j];
      }
    }
  }

  // ----- the cached first-wins index -----

  /** A registry object; the cache is keyed by its identity. */
  class Registry {
    const providers: seq<Provider>

    constructor (providers: seq<Provider>)
      ensures this.providers == providers
    {
      this.providers := providers;
    }
  }

  function Get(index: map<string, string>, model: string): Option<string> {
    if model in index then Some(index[model]) else None
  }

  /** The index answers every model as the linear scan does. */
  ghost predicate Indexes(index: map<string, string>, providers: seq<Provider>) {
    forall model :: Get(index, model) == FirstHolder(providers, model)
  }

  function OwnPrefix(s: string, p: Provider): Option<Parse> {
    if StartsWith(s, p.id + "/") then Some(Parse(Some(p.id), Some(s[|p.id| + 1..])))
    else if p.alias != "" && StartsWith(s, p.alias + "/") then Some(Parse(Some(p.id), Some(s[|p.alias| + 1..])))
    else None
  }

  /** The first provider whose id or alias, with a slash, begins the string. */
  function ByPrefix(s: string, providers: seq<Provider>): Option<Parse> {
    if providers == [] then None
    else
      var prior := ByPrefix(s, providers[..|providers| - 1]);
      if prior.Some? then prior else OwnPrefix(s, providers[|providers| - 1])
  }

  function ParseWithIndex(s: string, providers: seq<Provider>): Parse {
    if s == "" then Parse(None, None)
    else if ByPrefix(s, providers).Some? then ByPrefix(s, providers).value
    else
      var holder := FirstHolder(providers, s);
      if holder.Some? && holder.value != "" then Parse(holder, Some(s)) else Parse(None, Some(s))
  }

  /** The string begins with the id or the alias of the provider and a slash. */
  predicate IsPrefixed(s: string, p: Provider) {
    StartsWith(s, p.id + "/") || (p.alias != "" && StartsWith(s, p.alias + "/"))
  }

  /** No provider is behind the string. */
  ghost predicate IsBare(s: string, providers: seq<Provider>) {
    forall i :: 0 <= i < |providers| ==> !IsPrefixed(s, providers[i])
  }

  /** Provider `i` is the first behind the string. */
  ghost predicate FirstPrefixed(s: string, providers: seq<Provider>, i: nat) {
    i < |providers| && IsPrefixed(s, providers[i]) && forall j :: 0 <= j < i ==> !IsPrefixed(s, providers[j])
  }

  /** What is behind the id and its slash, or else behind the alias. */
  function Behind(s: string, p: Provider): string
    requires IsPrefixed(s, p)
  {
    if StartsWith(s, p.id + "/") then s[|p.id| + 1..] else s[|p.alias| + 1..]
  }

  /** What the string parses to: the first provider behind it, or else the first that holds it as it is. */
  ghost predicate ParsesTo(s: string, providers: seq<Provider>, r: Parse) {
    if s == "" then r == Parse(None, None)
    else
      && (forall i: nat :: FirstPrefixed(s, providers, i) ==>
            r == Parse(Some(providers[i].id), Some(Behind(s, providers[i]))))
      && (IsBare(s, providers) ==>
            && r.model == Some(s)
            && exists holder :: NamesFirst(providers, s, holder)
                                && r.provider == if holder == Some("") then None else holder)
  }

  lemma {:induction false} ByPrefixIs(s: string, providers: seq<Provider>)
    ensures ByPrefix(s, providers).None? <==> IsBare(s, providers)
    ensures forall i: nat :: FirstPrefixed(s, providers, i) ==>
        ByPrefix(s, providers) == Some(Parse(Some(providers[i].id), Some(Behind(s, providers[i]))))
  {
    if providers == [] {
      assert forall i: nat :: !FirstPrefixed(s, providers, i);
    } else {
      var n := |providers| - 1;
      ByPrefixIs(s, providers[..n]);
      assert forall j :: 0 <= j < n ==> providers[..n][j] == providers[j];
      forall i: nat | FirstPrefixed(s, providers, i)
        ensures ByPrefix(s, providers) == Some(Parse(Some(providers[i].id), Some(Behind(s, providers[i]))))
      {
        if i < n { assert FirstPrefixed(s, providers[..n], i); }
      }
    }
  }

  /** Every string parses that way. */
  lemma ParseIs(s: string, providers: seq<Provider>)
    ensures ParsesTo(s, providers, ParseWithIndex(s, providers))
  {
    ByPrefixIs(s, providers);
    FirstHolderIs(providers, s);
  }

  lemma {:induction false} ByPrefixExtends(s: string, providers: seq<Provider>, n: nat)
    requires n <= |providers|
    ensures ByPrefix(s, providers[..n]).Some? ==> ByPrefix(s, providers) == ByPrefix(s, providers[..n])
  {
    if n < |providers| {
      ByPrefixExtends(s, providers[..|providers| - 1], n);
      assert providers[..|providers| - 1][..n] == providers[..n];
    } else {
      assert providers[..n] == providers;
    }
  }

  class IndexCache {
    var cache: map<Registry, map<string, string>>

    ghost predicate Valid()
      reads this
    {
      forall r :: r in cache ==> Indexes(cache[r], r.providers)
    }

    constructor ()
      ensures Valid()
    {
      cache := map[];
    }

    method GetRegistryModelIndex(registry: Registry) returns (index: map<string, string>)
      requires Valid()
      modifies this
      ensures Valid() && registry in cache && cache[registry] == index
      ensures Indexes(index, registry.providers)
      ensures forall model :: NamesFirst(registry.providers, model, Get(index, model))
    {
      forall model { FirstHolderIs(registry.providers, model); }
      if registry in cache {
        return cache[registry];
      }
      index := map[];
      var providers := registry.providers;
      for i := 0 to |providers|
        invariant Indexes(index, providers[..i])
        invariant cache == old(cache)
      {
        assert providers[..i + 1][..i] == providers[..i];
        index := AddModels(index, providers[..i], providers[i]);
      }
      assert providers[..|providers|] == providers;
      cache := cache[registry := index];
    }

    static method AddModels(index: map<string, string>, ghost before: seq<Provider>, p: Provider)
      returns (index': map<string, string>)
      requires Indexes(index, before)
      ensures Indexes(index', before + [p])
    {
      index' := index;
      for k := 0 to |p.models|
        invariant forall model :: Get(index', model) == OrHolds(FirstHolder(before, model), p, p.models[..k], model)
      {
        assert p.models[..k + 1] == p.models[..k] + [p.models[k]];
        forall model { HoldsSnoc(p.models[..k], p.models[k], model); }
        if p.models[k].id !in index' {
          index' := index'[p.models[k].id := p.id];
        }
      }
      assert (before + [p])[..|before|] == before && p.models[..|p.models|] == p.models;
    }

    /** `parseModelFromRegistry`; an empty provider id found in the index counts as not found. */
    method ParseModelFromRegistry(modelStr: string, registry: Registry) returns (r: Parse)
      requires Valid()
      modifies this
      ensures Valid()
      ensures r == ParseWithIndex(modelStr, registry.providers)
    {
      if modelStr == "" { return Parse(None, None); }
      var providers := registry.providers;
      for i := 0 to |providers|
        invariant cache == old(cache) && ByPrefix(modelStr, providers[..i]).None?
      {
        assert providers[..i + 1][..i] == providers[..i];
        ByPrefixExtends(modelStr, providers, i + 1);
        var p := providers[i];
        if StartsWith(modelStr, p.id + "/") {
          return Parse(Some(p.id), Some(modelStr[|p.id| + 1..]));
        }
        if p.alias != "" && StartsWith(modelStr, p.alias + "/") {
          return Parse(Some(p.id), Some(modelStr[|p.alias| + 1..]));
        }
      }
      assert providers[..|providers|] == providers;
      var index := GetRegistryModelIndex(registry);
      assert Get(index, modelStr) == FirstHolder(providers, modelStr);
      if modelStr in index && index[modelStr] != "" {
        return Parse(Some(index[modelStr]), Some(modelStr));
      }
      return Parse(None, Some(modelStr));
    }
  }

  // ----- the parsers, on values -----

  function FirstIdPrefix(s: string, providers: seq<Provider>): (i: nat)
    ensures i <= |providers| && (i < |providers| ==> StartsWith(s, providers[i].id + "/"))
  {
    if providers == [] then 0
    else
      var i := FirstIdPrefix(s, providers[..|providers| - 1]);
      if i < |providers| - 1 || StartsWith(s, providers[|providers| - 1].id + "/") then i else |providers|
  }

  /** The linear-scan parser (the phases before dynamic providers). */
  function ParseByScan(s: string, providers: seq<Provider>): Parse {
    if s == "" then Parse(None, None)
    else
      var i := FirstIdPrefix(s, providers);
      if i < |providers| then Parse(Some(providers[i].id), Some(s[|providers[i].id| + 1..]))
      else
        var holder := FirstHolder(providers, s);
        if holder.Some? then Parse(holder, Some(s)) else Parse(None, Some(s))
  }

  lemma {:induction false} PrefixesAgree(s: string, providers: seq<Provider>)
    requires forall p :: p in providers ==> p.alias == ""
    ensures var i := FirstIdPrefix(s, providers);
      ByPrefix(s, providers)
          == if i < |providers| then Some(Parse(Some(providers[i].id), Some(s[|providers[i].id| + 1..]))) else None
  {
    if providers == [] {
    } else {
      PrefixesAgree(s, providers[..|providers| - 1]);
      assert providers[|providers| - 1] in providers;
    }
  }

  /**
   On a registry without aliases the indexed parser and the linear-scan parser
   answer alike, except exactly for a bare model whose first holder is a provider
   with the empty id.
   */
  lemma ParsersAgreeExactly(s: string, providers: seq<Provider>)
    requires forall p :: p in providers ==> p.alias == ""
    ensures ParseWithIndex(s, providers) == ParseByScan(s, providers)
      <==> s == "" || FirstIdPrefix(s, providers) < |providers| || FirstHolder(providers, s) != Some("")
  {
    PrefixesAgree(s, providers);
  }

  // ----- listing and parsing -----

  function Prefixes(p: Provider): seq<string> {
    (if p.id != "" then [p.id] else []) + (if p.alias != "" then [p.alias] else [])
  }

  datatype Listed = Listed(id: string, name: string, provider: string, extra: string)

  function EntryOf(p: Provider, prefix: string, model: Model): Listed {
    Listed(prefix + "/" + model.id, model.name, p.id, p.extra)
  }

  /** The entries of one model, one for each prefix. */
  function PrefixEntries(p: Provider, model: Model): seq<Listed> {
    var prefixes := Prefixes(p);
    seq(|prefixes|, k requires 0 <= k < |prefixes| => EntryOf(p, prefixes[k], model))
  }

  function ModelEntries(p: Provider, models: seq<Model>): seq<Listed> {
    if models == [] then []
    else ModelEntries(p, models[..|models| - 1]) + PrefixEntries(p, models[|models| - 1])
  }

  function AllEntries(providers: seq<Provider>): seq<Listed> {
    if providers == [] then []
    else
      var p := providers[|providers| - 1];
      AllEntries(providers[..|providers| - 1]) + ModelEntries(p, p.models)
  }

  method PushPrefixes(models: seq<Listed>, p: Provider, model: Model) returns (models': seq<Listed>)
    ensures models' == models + PrefixEntries(p, model)
  {
    models' := models;
    var prefixes := Prefixes(p);
    for k := 0 to |prefixes|
      invariant models' == models + PrefixEntries(p, model)[..k]
    {
      models' := models' + [EntryOf(p, prefixes[k], model)];
    }
  }

  method PushModels(models: seq<Listed>, p: Provider) returns (models': seq<Listed>)
    ensures models' == models + ModelEntries(p, p.models)
  {
    models' := models;
    for n := 0 to |p.models|
      invariant models' == models + ModelEntries(p, p.models[..n])
    {
      assert p.models[..n + 1][..n] == p.models[..n];
      models' := PushPrefixes(models', p, p.models[n]);
    }
    assert p.models[..|p.models|] == p.models;
  }

  /** `getAllModelsFromRegistry` */
  method GetAllModelsFromRegistry(providers: seq<Provider>) returns (models: seq<Listed>)
    ensures models == AllEntries(providers)
  {
    models := [];
    for i := 0 to |providers|
      invariant models == AllEntries(providers[..i])
    {
      assert providers[..i + 1][..i] == providers[..i];
      models := PushModels(models, providers[i]);
    }
    assert providers[..|providers|] == providers;
  }

  ghost predicate SlashFree(providers: seq<Provider>) {
    forall p :: p in providers ==> '/' !in p.id && '/' !in p.alias
  }

  /** No provider shares an id or alias with another one. */
  ghost predicate PrefixesApart(providers: seq<Provider>) {
    forall i, j, x :: 0 <= i < j < |providers| && x in Prefixes(providers[i]) ==> x !in Prefixes(providers[j])
  }

  /** Behind each of its prefixes, any model string parses back to the provider and that string. */
  ghost predicate AllRoundTrip(providers: seq<Provider>) {
    forall i, x, m :: 0 <= i < |providers| && x in Prefixes(providers[i]) ==>
      ParseWithIndex(x + "/" + m, providers) == Parse(Some(providers[i].id), Some(m))
  }

  /** The entry is that of a model of the i-th provider, under one of its prefixes. */
  ghost predicate IsListed(providers: seq<Provider>, i: nat, x: string, m: Model) {
    i < |providers| && x in Prefixes(providers[i]) && m in providers[i].models
  }

  /** Every listed id parses back to the provider and the model it was listed for. */
  ghost predicate ListingRoundTrips(providers: seq<Provider>) {
    forall i: nat, x, m :: IsListed(providers, i, x, m) ==>
      ParseWithIndex(EntryOf(providers[i], x, m).id, providers) == Parse(Some(providers[i].id), Some(m.id))
  }

  /** No prefix of a provider with models belongs to an earlier one. */
  ghost predicate ListedApart(providers: seq<Provider>) {
    forall i, j, x :: 0 <= j < i < |providers| && providers[i].models != [] && x in Prefixes(providers[i])
      ==> x !in Prefixes(providers[j])
  }

  /** Two slash-free names followed by a slash begin the same string only when they are equal. */
  lemma SlashPrefix(x: string, y: string, m: string)
    requires '/' !in x && '/' !in y
    ensures StartsWith(x + "/" + m, y + "/") <==> x == y
    ensures (x + "/" + m)[|x| + 1..] == m
  {
    var s := x + "/" + m;
    IndexOfSplit(x, '/', m);
    if StartsWith(s, y + "/") {
      IndexOfSplit(y, '/', s[|y| + 1..]);
      assert s == y + "/" + s[|y| + 1..];
      assert |x| == |y|;
      assert s[..|x|] == x && s[..|y|] == y;
    }
    if x == y {
      assert s[..|y| + 1] == y + "/";
    }
  }

  lemma OwnPrefixOf(x: string, m: string, p: Provider)
    requires '/' !in x && x != "" && '/' !in p.id && '/' !in p.alias
    ensures OwnPrefix(x + "/" + m, p) == if x in Prefixes(p) then Some(Parse(Some(p.id), Some(m))) else None
  {
    SlashPrefix(x, p.id, m);
    SlashPrefix(x, p.alias, m);
  }

  lemma {:induction false} NoPrefixOf(x: string, m: string, providers: seq<Provider>)
    requires SlashFree(providers) && x != "" && '/' !in x
    requires forall k :: 0 <= k < |providers| ==> x !in Prefixes(providers[k])
    ensures ByPrefix(x + "/" + m, providers).None?
  {
    if providers == [] {
    } else {
      var n := |providers| - 1;
      NoPrefixOf(x, m, providers[..n]);
      assert providers[n] in providers;
      OwnPrefixOf(x, m, providers[n]);
    }
  }

  lemma {:induction false} ByPrefixOf(x: string, m: string, providers: seq<Provider>, i: nat)
    requires SlashFree(providers) && x != "" && '/' !in x && i < |providers|
    requires x in Prefixes(providers[i]) && forall k :: 0 <= k < i ==> x !in Prefixes(providers[k])
    ensures ByPrefix(x + "/" + m, providers) == Some(Parse(Some(providers[i].id), Some(m)))
    decreases |providers|
  {
    var n := |providers| - 1;
    if i < n {
      ByPrefixOf(x, m, providers[..n], i);
    } else {
      NoPrefixOf(x, m, providers[..n]);
      assert providers[n] in providers;
      OwnPrefixOf(x, m, providers[n]);
    }
  }

  lemma PrefixIsSlashFree(providers: seq<Provider>, i: nat, x: string)
    requires SlashFree(providers) && i < |providers| && x in Prefixes(providers[i])
    ensures x != "" && '/' !in x
  {
    assert providers[i] in providers;
  }

  /** The provider whose prefix comes first wins. */
  lemma {:induction false} FirstWithPrefix(providers: seq<Provider>, i: nat, x: string) returns (j: nat)
    requires i < |providers| && x in Prefixes(providers[i])
    ensures j <= i && x in Prefixes(providers[j]) && forall k :: 0 <= k < j ==> x !in Prefixes(providers[k])
  {
    if k :| 0 <= k < i && x in Prefixes(providers[k]) {
      j := FirstWithPrefix(providers, k, x);
    } else {
      j := i;
    }
  }

  /** A prefixed string parses to the i-th provider exactly when no earlier one has the prefix. */
  lemma PrefixedParsesExactly(providers: seq<Provider>, i: nat, x: string, m: string)
    requires SlashFree(providers) && DistinctIds(providers) && i < |providers| && x in Prefixes(providers[i])
    ensures ParseWithIndex(x + "/" + m, providers) == Parse(Some(providers[i].id), Some(m))
      <==> forall j :: 0 <= j < i ==> x !in Prefixes(providers[j])
  {
    var j := FirstWithPrefix(providers, i, x);
    PrefixIsSlashFree(providers, i, x);
    ByPrefixOf(x, m, providers, j);
  }

  /** Any string behind a prefix parses back exactly when no two providers share an id or alias. */
  lemma PrefixesParseExactly(providers: seq<Provider>)
    requires SlashFree(providers) && DistinctIds(providers)
    ensures AllRoundTrip(providers) <==> PrefixesApart(providers)
  {
    if PrefixesApart(providers) {
      forall i, x, m | 0 <= i < |providers| && x in Prefixes(providers[i])
        ensures ParseWithIndex(x + "/" + m, providers) == Parse(Some(providers[i].id), Some(m))
      {
        PrefixedParsesExactly(providers, i, x, m);
      }
    }
    if AllRoundTrip(providers) {
      forall i, j, x | 0 <= i < j < |providers| && x in Prefixes(providers[i]) ensures x !in Prefixes(providers[j]) {
        if x in Prefixes(providers[j]) {
          assert ParseWithIndex(x + "/" + "m", providers) == Parse(Some(providers[i].id), Some("m"));
          PrefixedParsesExactly(providers, j, x, "m");
        }
      }
    }
  }

  /** All listed ids parse back exactly when no provider with models has a prefix of an earlier provider. */
  lemma RoundTripExactly(providers: seq<Provider>)
    requires SlashFree(providers) && DistinctIds(providers)
    ensures ListingRoundTrips(providers) <==> ListedApart(providers)
  {
    forall i: nat, x, m | IsListed(providers, i, x, m)
      ensures ParseWithIndex(EntryOf(providers[i], x, m).id, providers) == Parse(Some(providers[i].id), Some(m.id))
        <==> forall j :: 0 <= j < i ==> x !in Prefixes(providers[j])
    {
      PrefixedParsesExactly(providers, i, x, m.id);
    }
    if ListingRoundTrips(providers) {
      forall i, j, x | 0 <= j < i < |providers| && providers[i].models != [] && x in Prefixes(providers[i])
        ensures x !in Prefixes(providers[j])
      {
        assert IsListed(providers, i, x, providers[i].models[0]);
      }
    }
  }

  // ----- what the listing holds -----

  /** Entries depend on a provider's own fields only. */
  lemma {:induction false} ModelEntriesBy(p: Provider, q: Provider, models: seq<Model>)
    requires q == p.(models := q.models)
    ensures ModelEntries(p, models) == ModelEntries(q, models)
  {
    if models == [] {
    } else {
      ModelEntriesBy(p, q, models[..|models| - 1]);
    }
  }

  /** The entries of the last model come last: under the id, and then under the alias, as far as they are not empty. */
  lemma ListingGrows(providers: seq<Provider>, p: Provider, m: Model)
    ensures AllEntries(providers + [p.(models := p.models + [m])])
         == AllEntries(providers + [p])
            + (if p.id == "" then [] else [Listed(p.id + "/" + m.id, m.name, p.id, p.extra)])
            + (if p.alias == "" then [] else [Listed(p.alias + "/" + m.id, m.name, p.id, p.extra)])
    ensures AllEntries(providers + [p.(models := [])]) == AllEntries(providers)
  {
    var longer := p.(models := p.models + [m]);
    assert (providers + [longer])[..|providers|] == providers && (providers + [p])[..|providers|] == providers;
    assert (providers + [p.(models := [])])[..|providers|] == providers;
    assert (p.models + [m])[..|p.models|] == p.models;
    ModelEntriesBy(p, longer, p.models);
    assert PrefixEntries(longer, m)
        == (if p.id == "" then [] else [Listed(p.id + "/" + m.id, m.name, p.id, p.extra)])
           + (if p.alias == "" then [] else [Listed(p.alias + "/" + m.id, m.name, p.id, p.extra)]);
  }

  ghost predicate EntryFor(p: Provider, models: seq<Model>, e: Listed) {
    exists x, m :: x in Prefixes(p) && m in models && e == EntryOf(p, x, m)
  }

  lemma PrefixEntriesAre(p: Provider, m: Model, e: Listed)
    ensures e in PrefixEntries(p, m) <==> exists x :: x in Prefixes(p) && e == EntryOf(p, x, m)
  {
    if x :| x in Prefixes(p) && e == EntryOf(p, x, m) {
      var k :| 0 <= k < |Prefixes(p)| && Prefixes(p)[k] == x;
      assert PrefixEntries(p, m)[k] == e;
    }
    if e in PrefixEntries(p, m) {
      var k :| 0 <= k < |Prefixes(p)| && PrefixEntries(p, m)[k] == e;
      assert Prefixes(p)[k] in Prefixes(p);
    }
  }

  lemma {:induction false} ModelEntriesAre(p: Provider, models: seq<Model>, e: Listed)
    ensures e in ModelEntries(p, models) <==> EntryFor(p, models, e)
  {
    if models == [] {
    } else {
      var init, m := models[..|models| - 1], models[|models| - 1];
      ModelEntriesAre(p, init, e);
      PrefixEntriesAre(p, m, e);
      assert forall y :: y in models <==> y in init || y == m;
      if EntryFor(p, models, e) {
        var x, y :| x in Prefixes(p) && y in models && e == EntryOf(p, x, y);
        if y in init { assert EntryFor(p, init, e); }
      }
    }
  }

  /** The listing holds the entry of every model of every provider under each prefix, and nothing else. */
  lemma {:induction false} ListingIs(providers: seq<Provider>, e: Listed)
    ensures e in AllEntries(providers)
        <==> exists i :: 0 <= i < |providers| && EntryFor(providers[i], providers[i].models, e)
  {
    if providers == [] {
    } else {
      var n := |providers| - 1;
      ListingIs(providers[..n], e);
      ModelEntriesAre(providers[n], providers[n].models, e);
      assert forall i :: 0 <= i < n ==> providers[..n][i] == providers[i];
    }
  }

  /** The entry parses to a provider and a model it was made of. */
  ghost predicate ParsesBack(providers: seq<Provider>, e: Listed) {
    exists p, x, m :: p in providers && x in Prefixes(p) && m in p.models && e == EntryOf(p, x, m)
                      && ParseWithIndex(e.id, providers) == Parse(Some(p.id), Some(m.id))
  }

  /** So, with prefixes apart, every listed id parses to the provider and the model id it was made of. */
  lemma ListedIdsParse(providers: seq<Provider>, e: Listed)
    requires SlashFree(providers) && DistinctIds(providers) && ListedApart(providers) && e in AllEntries(providers)
    ensures ParsesBack(providers, e)
  {
    ListingIs(providers, e);
    var i :| 0 <= i < |providers| && EntryFor(providers[i], providers[i].models, e);
    var x, m :| x in Prefixes(providers[i]) && m in providers[i].models && e == EntryOf(providers[i], x, m);
    RoundTripExactly(providers);
    assert IsListed(providers, i, x, m);
    assert providers[i] in providers;
  }
}
