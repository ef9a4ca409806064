/**
 The lazily filled lookup tables of open-sse/config/providerRegistry.ts: entries by
 alias, and the parameters a model does not support.
 */
module ProviderRegistry {
  import opened JsText

  datatype Model = Model(id: string, unsupported: Option<seq<string>>)

  /** A registry entry under its key; an empty alias is an absent one. */
  datatype Entry = Entry(key: string, id: string, alias: string, models: seq<Model>, unsupported: Option<seq<string>>)

  // ----- the scans the tables stand for -----

  /** The last entry with the alias: a later one replaces an earlier one. */
  function LastWithAlias(entries: seq<Entry>, alias: string): Option<Entry> {
    if entries == [] then None
    else
      var e := entries[|entries| - 1];
      if e.alias != "" && e.alias != e.id && e.alias == alias then Some(e)
      else LastWithAlias(entries[..|entries| - 1], alias)
  }

  function WithKey(entries: seq<Entry>, key: string): Option<Entry> {
    if entries == [] then None
    else if entries[|entries| - 1].key == key then Some(entries[|entries| - 1])
    else WithKey(entries[..|entries| - 1], key)
  }

  function EntryFor(entries: seq<Entry>, provider: string): Option<Entry> {
    if WithKey(entries, provider).Some? then WithKey(entries, provider) else LastWithAlias(entries, provider)
  }

  /** The restrictions of the first model with the id that carries any. */
  function FirstRestricted(models: seq<Model>, id: string): Option<seq<string>> {
    if models == [] then None
    else
      var prior, m := FirstRestricted(models[..|models| - 1], id), models[|models| - 1];
      if prior.Some? then prior else if m.id == id then m.unsupported else None
  }

  /** All models of all entries, in order. */
  function AllModels(entries: seq<Entry>): seq<Model> {
    if entries == [] then [] else AllModels(entries[..|entries| - 1]) + entries[|entries| - 1].models
  }

  /** The restrictions of the first model with the id, whether or not it carries any. */
  function FirstModel(models: seq<Model>, id: string): Option<Model> {
    if models == [] then None
    else
      var prior, m := FirstModel(models[..|models| - 1], id), models[|models| - 1];
      if prior.Some? then prior else if m.id == id then Some(m) else None
  }

  /** What comes after the last slash. */
  function BareId(id: string): string {
    if id == "" || id[|id| - 1] == '/' then "" else BareId(id[..|id| - 1]) + [id[|id| - 1]]
  }

  /**
   `getUnsupportedParams` by scanning: the provider's own model, any model of that id, any of
   the bare id, the provider.
   */
  function UnsupportedByScan(entries: seq<Entry>, provider: string, modelId: string): seq<string> {
    var entry := EntryFor(entries, provider);
    var own := if entry.Some? then FirstModel(entry.value.models, modelId) else None;
    var anywhere, bare := FirstRestricted(AllModels(entries), modelId),
        FirstRestricted(AllModels(entries), BareId(modelId));
    if own.Some? && own.value.unsupported.Some? then own.value.unsupported.value
    else if anywhere.Some? then anywhere.value
    else if '/' in modelId && bare.Some? then bare.value
    else if entry.Some? && entry.value.unsupported.Some? then entry.value.unsupported.value
    else []
  }

  // ----- the code -----

  class Tables {
    const registry: seq<Entry>
    var byAlias: map<string, Entry>
    var byAliasPopulated: bool
    var unsupportedParams: map<string, seq<string>>
    var unsupportedPopulated: bool

    constructor (registry: seq<Entry>)
      ensures this.registry == registry && Valid()
    {
      this.registry := registry;
      byAlias, byAliasPopulated := map[], false;
      unsupportedParams, unsupportedPopulated := map[], false;
    }

    function AliasEntry(alias: string): Option<Entry>
      reads this
    {
      if alias in byAlias then Some(byAlias[alias]) else None
    }

    function Restricted(id: string): Option<seq<string>>
      reads this
    {
      if id in unsupportedParams then Some(unsupportedParams[id]) else None
    }

    /** A populated table answers as the scan does; an unpopulated one is empty. */
    ghost predicate Valid()
      reads this
    {
      && (if byAliasPopulated then forall a :: AliasEntry(a) == LastWithAlias(registry, a) else byAlias == map[])
      && (if unsupportedPopulated then forall id :: Restricted(id) == FirstRestricted(AllModels(registry), id)
          else unsupportedParams == map[])
    }

    method EnsureByAliasPopulated()
      requires Valid()
      modifies this`byAlias, this`byAliasPopulated
      ensures Valid() && byAliasPopulated
    {
      if byAliasPopulated { return; }
      byAliasPopulated := true;
      for i := 0 to |registry|
        invariant byAliasPopulated && unsupportedPopulated == old(unsupportedPopulated)
            && unsupportedParams == old(unsupportedParams)
        invariant forall a :: AliasEntry(a) == LastWithAlias(registry[..i], a)
      {
        assert registry[..i + 1][..i] == registry[..i];
        var entry := registry[i];
        if entry.alias != "" && entry.alias != entry.id {
          byAlias := byAlias[entry.alias := entry];
        }
      }
      assert registry[..|registry|] == registry;
    }

    method GetRegistryEntry(provider: string) returns (entry: Option<Entry>)
      requires Valid()
      modifies this`byAlias, this`byAliasPopulated
      ensures Valid() && entry == EntryFor(registry, provider)
    {
      EnsureByAliasPopulated();
      var own := WithKey(registry, provider);
      return if own.Some? then own else AliasEntry(provider);
    }

    method EnsureUnsupportedParamsPopulated()
      requires Valid()
      modifies this`unsupportedParams, this`unsupportedPopulated
      ensures Valid() && unsupportedPopulated
    {
      if unsupportedPopulated { return; }
      unsupportedPopulated := true;
      for i := 0 to |registry|
        invariant unsupportedPopulated
        invariant forall id :: Restricted(id) == FirstRestricted(AllModels(registry[..i]), id)
      {
        assert registry[..i + 1][..i] == registry[..i];
        AddModels(registry[i].models, AllModels(registry[..i]));
      }
      assert registry[..|registry|] == registry;
    }

    method AddModels(models: seq<Model>, ghost before: seq<Model>)
      requires forall id :: Restricted(id) == FirstRestricted(before, id)
      modifies this`unsupportedParams
      ensures forall id :: Restricted(id) == FirstRestricted(before + models, id)
    {
      assert before + [] == before;
      for k := 0 to |models|
        invariant forall id :: Restricted(id) == FirstRestricted(before + models[..k], id)
      {
        assert (before + models[..k + 1])[..|before| + k] == before + models[..k];
        var m := models[k];
        if m.unsupported.Some? && m.id !in unsupportedParams {
          unsupportedParams := unsupportedParams[m.id := m.unsupported.value];
        }
      }
      assert models[..|models|] == models;
    }

    /** The table lookups give what scanning the registry would, on the first call and on every later one. */
    method GetUnsupportedParams(provider: string, modelId: string) returns (r: seq<string>)
      requires Valid()
      modifies this
      ensures Valid() && r == UnsupportedByScan(registry, provider, modelId)
    {
      EnsureUnsupportedParamsPopulated();
      var entry := GetRegistryEntry(provider);
      var own := if entry.Some? then FirstModel(entry.value.models, modelId) else None;
      if own.Some? && own.value.unsupported.Some? { return own.value.unsupported.value; }
      var cached := Restricted(modelId);
      if cached.Some? { return cached.value; }
      if '/' in modelId {
        var bare := Restricted(BareId(modelId));
        if bare.Some? { return bare.value; }
      }
      if entry.Some? && entry.value.unsupported.Some? { return entry.value.unsupported.value; }
      return [];
    }
  }

  // ----- what the scans find, spelled out -----

  predicate HasAlias(e: Entry, alias: string) { alias != "" && e.alias == alias && e.id != alias }

  /** The last of the entries with the alias, or none. */
  ghost predicate IsLastWithAlias(entries: seq<Entry>, alias: string, found: Option<Entry>) {
    match found
    case None => forall k :: 0 <= k < |entries| ==> !HasAlias(entries[k], alias)
    case Some(e) =>
      exists i :: 0 <= i < |entries| && entries[i] == e && HasAlias(e, alias)
                  && forall k :: i < k < |entries| ==> !HasAlias(entries[k], alias)
  }

  /** The entry under the key; without one, the last with that alias. */
  ghost predicate IsEntryFor(entries: seq<Entry>, provider: string, found: Option<Entry>) {
    if k :| 0 <= k < |entries| && entries[k].key == provider
    then found.Some? && found.value in entries && found.value.key == provider
    else IsLastWithAlias(entries, provider, found)
  }

  /** What the first model with the id says, whether or not it restricts anything. */
  ghost predicate IsOwn(models: seq<Model>, id: string, found: Option<seq<string>>) {
    || (found.None? && forall k :: 0 <= k < |models| ==> models[k].id != id)
    || exists k :: 0 <= k < |models| && models[k].id == id && found == models[k].unsupported
                   && forall j :: 0 <= j < k ==> models[j].id != id
  }

  predicate Restricts(m: Model, id: string) { m.id == id && m.unsupported.Some? }

  /** What the first model with the id that restricts something says. */
  ghost predicate IsAnywhere(models: seq<Model>, id: string, found: Option<seq<string>>) {
    match found
    case None => forall k :: 0 <= k < |models| ==> !Restricts(models[k], id)
    case Some(params) =>
      exists k :: 0 <= k < |models| && Restricts(models[k], id) && models[k].unsupported == Some(params)
                  && forall j :: 0 <= j < k ==> !Restricts(models[j], id)
  }

  lemma AllModelsSnoc(entries: seq<Entry>, e: Entry)
    ensures AllModels(entries + [e]) == AllModels(entries) + e.models
  {
    assert (entries + [e])[..|entries|] == entries;
  }

  lemma MoreModels(a: seq<Model>, b: seq<Model>, c: seq<Model>)
    ensures a + (b + c) == a + b + c
  {
  }

  /** All models, in order: those of an entry stand between those of the entries before and after it. */
  lemma {:induction false} AllModelsAre(before: seq<Entry>, e: Entry, after: seq<Entry>)
    ensures AllModels(before + [e] + after) == AllModels(before) + e.models + AllModels(after)
  {
    if after == [] {
      AllModelsSnoc(before, e);
      assert before + [e] + after == before + [e];
    } else {
      var n := |after| - 1;
      AllModelsAre(before, e, after[..n]);
      AllModelsSnoc(before + [e] + after[..n], after[n]);
      AllModelsSnoc(after[..n], after[n]);
      MoreModels(AllModels(before) + e.models, AllModels(after[..n]), after[n].models);
      assert after == after[..n] + [after[n]];
      assert before + [e] + after == before + [e] + after[..n] + [after[n]];
    }
  }

  lemma LastWithAliasSnoc(entries: seq<Entry>, e: Entry, alias: string, found: Option<Entry>)
    requires IsLastWithAlias(entries, alias, found)
    ensures IsLastWithAlias(entries + [e], alias, if HasAlias(e, alias) then Some(e) else found)
  {
    var all := entries + [e];
    assert all[|entries|] == e && forall k :: 0 <= k < |entries| ==> all[k] == entries[k];
    if !HasAlias(e, alias) && found.Some? {
      var i :| 0 <= i < |entries| && entries[i] == found.value && HasAlias(found.value, alias)
               && forall k :: i < k < |entries| ==> !HasAlias(entries[k], alias);
      assert all[i] == found.value;
    }
  }

  lemma {:induction false} LastWithAliasIs(entries: seq<Entry>, alias: string)
    ensures IsLastWithAlias(entries, alias, LastWithAlias(entries, alias))
  {
    if entries == [] {
    } else {
      var n := |entries| - 1;
      LastWithAliasIs(entries[..n], alias);
      LastWithAliasSnoc(entries[..n], entries[n], alias, LastWithAlias(entries[..n], alias));
      assert entries == entries[..n] + [entries[n]];
    }
  }

  lemma {:induction false} WithKeyIs(entries: seq<Entry>, key: string)
    ensures match WithKey(entries, key)
      case None => forall k :: 0 <= k < |entries| ==> entries[k].key != key
      case Some(e) => e in entries && e.key == key
  {
    if entries == [] {
    } else {
      var n := |entries| - 1;
      WithKeyIs(entries[..n], key);
      assert forall k :: 0 <= k < n ==> entries[..n][k] == entries[k];
    }
  }

  lemma EntryForIs(entries: seq<Entry>, provider: string)
    ensures IsEntryFor(entries, provider, EntryFor(entries, provider))
  {
    WithKeyIs(entries, provider);
    LastWithAliasIs(entries, provider);
  }

  lemma {:induction false} FirstModelIs(models: seq<Model>, id: string)
    ensures var found := FirstModel(models, id);
      && IsOwn(models, id, if found.Some? then found.value.unsupported else None)
      && (found.None? <==> forall k :: 0 <= k < |models| ==> models[k].id != id)
  {
    if models == [] {
    } else {
      var n := |models| - 1;
      FirstModelIs(models[..n], id);
      assert forall k :: 0 <= k < n ==> models[..n][k] == models[k];
      var found := FirstModel(models[..n], id);
      if found.Some? {
        var k :| 0 <= k < n && models[..n][k].id == id && found.value.unsupported == models[..n][k].unsupported
                 && forall j :: 0 <= j < k ==> models[..n][j].id != id;
        assert models[k].id == id && forall j :: 0 <= j < k ==> models[j].id != id;
      }
    }
  }

  lemma {:induction false} FirstRestrictedIs(models: seq<Model>, id: string)
    ensures IsAnywhere(models, id, FirstRestricted(models, id))
  {
    if models == [] {
    } else {
      var n := |models| - 1;
      FirstRestrictedIs(models[..n], id);
      assert forall k :: 0 <= k < n ==> models[..n][k] == models[k];
      var found := FirstRestricted(models[..n], id);
      if found.Some? {
        var k :| 0 <= k < n && Restricts(models[..n][k], id) && models[..n][k].unsupported == found
                 && forall j :: 0 <= j < k ==> !Restricts(models[..n][j], id);
        assert Restricts(models[k], id) && forall j :: 0 <= j < k ==> !Restricts(models[j], id);
      }
    }
  }

  lemma {:induction false} BareIdIs(before: string, bare: string)
    requires '/' !in bare
    ensures BareId(before + "/" + bare) == bare
  {
    var id := before + "/" + bare;
    if bare == "" {
      assert id[|id| - 1] == '/';
    } else {
      var n := |bare| - 1;
      assert bare == bare[..n] + [bare[n]] && id[..|id| - 1] == before + "/" + bare[..n] && id[|id| - 1] == bare[n];
      BareIdIs(before, bare[..n]);
    }
  }

  lemma {:induction false} SplitsAtLastSlash(id: string) returns (before: string, bare: string)
    requires '/' in id
    ensures '/' !in bare && id == before + "/" + bare
  {
    var n := |id| - 1;
    if id[n] == '/' {
      before, bare := id[..n], "";
    } else {
      before, bare := SplitsAtLastSlash(id[..n]);
      bare := bare + [id[n]];
    }
  }

  /** What follows the last slash of the id. */
  ghost predicate IsBareOf(bare: string, id: string) {
    '/' !in bare && exists before :: id == before + "/" + bare
  }

  /**
   Whose restrictions are given: those of the provider's own model; without any, those of the first model of
   that id anywhere; then, for an id with slashes, those of the first model of what follows the last one; then
   the provider's; and otherwise none.
   */
  lemma UnsupportedIs(entries: seq<Entry>, provider: string, modelId: string)
    returns (entry: Option<Entry>, own: Option<seq<string>>, anywhere: Option<seq<string>>, bare: string,
             bareAnywhere: Option<seq<string>>)
    ensures IsEntryFor(entries, provider, entry)
    ensures if entry.Some? then IsOwn(entry.value.models, modelId, own) else own.None?
    ensures IsAnywhere(AllModels(entries), modelId, anywhere)
    ensures if '/' in modelId then IsBareOf(bare, modelId) && IsAnywhere(AllModels(entries), bare, bareAnywhere)
            else bareAnywhere.None?
    ensures UnsupportedByScan(entries, provider, modelId)
         == if own.Some? then own.value
            else if anywhere.Some? then anywhere.value
            else if bareAnywhere.Some? then bareAnywhere.value
            else if entry.Some? then entry.value.unsupported.GetOr([])
            else []
  {
    entry := EntryFor(entries, provider);
    EntryForIs(entries, provider);
    own := None;
    if entry.Some? {
      FirstModelIs(entry.value.models, modelId);
      var model := FirstModel(entry.value.models, modelId);
      own := if model.Some? then model.value.unsupported else None;
    }
    FirstRestrictedIs(AllModels(entries), modelId);
    anywhere, bare, bareAnywhere := FirstRestricted(AllModels(entries), modelId), "", None;
    if '/' in modelId {
      var before;
      before, bare := SplitsAtLastSlash(modelId);
      BareIdIs(before, bare);
      FirstRestrictedIs(AllModels(entries), bare);
      bareAnywhere := FirstRestricted(AllModels(entries), bare);
    }
  }
}
