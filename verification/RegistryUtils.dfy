/**
 * The shared registry helpers of `registryUtils.ts`: the cached index from a bare model name to its
 * provider, the parser of "provider/model" strings, and the flattened catalog.
 */
module RegistryUtils {
  import opened Options
  import opened OrderedMaps
  import opened Strings

  datatype Model = Model(id: string, name: string)

  /** One entry of a registry object. A registry is the list of its entries in iteration order. */
  datatype Provider = Provider(key: string, alias: Option<string>, models: seq<Model>)

  datatype Parsed = Parsed(provider: Option<string>, model: Option<string>)

  datatype Entry = Entry(id: string, name: string, provider: string)

  function Keys(registry: seq<Provider>): seq<string> {
    seq(|registry|, i requires 0 <= i < |registry| => registry[i].key)
  }

  predicate Lists(p: Provider, id: string) {
    exists k :: 0 <= k < |p.models| && p.models[k].id == id
  }

  // ---------------------------------------------------------------- bare model names

  /** The linear scan that the index replaces. */
  function FirstMatch(registry: seq<Provider>, id: string): Option<string> {
    if registry == [] then None
    else if Lists(registry[0], id) then Some(registry[0].key)
    else FirstMatch(registry[1..], id)
  }

  lemma {:induction false} FirstMatchAt(registry: seq<Provider>, id: string, i: nat)
    requires i < |registry| && Lists(registry[i], id) && forall j :: 0 <= j < i ==> !Lists(registry[j], id)
    ensures FirstMatch(registry, id) == Some(registry[i].key)
  {
    if i > 0 {
      FirstMatchAt(registry[1..], id, i - 1);
    }
  }

  lemma {:induction false} FirstLister(registry: seq<Provider>, id: string)
    ensures FirstMatch(registry, id).Some? ==>
              exists i :: 0 <= i < |registry| && IsFirstLister(registry, id, i)
    ensures FirstMatch(registry, id).None? ==> forall i :: 0 <= i < |registry| ==> !Lists(registry[i], id)
  {
    if registry != [] {
      var rest := registry[1..];
      FirstLister(rest, id);
      assert forall i :: 1 <= i < |registry| ==> registry[i] == rest[i - 1];
      if Lists(registry[0], id) {
        assert IsFirstLister(registry, id, 0);
      } else if i :| 0 <= i < |rest| && IsFirstLister(rest, id, i) {
        assert IsFirstLister(registry, id, i + 1);
      }
    }
  }

  /** Provider `i` lists the model and none before it does. */
  predicate IsFirstLister(registry: seq<Provider>, id: string, i: int) {
    0 <= i < |registry| && Lists(registry[i], id) && forall j :: 0 <= j < i ==> !Lists(registry[j], id)
  }

  /** The scan gives a provider if and only if it is the first that lists the model. */
  lemma FirstMatchMeans(registry: seq<Provider>, id: string, key: string)
    ensures FirstMatch(registry, id) == Some(key)
            <==> exists i :: 0 <= i < |registry| && IsFirstLister(registry, id, i) && registry[i].key == key
    ensures FirstMatch(registry, id) == None <==> forall i :: 0 <= i < |registry| ==> !Lists(registry[i], id)
  {
    FirstLister(registry, id);
    forall i | 0 <= i < |registry| && IsFirstLister(registry, id, i)
      ensures FirstMatch(registry, id) == Some(registry[i].key)
    {
      FirstMatchAt(registry, id, i);
    }
    if FirstMatch(registry, id).Some? {
      var i :| 0 <= i < |registry| && IsFirstLister(registry, id, i);
      assert FirstMatch(registry, id) == Some(registry[i].key) && Lists(registry[i], id);
    }
  }

  function AddModels(index: map<string, string>, key: string, models: seq<Model>): map<string, string> {
    if models == [] then index
    else
      var before := AddModels(index, key, models[..|models| - 1]);
      var id := models[|models| - 1].id;
      if id in before then before else before[id := key]
  }

  function IndexFor(registry: seq<Provider>): map<string, string> {
    if registry == [] then map[]
    else
      var p := registry[|registry| - 1];
      AddModels(IndexFor(registry[..|registry| - 1]), p.key, p.models)
  }

  function Lookup(index: map<string, string>, id: string): Option<string> {
    if id in index then Some(index[id]) else None
  }

  lemma {:induction false} AddModelsMeans(index: map<string, string>, p: Provider, id: string)
    ensures Lookup(AddModels(index, p.key, p.models), id)
            == if id in index then Some(index[id]) else if Lists(p, id) then Some(p.key) else None
    decreases |p.models|
  {
    if p.models != [] {
      var n := |p.models| - 1;
      var rest := p.(models := p.models[..n]);
      AddModelsMeans(index, rest, id);
      assert Lists(p, id) <==> Lists(rest, id) || p.models[n].id == id;
    }
  }

  lemma {:induction false} FirstMatchLast(registry: seq<Provider>, p: Provider, id: string)
    ensures FirstMatch(registry + [p], id)
            == if FirstMatch(registry, id).Some? then FirstMatch(registry, id)
               else if Lists(p, id) then Some(p.key) else None
  {
    if registry == [] {
      assert registry + [p] == [p];
      assert FirstMatch([p][1..], id) == None;
    } else {
      assert (registry + [p])[1..] == registry[1..] + [p];
      FirstMatchLast(registry[1..], p, id);
    }
  }

  /** Looking a name up in the first-wins index gives what the linear scan gives. */
  lemma {:induction false} IndexIsTheScan(registry: seq<Provider>, id: string)
    ensures Lookup(IndexFor(registry), id) == FirstMatch(registry, id)
  {
    if registry != [] {
      var rest, p := registry[..|registry| - 1], registry[|registry| - 1];
      IndexIsTheScan(rest, id);
      AddModelsMeans(IndexFor(rest), p, id);
      FirstMatchLast(rest, p, id);
      assert registry == rest + [p];
    }
  }

  // ---------------------------------------------------------------- parsing

  predicate AliasClaims(p: Provider, s: string) {
    p.alias.Some? && p.alias.value != "" && StartsAt(s, p.alias.value)
  }

  predicate Claims(p: Provider, s: string) {
    StartsAt(s, p.key) || AliasClaims(p, s)
  }

  function ClaimedModel(p: Provider, s: string): string
    requires Claims(p, s)
  {
    if StartsAt(s, p.key) then s[|p.key| + 1..] else s[|p.alias.value| + 1..]
  }

  /** The position of the first provider that claims `s`, or the number of providers. */
  function FirstClaim(registry: seq<Provider>, s: string): (i: nat)
    ensures i <= |registry|
    ensures forall j :: 0 <= j < i ==> !Claims(registry[j], s)
    ensures i < |registry| ==> Claims(registry[i], s)
  {
    if registry == [] || Claims(registry[0], s) then 0
    else
      assert forall j :: 1 <= j < |registry| ==> registry[j] == registry[1..][j - 1];
      1 + FirstClaim(registry[1..], s)
  }

  /** `now` is the registry at the time of the call, `first` what it was when the index was built. */
  function ParseUsing(text: Option<string>, now: seq<Provider>, first: seq<Provider>): Parsed {
    if text.None? || text.value == "" then Parsed(None, None)
    else
      var s := text.value;
      var i := FirstClaim(now, s);
      if i < |now| then Parsed(Some(now[i].key), Some(ClaimedModel(now[i], s)))
      else
        var p := FirstMatch(first, s);
        Parsed(if p == Some("") then None else p, Some(s))
  }

  /** Parsing by scans only. */
  function Parse(text: Option<string>, registry: seq<Provider>): Parsed {
    ParseUsing(text, registry, registry)
  }

  /** The text starts with the id of the provider, or with its alias if that is not empty, and a slash. */
  ghost predicate StartsWithName(p: Provider, s: string) {
    p.key + "/" <= s || (p.alias.Some? && p.alias.value != "" && p.alias.value + "/" <= s)
  }

  /**
   * A text that starts with no name of a provider is a bare model name: its provider is the first that lists it,
   * unless there is none or that has an empty id, and the model is the text itself.
   */
  lemma BareNameParses(registry: seq<Provider>, s: string)
    requires s != "" && forall j :: 0 <= j < |registry| ==> !StartsWithName(registry[j], s)
    ensures forall i :: IsFirstLister(registry, s, i) ==>
              Parse(Some(s), registry)
              == Parsed(if registry[i].key == "" then None else Some(registry[i].key), Some(s))
    ensures (forall i :: 0 <= i < |registry| ==> !Lists(registry[i], s)) ==>
              Parse(Some(s), registry) == Parsed(None, Some(s))
  {
    forall i | IsFirstLister(registry, s, i)
      ensures FirstMatch(registry, s) == Some(registry[i].key)
    {
      FirstMatchAt(registry, s, i);
    }
    FirstMatchMeans(registry, s, "");
    forall j | 0 <= j < |registry| ensures !Claims(registry[j], s) {
      assert !StartsWithName(registry[j], s);
    }
  }

  /**
   * Any other text belongs to the first provider whose id or alias it starts with; the model is what follows the
   * id, or the alias if it does not start with the id.
   */
  lemma PrefixedNameParses(registry: seq<Provider>, s: string, i: nat, prefix: string, model: string)
    requires i < |registry| && s == prefix + "/" + model
    requires prefix == registry[i].key
             || (registry[i].alias == Some(prefix) && prefix != "" && !(registry[i].key + "/" <= s))
    requires forall j :: 0 <= j < i ==> !StartsWithName(registry[j], s)
    ensures Parse(Some(s), registry) == Parsed(Some(registry[i].key), Some(model))
  {
    var p := registry[i];
    assert prefix + "/" <= s && s[|prefix| + 1..] == model;
    assert Claims(p, s);
    forall j | 0 <= j < i ensures !Claims(registry[j], s) {
      assert !StartsWithName(registry[j], s);
    }
  }

  /** A registry object: what the weak map is keyed by. */
  class Registry {
    var providers: seq<Provider>

    constructor (entries: seq<Provider>)
      ensures providers == entries
    {
      providers := entries;
    }
  }

  /** The weak map of indices. `built` remembers what each registry was when its index was built. */
  class IndexCache {
    var indices: map<Registry, map<string, string>>
    ghost var built: map<Registry, seq<Provider>>

    ghost predicate Valid()
      reads this
    {
      && indices.Keys == built.Keys
      && forall r :: r in indices ==> indices[r] == IndexFor(built[r])
    }

    constructor ()
      ensures Valid() && built == map[]
    {
      indices, built := map[], map[];
    }

    /** An index is built at the first call for a registry and never rebuilt. */
    method GetRegistryModelIndex(registry: Registry) returns (index: map<string, string>)
      requires Valid()
      modifies this
      ensures Valid()
      ensures built == if registry in old(built) then old(built) else old(built)[registry := registry.providers]
      ensures index == IndexFor(built[registry])
    {
      if registry in indices {
        return indices[registry];
      }
      index := map[];
      var all := registry.providers;
      for i := 0 to |all|
        invariant index == IndexFor(all[..i])
      {
        var models := all[i].models;
        ghost var before := index;
        for k := 0 to |models|
          invariant index == AddModels(before, all[i].key, models[..k])
        {
          assert models[..k + 1][..k] == models[..k];
          if models[k].id !in index {
            index := index[models[k].id := all[i].key];
          }
        }
        assert models[..|models|] == models;
        assert all[..i + 1][..i] == all[..i];
      }
      assert all[..|all|] == all;
      indices := indices[registry := index];
      built := built[registry := all];
    }

    /**
     * A registry that has not changed since its index was built, or has no index yet, is parsed as the
     * scans alone would parse it.
     */
    method ParseModelFromRegistry(text: Option<string>, registry: Registry) returns (r: Parsed)
      requires Valid()
      modifies this
      ensures Valid()
      ensures built == old(built)
              || (registry !in old(built) && built == old(built)[registry := registry.providers])
      ensures var first := if registry in old(built) then old(built)[registry] else registry.providers;
              r == ParseUsing(text, registry.providers, first)
      ensures (registry in old(built) ==> old(built)[registry] == registry.providers)
              ==> r == Parse(text, registry.providers)
    {
      if text.None? || text.value == "" {
        return Parsed(None, None);
      }
      var s := text.value;
      var all := registry.providers;
      for i := 0 to |all|
        invariant forall j :: 0 <= j < i ==> !Claims(all[j], s)
        invariant built == old(built) && indices == old(indices) && registry.providers == all
      {
        if StartsAt(s, all[i].key) {
          return Parsed(Some(all[i].key), Some(s[|all[i].key| + 1..]));
        }
        if AliasClaims(all[i], s) {
          return Parsed(Some(all[i].key), Some(s[|all[i].alias.value| + 1..]));
        }
      }
      var index := GetRegistryModelIndex(registry);
      IndexIsTheScan(built[registry], s);
      if s in index && index[s] != "" {
        return Parsed(Some(index[s]), Some(s));
      }
      r := Parsed(None, Some(s));
    }
  }

  // ---------------------------------------------------------------- the catalog

  /** The names a provider is listed under: its key and its alias, without empty ones. */
  function Prefixes(p: Provider): seq<string> {
    (if p.key != "" then [p.key] else [])
    + if p.alias.Some? && p.alias.value != "" then [p.alias.value] else []
  }

  function EntryFor(p: Provider, m: Model, prefix: string): Entry {
    Entry(prefix + "/" + m.id, m.name, p.key)
  }

  function ModelEntries(p: Provider, m: Model, prefixes: seq<string>): seq<Entry> {
    if prefixes == [] then []
    else ModelEntries(p, m, prefixes[..|prefixes| - 1]) + [EntryFor(p, m, prefixes[|prefixes| - 1])]
  }

  function ProviderEntries(p: Provider, models: seq<Model>): seq<Entry> {
    if models == [] then []
    else ProviderEntries(p, models[..|models| - 1]) + ModelEntries(p, models[|models| - 1], Prefixes(p))
  }

  function Catalog(registry: seq<Provider>): seq<Entry> {
    if registry == [] then []
    else
      var p := registry[|registry| - 1];
      Catalog(registry[..|registry| - 1]) + ProviderEntries(p, p.models)
  }

  /** The inner loop: one model under each of its provider's names. */
  method PushEntries(models: seq<Entry>, p: Provider, m: Model) returns (r: seq<Entry>)
    ensures r == models + ModelEntries(p, m, Prefixes(p))
  {
    r := models;
    var prefixes := Prefixes(p);
    for n := 0 to |prefixes|
      invariant r == models + ModelEntries(p, m, prefixes[..n])
    {
      assert prefixes[..n + 1][..n] == prefixes[..n];
      r := r + [EntryFor(p, m, prefixes[n])];
    }
    assert prefixes[..|prefixes|] == prefixes;
  }

  method PushProvider(models: seq<Entry>, p: Provider) returns (r: seq<Entry>)
    ensures r == models + ProviderEntries(p, p.models)
  {
    r := models;
    for k := 0 to |p.models|
      invariant r == models + ProviderEntries(p, p.models[..k])
    {
      assert p.models[..k + 1][..k] == p.models[..k];
      r := PushEntries(r, p, p.models[k]);
    }
    assert p.models[..|p.models|] == p.models;
  }

  method GetAllModelsFromRegistry(registry: seq<Provider>) returns (models: seq<Entry>)
    ensures models == Catalog(registry)
  {
    models := [];
    for i := 0 to |registry|
      invariant models == Catalog(registry[..i])
    {
      assert registry[..i + 1][..i] == registry[..i];
      models := PushProvider(models, registry[i]);
    }
    assert registry[..|registry|] == registry;
  }

  /** The place of a catalog entry: provider `i`, its model `k`, listed under its prefix `n`. */
  predicate Place(registry: seq<Provider>, i: int, k: int, n: int) {
    0 <= i < |registry| && 0 <= k < |registry[i].models| && 0 <= n < |Prefixes(registry[i])|
  }

  function At(registry: seq<Provider>, i: int, k: int, n: int): Entry
    requires Place(registry, i, k, n)
  {
    EntryFor(registry[i], registry[i].models[k], Prefixes(registry[i])[n])
  }

  lemma {:induction false} ModelEntriesAre(p: Provider, m: Model, prefixes: seq<string>, e: Entry)
    ensures e in ModelEntries(p, m, prefixes)
            <==> exists n :: 0 <= n < |prefixes| && e == EntryFor(p, m, prefixes[n])
  {
    if prefixes != [] {
      ModelEntriesAre(p, m, prefixes[..|prefixes| - 1], e);
    }
  }

  /** The entry that a provider and a model give under one of the provider's names. */
  predicate IsEntry(p: Provider, m: Model, prefix: string, e: Entry) {
    && prefix != "" && (prefix == p.key || p.alias == Some(prefix))
    && e.id == prefix + "/" + m.id && e.name == m.name && e.provider == p.key
  }

  ghost predicate ListedBy(p: Provider, models: seq<Model>, e: Entry) {
    exists k, prefix :: 0 <= k < |models| && IsEntry(p, models[k], prefix, e)
  }

  ghost predicate Listed(registry: seq<Provider>, e: Entry) {
    exists i :: 0 <= i < |registry| && ListedBy(registry[i], registry[i].models, e)
  }

  lemma PrefixesAre(p: Provider, prefix: string)
    ensures prefix in Prefixes(p) <==> prefix != "" && (prefix == p.key || p.alias == Some(prefix))
  {
  }

  lemma ModelEntriesOf(p: Provider, m: Model, e: Entry)
    ensures e in ModelEntries(p, m, Prefixes(p)) <==> exists prefix :: IsEntry(p, m, prefix, e)
  {
    var prefixes := Prefixes(p);
    ModelEntriesAre(p, m, prefixes, e);
    if n :| 0 <= n < |prefixes| && e == EntryFor(p, m, prefixes[n]) {
      PrefixesAre(p, prefixes[n]);
      assert prefixes[n] in prefixes && IsEntry(p, m, prefixes[n], e);
    }
    if prefix :| IsEntry(p, m, prefix, e) {
      PrefixesAre(p, prefix);
      var n :| 0 <= n < |prefixes| && prefixes[n] == prefix;
    }
  }

  lemma {:induction false} ProviderEntriesAre(p: Provider, models: seq<Model>, e: Entry)
    ensures e in ProviderEntries(p, models) <==> ListedBy(p, models, e)
  {
    if models != [] {
      var rest, m := models[..|models| - 1], models[|models| - 1];
      ProviderEntriesAre(p, rest, e);
      ModelEntriesOf(p, m, e);
      if ListedBy(p, rest, e) {
        var k, prefix :| 0 <= k < |rest| && IsEntry(p, rest[k], prefix, e);
        assert IsEntry(p, models[k], prefix, e);
      }
      if prefix :| IsEntry(p, m, prefix, e) {
        assert IsEntry(p, models[|models| - 1], prefix, e);
      }
    }
  }

  lemma ListedLast(rest: seq<Provider>, p: Provider, e: Entry)
    ensures Listed(rest + [p], e) <==> Listed(rest, e) || ListedBy(p, p.models, e)
  {
    var all := rest + [p];
    assert all[|rest|] == p;
    if i :| 0 <= i < |rest| && ListedBy(rest[i], rest[i].models, e) {
      assert all[i] == rest[i];
    }
  }

  /** The catalog holds an entry for each provider, model and non-empty name of the provider, and no other. */
  lemma {:induction false} CatalogHolds(registry: seq<Provider>, e: Entry)
    ensures e in Catalog(registry) <==> Listed(registry, e)
  {
    if registry != [] {
      var rest, p := registry[..|registry| - 1], registry[|registry| - 1];
      CatalogHolds(rest, e);
      ProviderEntriesAre(p, p.models, e);
      ListedLast(rest, p, e);
      assert rest + [p] == registry;
    }
  }

  // ---------------------------------------------------------------- the order of the catalog

  lemma {:induction false} ProviderEntriesConcat(p: Provider, a: seq<Model>, b: seq<Model>)
    ensures ProviderEntries(p, a + b) == ProviderEntries(p, a) + ProviderEntries(p, b)
  {
    if b == [] {
      assert a + b == a;
    } else {
      assert (a + b)[..|a + b| - 1] == a + b[..|b| - 1];
      ProviderEntriesConcat(p, a, b[..|b| - 1]);
    }
  }

  lemma CatalogLast(a: seq<Provider>, p: Provider)
    ensures Catalog(a + [p]) == Catalog(a) + ProviderEntries(p, p.models)
  {
    assert (a + [p])[..|a|] == a;
  }

  lemma Associate(a: seq<Entry>, b: seq<Entry>, c: seq<Entry>)
    ensures (a + b) + c == a + (b + c)
  {
  }

  lemma {:induction false} CatalogConcat(a: seq<Provider>, b: seq<Provider>)
    ensures Catalog(a + b) == Catalog(a) + Catalog(b)
  {
    if b == [] {
      assert a + b == a;
    } else {
      var init, last := b[..|b| - 1], b[|b| - 1];
      CatalogConcat(a, init);
      assert a + b == (a + init) + [last];
      CatalogLast(a + init, last);
      Associate(Catalog(a), Catalog(init), ProviderEntries(last, last.models));
    }
  }

  lemma OneModel(p: Provider, m: Model)
    ensures ProviderEntries(p, [m])
            == (if p.key != "" then [Entry(p.key + "/" + m.id, m.name, p.key)] else [])
               + match p.alias
                 case Some(alias) => if alias == "" then [] else [Entry(alias + "/" + m.id, m.name, p.key)]
                 case None => []
  {
    assert [m][..0] == [];
    OnePrefix(p, m, p.key);
    if p.alias.Some? {
      OnePrefix(p, m, p.alias.value);
      assert [p.key, p.alias.value][..1] == [p.key];
    }
  }

  lemma OnePrefix(p: Provider, m: Model, prefix: string)
    ensures ModelEntries(p, m, [prefix]) == [Entry(prefix + "/" + m.id, m.name, p.key)]
  {
    assert [prefix][..0] == [];
  }

  /**
   * The catalog goes through the providers in their order, through the models of each in theirs, and lists each
   * model under the provider's id first and its alias second.
   */
  lemma CatalogOrder(a: seq<Provider>, b: seq<Provider>, p: Provider, x: seq<Model>, y: seq<Model>, m: Model)
    ensures Catalog(a + b) == Catalog(a) + Catalog(b)
    ensures Catalog([p.(models := x + y)]) == Catalog([p.(models := x)]) + Catalog([p.(models := y)])
    ensures Catalog([p.(models := [m])])
            == (if p.key != "" then [Entry(p.key + "/" + m.id, m.name, p.key)] else [])
               + match p.alias
                 case Some(alias) => if alias == "" then [] else [Entry(alias + "/" + m.id, m.name, p.key)]
                 case None => []
  {
    CatalogConcat(a, b);
    OneProvider(p, x);
    OneProvider(p, y);
    OneProvider(p, x + y);
    ProviderEntriesConcat(p, x, y);
    OneProvider(p, [m]);
    OneModel(p, m);
  }

  lemma OneProvider(p: Provider, models: seq<Model>)
    ensures Catalog([p.(models := models)]) == ProviderEntries(p, models)
  {
    var q := p.(models := models);
    assert [q][..0] == [];
    SameProvider(p, q, models);
  }

  /** The entries look only at the provider's names. */
  lemma {:induction false} SameProvider(p: Provider, q: Provider, models: seq<Model>)
    requires p.key == q.key && p.alias == q.alias
    ensures ProviderEntries(p, models) == ProviderEntries(q, models)
  {
    if models != [] {
      SameProvider(p, q, models[..|models| - 1]);
      SameModel(p, q, models[|models| - 1], Prefixes(p));
    }
  }

  lemma {:induction false} SameModel(p: Provider, q: Provider, m: Model, prefixes: seq<string>)
    requires p.key == q.key
    ensures ModelEntries(p, m, prefixes) == ModelEntries(q, m, prefixes)
  {
    if prefixes != [] {
      SameModel(p, q, m, prefixes[..|prefixes| - 1]);
    }
  }

  // ---------------------------------------------------------------- round trip

  /** The id of the entry parses to the provider and the model that the entry was made from. */
  predicate ParsesBack(registry: seq<Provider>, i: int, k: int, n: int)
    requires Place(registry, i, k, n)
  {
    Parse(Some(At(registry, i, k, n).id), registry)
    == Parsed(Some(registry[i].key), Some(registry[i].models[k].id))
  }

  lemma PrefixClaims(p: Provider, n: nat, id: string)
    requires n < |Prefixes(p)|
    ensures Claims(p, Prefixes(p)[n] + "/" + id)
  {
    assert Prefixes(p)[n] + "/" + id == (Prefixes(p)[n] + "/") + id;
  }

  lemma AfterPrefix(prefix: string, id: string)
    ensures (prefix + "/" + id)[|prefix| + 1..] == id
  {
  }

  lemma SameLengthPrefix(a: string, b: string, id: string)
    requires StartsAt(b + "/" + id, a) && |a| == |b|
    ensures a == b
  {
    assert a == (b + "/" + id)[..|a|];
  }

  /**
   * Exactly when an id of the catalog parses back: no earlier provider claims it, and an id listed under
   * the alias does not also start with the provider's own key.
   */
  lemma ParsesBackIff(registry: seq<Provider>, i: int, k: int, n: int)
    requires Distinct(Keys(registry)) && Place(registry, i, k, n)
    ensures var id := At(registry, i, k, n).id;
            ParsesBack(registry, i, k, n)
            <==> (&& (forall j :: 0 <= j < i ==> !Claims(registry[j], id))
                  && (StartsAt(id, registry[i].key) ==> Prefixes(registry[i])[n] == registry[i].key))
  {
    var p, m, prefix := registry[i], registry[i].models[k], Prefixes(registry[i])[n];
    var id := At(registry, i, k, n).id;
    PrefixClaims(p, n, m.id);
    AfterPrefix(prefix, m.id);
    var c := FirstClaim(registry, id);
    assert c <= i;
    if c < i {
      assert Keys(registry)[c] != Keys(registry)[i];
    } else if StartsAt(id, p.key) && id[|p.key| + 1..] == m.id {
      SameLengthPrefix(p.key, prefix, m.id);
    }
  }

  predicate SlashFreeNames(registry: seq<Provider>) {
    forall i :: 0 <= i < |registry|
      ==> SlashFree(registry[i].key) && (registry[i].alias.Some? ==> SlashFree(registry[i].alias.value))
  }

  lemma SlashFreePrefix(a: string, b: string, id: string)
    requires SlashFree(a) && SlashFree(b)
    ensures StartsAt(b + "/" + id, a) <==> a == b
  {
    var s := b + "/" + id;
    IndexAfter(b, '/', id);
    if StartsAt(s, a) {
      assert s == a + "/" + s[|a| + 1..];
      IndexAfter(a, '/', s[|a| + 1..]);
      SameLengthPrefix(a, b, id);
    }
  }

  /** With slash-free names a provider claims an id exactly when it is known by the id's prefix. */
  lemma ClaimsBySlashFreeName(p: Provider, prefix: string, id: string)
    requires SlashFree(p.key) && (p.alias.Some? ==> SlashFree(p.alias.value)) && SlashFree(prefix) && prefix != ""
    ensures Claims(p, prefix + "/" + id) <==> prefix in Prefixes(p)
  {
    SlashFreePrefix(p.key, prefix, id);
    if p.alias.Some? {
      SlashFreePrefix(p.alias.value, prefix, id);
    }
  }

  /** No name of a provider with models is also a name of an earlier provider. */
  predicate NamesApart(registry: seq<Provider>) {
    forall j, i, n :: 0 <= j < i < |registry| && registry[i].models != [] && 0 <= n < |Prefixes(registry[i])|
      ==> Prefixes(registry[i])[n] !in Prefixes(registry[j])
  }

  lemma SlashFreeParsesBack(registry: seq<Provider>, i: int, k: int, n: int)
    requires Distinct(Keys(registry)) && SlashFreeNames(registry) && Place(registry, i, k, n)
    ensures ParsesBack(registry, i, k, n)
            <==> forall j :: 0 <= j < i ==> Prefixes(registry[i])[n] !in Prefixes(registry[j])
  {
    var prefix, id := Prefixes(registry[i])[n], registry[i].models[k].id;
    ParsesBackIff(registry, i, k, n);
    forall j | 0 <= j < i
      ensures Claims(registry[j], prefix + "/" + id) <==> prefix in Prefixes(registry[j])
    {
      ClaimsBySlashFreeName(registry[j], prefix, id);
    }
    SlashFreePrefix(registry[i].key, prefix, id);
  }

  /** With slash-free names every id of the catalog parses back exactly when the names are apart. */
  lemma CatalogRoundTrip(registry: seq<Provider>)
    requires Distinct(Keys(registry)) && SlashFreeNames(registry)
    ensures (forall i, k, n :: Place(registry, i, k, n) ==> ParsesBack(registry, i, k, n)) <==> NamesApart(registry)
  {
    forall i, k, n | Place(registry, i, k, n)
      ensures ParsesBack(registry, i, k, n)
              <==> forall j :: 0 <= j < i ==> Prefixes(registry[i])[n] !in Prefixes(registry[j])
    {
      SlashFreeParsesBack(registry, i, k, n);
    }
    if forall i, k, n :: Place(registry, i, k, n) ==> ParsesBack(registry, i, k, n) {
      forall j, i, n | 0 <= j < i < |registry| && registry[i].models != [] && 0 <= n < |Prefixes(registry[i])|
        ensures Prefixes(registry[i])[n] !in Prefixes(registry[j])
      {
        assert Place(registry, i, 0, n);
      }
    }
  }
}
