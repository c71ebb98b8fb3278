/**
 * The embedding model names of `embeddingRegistry.ts`: parsing, the catalog, and the check for models
 * whose vectors have different dimensions.
 */
module EmbeddingRegistry {
  import opened Options
  import opened OrderedMaps
  import opened Strings

  datatype Model = Model(id: string, name: string, dimensions: Option<int>)

  datatype Provider = Provider(key: string, models: seq<Model>)

  datatype Parsed = Parsed(provider: Option<string>, model: Option<string>)

  datatype Entry = Entry(id: string, name: string, provider: string, dimensions: Option<int>)

  /** The two tables of the file: the providers in iteration order, and the names they are also known by. */
  datatype Registry = Registry(providers: seq<Provider>, aliases: map<string, string>) {

    ghost predicate Valid() {
      forall i, j :: 0 <= i < j < |providers| ==> providers[i].key != providers[j].key
    }

    function Resolve(id: string): string {
      if id in aliases && aliases[id] != "" then aliases[id] else id
    }

    function Get(id: string): Option<Provider> {
      FindKey(providers, id)
    }

    function NormalizeProviderScopedModelId(provider: string, model: string): string {
      var resolved := Resolve(provider);
      var config := Get(resolved);
      if config.Some? && Lists(config.value, model) then model
      else if config.Some? && Lists(config.value, resolved + "/" + model) then resolved + "/" + model
      else WithoutPrefix(provider, model)
    }

    /** The parser; `dynamic` holds the ids of the caller's own providers. */
    function ParseEmbeddingModel(text: Option<string>, dynamic: seq<string>): Parsed {
      if text.None? || text.value == "" then Parsed(None, None)
      else
        var s := text.value;
        var slash := IndexOf(s, '/');
        if 0 < slash < |s| then ParsePrefixed(s, s[..slash], s[slash + 1..], dynamic)
        else Parsed(FirstListing(providers, s), Some(s))
    }

    function ParsePrefixed(s: string, head: string, tail: string, dynamic: seq<string>): Parsed {
      var resolved := Resolve(head);
      if Get(resolved).Some? then Parsed(Some(resolved), Some(NormalizeProviderScopedModelId(resolved, tail)))
      else
        match FirstPrefix(Keys(providers), s)
        case Some(key) => Parsed(Some(key), Some(NormalizeProviderScopedModelId(key, WithoutPrefix(key, s))))
        case None =>
          match FirstPrefix(dynamic, s)
          case Some(key) => Parsed(Some(key), Some(WithoutPrefix(key, s)))
          case None => Parsed(Some(head), Some(tail))
    }

    function GetEmbeddingDimension(s: string): Option<int> {
      var parsed := ParseEmbeddingModel(Some(s), []);
      if parsed.provider in {None, Some("")} || parsed.model in {None, Some("")} then None
      else
        match Get(Resolve(parsed.provider.value))
        case None => None
        case Some(config) => FirstDimensions(config.models, parsed.model.value)
    }
  }

  function Keys(providers: seq<Provider>): seq<string> {
    seq(|providers|, i requires 0 <= i < |providers| => providers[i].key)
  }

  function FindKey(providers: seq<Provider>, key: string): Option<Provider> {
    if providers == [] then None
    else if providers[0].key == key then Some(providers[0])
    else FindKey(providers[1..], key)
  }

  predicate Lists(p: Provider, id: string) {
    exists k :: 0 <= k < |p.models| && p.models[k].id == id
  }

  function FirstListing(providers: seq<Provider>, id: string): Option<string> {
    if providers == [] then None
    else if Lists(providers[0], id) then Some(providers[0].key)
    else FirstListing(providers[1..], id)
  }

  function FirstPrefix(keys: seq<string>, s: string): Option<string> {
    if keys == [] then None
    else if StartsAt(s, keys[0]) then Some(keys[0])
    else FirstPrefix(keys[1..], s)
  }

  function WithoutPrefix(prefix: string, s: string): string {
    if StartsAt(s, prefix) then s[|prefix| + 1..] else s
  }

  function ToProviderScopedModelId(provider: string, model: string): string {
    if StartsAt(model, provider) then model else provider + "/" + model
  }

  function FirstDimensions(models: seq<Model>, id: string): Option<int> {
    if models == [] then None
    else if models[0].id == id then models[0].dimensions
    else FirstDimensions(models[1..], id)
  }

  // ---------------------------------------------------------------- the catalog

  function ProviderEntries(key: string, models: seq<Model>): seq<Entry> {
    if models == [] then []
    else
      var m := models[|models| - 1];
      ProviderEntries(key, models[..|models| - 1])
      + [Entry(ToProviderScopedModelId(key, m.id), m.name, key, m.dimensions)]
  }

  function Catalog(providers: seq<Provider>): seq<Entry> {
    if providers == [] then []
    else
      var p := providers[|providers| - 1];
      Catalog(providers[..|providers| - 1]) + ProviderEntries(p.key, p.models)
  }

  method PushProvider(models: seq<Entry>, p: Provider) returns (r: seq<Entry>)
    ensures r == models + ProviderEntries(p.key, p.models)
  {
    r := models;
    for k := 0 to |p.models|
      invariant r == models + ProviderEntries(p.key, p.models[..k])
    {
      assert p.models[..k + 1][..k] == p.models[..k];
      var m := p.models[k];
      r := r + [Entry(ToProviderScopedModelId(p.key, m.id), m.name, p.key, m.dimensions)];
    }
    assert p.models[..|p.models|] == p.models;
  }

  method GetAllEmbeddingModels(registry: Registry) returns (models: seq<Entry>)
    ensures models == Catalog(registry.providers)
  {
    models := [];
    var providers := registry.providers;
    for i := 0 to |providers|
      invariant models == Catalog(providers[..i])
    {
      assert providers[..i + 1][..i] == providers[..i];
      models := PushProvider(models, providers[i]);
    }
    assert providers[..|providers|] == providers;
  }

  ghost predicate ListedBy(p: Provider, e: Entry) {
    exists k :: && 0 <= k < |p.models| && e.id == ToProviderScopedModelId(p.key, p.models[k].id)
                && e.name == p.models[k].name && e.provider == p.key && e.dimensions == p.models[k].dimensions
  }

  lemma {:induction false} ProviderEntriesAre(p: Provider, e: Entry)
    ensures e in ProviderEntries(p.key, p.models) <==> ListedBy(p, e)
    decreases |p.models|
  {
    if p.models != [] {
      var n := |p.models| - 1;
      var rest := p.(models := p.models[..n]);
      ProviderEntriesAre(rest, e);
      assert ListedBy(p, e) <==> ListedBy(rest, e)
                                 || e == Entry(ToProviderScopedModelId(p.key, p.models[n].id), p.models[n].name,
                                               p.key, p.models[n].dimensions);
    }
  }

  /** The catalog holds an entry for each model of each provider, and no other. */
  lemma {:induction false} CatalogHolds(providers: seq<Provider>, e: Entry)
    ensures e in Catalog(providers) <==> exists i :: 0 <= i < |providers| && ListedBy(providers[i], e)
  {
    if providers != [] {
      var n := |providers| - 1;
      CatalogHolds(providers[..n], e);
      ProviderEntriesAre(providers[n], e);
    }
  }

  lemma CatalogLast(a: seq<Provider>, p: Provider)
    ensures Catalog(a + [p]) == Catalog(a) + ProviderEntries(p.key, p.models)
  {
    assert (a + [p])[..|a|] == a;
  }

  lemma Associate(a: seq<Entry>, b: seq<Entry>, c: seq<Entry>)
    ensures (a + b) + c == a + (b + c)
  {
  }

  lemma {:induction false} CatalogConcat(a: seq<Provider>, b: seq<Provider>)
    ensures Catalog(a + b) == Catalog(a) + Catalog(b)
  {
    if b == [] {
      assert a + b == a;
    } else {
      var init, last := b[..|b| - 1], b[|b| - 1];
      CatalogConcat(a, init);
      assert a + b == (a + init) + [last];
      CatalogLast(a + init, last);
      Associate(Catalog(a), Catalog(init), ProviderEntries(last.key, last.models));
    }
  }

  lemma {:induction false} ProviderEntriesConcat(key: string, a: seq<Model>, b: seq<Model>)
    ensures ProviderEntries(key, a + b) == ProviderEntries(key, a) + ProviderEntries(key, b)
  {
    if b == [] {
      assert a + b == a;
    } else {
      assert (a + b)[..|a + b| - 1] == a + b[..|b| - 1];
      ProviderEntriesConcat(key, a, b[..|b| - 1]);
    }
  }

  lemma OneProvider(key: string, models: seq<Model>)
    ensures Catalog([Provider(key, models)]) == ProviderEntries(key, models)
  {
    assert [Provider(key, models)][..0] == [];
  }

  /** The catalog goes through the providers in their order and lists the models of each in theirs. */
  lemma CatalogOrder(a: seq<Provider>, b: seq<Provider>, key: string, x: seq<Model>, y: seq<Model>, m: Model)
    ensures Catalog(a + b) == Catalog(a) + Catalog(b)
    ensures Catalog([Provider(key, x + y)]) == Catalog([Provider(key, x)]) + Catalog([Provider(key, y)])
    ensures Catalog([Provider(key, [m])])
            == [Entry(if key + "/" <= m.id then m.id else key + "/" + m.id, m.name, key, m.dimensions)]
  {
    CatalogConcat(a, b);
    OneProvider(key, x);
    OneProvider(key, y);
    OneProvider(key, x + y);
    ProviderEntriesConcat(key, x, y);
    OneProvider(key, [m]);
    assert [m][..0] == [];
  }

  // ---------------------------------------------------------------- any name

  lemma {:induction false} FirstPrefixMeans(keys: seq<string>, s: string)
    ensures FirstPrefix(keys, s) == None ==> forall i :: 0 <= i < |keys| ==> !(keys[i] + "/" <= s)
    ensures forall i :: 0 <= i < |keys| && keys[i] + "/" <= s && (forall j :: 0 <= j < i ==> !(keys[j] + "/" <= s))
              ==> FirstPrefix(keys, s) == Some(keys[i])
  {
    if keys != [] {
      FirstPrefixMeans(keys[1..], s);
      assert forall i :: 1 <= i < |keys| ==> keys[i] == keys[1..][i - 1];
      forall i | && 0 <= i < |keys| && keys[i] + "/" <= s
                 && (forall j :: 0 <= j < i ==> !(keys[j] + "/" <= s))
        ensures FirstPrefix(keys, s) == Some(keys[i])
      {
        if i > 0 {
          assert !(keys[0] + "/" <= s);
          assert forall j :: 0 <= j < i - 1 ==> keys[1..][j] == keys[j + 1];
        }
      }
    }
  }

  /**
   * A name `head/tail` whose head leads to no provider, by itself or as an alias, and that starts with no
   * registered id: it belongs to the first of the caller's providers it starts with, else to `head`.
   */
  lemma UnregisteredParses(r: Registry, head: string, tail: string, dynamic: seq<string>)
    requires head != "" && SlashFree(head)
    requires forall i :: 0 <= i < |r.providers| ==>
               r.providers[i].key != r.Resolve(head) && !(r.providers[i].key + "/" <= head + "/" + tail)
    ensures var s := head + "/" + tail;
            && (forall i, rest :: && 0 <= i < |dynamic| && s == dynamic[i] + "/" + rest
                                  && (forall j :: 0 <= j < i ==> !(dynamic[j] + "/" <= s))
                  ==> r.ParseEmbeddingModel(Some(s), dynamic) == Parsed(Some(dynamic[i]), Some(rest)))
            && ((forall i :: 0 <= i < |dynamic| ==> !(dynamic[i] + "/" <= s))
                  ==> r.ParseEmbeddingModel(Some(s), dynamic) == Parsed(Some(head), Some(tail)))
  {
    var s := head + "/" + tail;
    HeadSplits(head, tail);
    NoKey(r.providers, r.Resolve(head));
    NoPrefix(Keys(r.providers), s);
    FirstPrefixMeans(dynamic, s);
    if forall i :: 0 <= i < |dynamic| ==> !(dynamic[i] + "/" <= s) {
      NoPrefix(dynamic, s);
    }
    forall i, rest | && 0 <= i < |dynamic| && s == dynamic[i] + "/" + rest
                     && (forall j :: 0 <= j < i ==> !(dynamic[j] + "/" <= s))
      ensures r.ParseEmbeddingModel(Some(s), dynamic) == Parsed(Some(dynamic[i]), Some(rest))
    {
      assert dynamic[i] + "/" <= s;
      assert s[|dynamic[i]| + 1..] == rest;
    }
  }

  lemma HeadSplits(head: string, tail: string)
    requires head != "" && SlashFree(head)
    ensures var s := head + "/" + tail;
            IndexOf(s, '/') == |head| && |head| < |s| && s[..|head|] == head && s[|head| + 1..] == tail
  {
    IndexAfter(head, '/', tail);
    assert head + "/" + tail == head + ['/'] + tail;
  }

  lemma {:induction false} NoKey(providers: seq<Provider>, key: string)
    requires forall i :: 0 <= i < |providers| ==> providers[i].key != key
    ensures FindKey(providers, key) == None
  {
    if providers != [] {
      NoKey(providers[1..], key);
    }
  }

  lemma {:induction false} NoPrefix(keys: seq<string>, s: string)
    requires forall i :: 0 <= i < |keys| ==> !(keys[i] + "/" <= s)
    ensures FirstPrefix(keys, s) == None
  {
    if keys != [] {
      NoPrefix(keys[1..], s);
    }
  }

  /**
   * A name `head/tail` whose head is a registered provider, or an alias of one: the model is `tail` if the provider
   * lists it, else the provider's id and `tail` if it lists that, else `tail` without the provider's prefix.
   */
  lemma RegisteredParses(r: Registry, head: string, tail: string, dynamic: seq<string>, i: nat)
    requires r.Valid() && head != "" && SlashFree(head) && i < |r.providers|
    requires var key := r.providers[i].key;
             && key == (if head in r.aliases && r.aliases[head] != "" then r.aliases[head] else head)
             && !(key in r.aliases && r.aliases[key] != "" && r.aliases[key] != key)
    ensures var p := r.providers[i];
            r.ParseEmbeddingModel(Some(head + "/" + tail), dynamic)
            == Parsed(Some(p.key),
                      Some(if Lists(p, tail) then tail
                           else if Lists(p, p.key + "/" + tail) then p.key + "/" + tail
                           else if p.key + "/" <= tail then tail[|p.key| + 1..] else tail))
  {
    HeadSplits(head, tail);
    FindKeyAt(r.providers, i);
  }

  /** A name without a slash is a bare model name: its provider is the first that lists it, if there is one. */
  lemma BareNameParses(r: Registry, s: string, dynamic: seq<string>, i: nat)
    requires r.Valid() && s != "" && SlashFree(s) && i < |r.providers|
    requires Lists(r.providers[i], s) && forall j :: 0 <= j < i ==> !Lists(r.providers[j], s)
    ensures r.ParseEmbeddingModel(Some(s), dynamic) == Parsed(Some(r.providers[i].key), Some(s))
  {
    FirstListingIs(r.providers, i, s);
  }

  // ---------------------------------------------------------------- round trip

  lemma {:induction false} FindKeyAt(providers: seq<Provider>, i: nat)
    requires i < |providers|
    requires forall j :: 0 <= j < i ==> providers[j].key != providers[i].key
    ensures FindKey(providers, providers[i].key) == Some(providers[i])
  {
    if i > 0 {
      assert providers[0].key != providers[i].key;
      FindKeyAt(providers[1..], i - 1);
    }
  }

  lemma {:induction false} FirstListingIs(providers: seq<Provider>, i: nat, id: string)
    requires i < |providers| && Lists(providers[i], id)
    requires forall j, k :: 0 <= j < k < |providers| ==> providers[j].key != providers[k].key
    ensures FirstListing(providers, id) == Some(providers[i].key)
            <==> forall j :: 0 <= j < i ==> !Lists(providers[j], id)
    ensures FirstListing(providers, id).Some?
            && exists j :: 0 <= j <= i && FirstListing(providers, id) == Some(providers[j].key)
  {
    if i > 0 {
      if Lists(providers[0], id) {
        assert FirstListing(providers, id) == Some(providers[0].key);
      } else {
        var rest := providers[1..];
        FirstListingIs(rest, i - 1, id);
        assert forall j :: 1 <= j < |providers| ==> providers[j] == rest[j - 1];
        var j :| 0 <= j <= i - 1 && FirstListing(rest, id) == Some(rest[j].key);
        assert FirstListing(providers, id) == Some(providers[j + 1].key);
      }
    }
  }

  /** The catalog id of model `k` of provider `i` parses to that provider and exactly that model id. */
  predicate ParsesBack(r: Registry, i: nat, k: nat, dynamic: seq<string>)
    requires i < |r.providers| && k < |r.providers[i].models|
  {
    var key, id := r.providers[i].key, r.providers[i].models[k].id;
    r.ParseEmbeddingModel(Some(ToProviderScopedModelId(key, id)), dynamic) == Parsed(Some(key), Some(id))
  }

  /** The catalog id parses to its provider, whatever the model. */
  predicate FindsProvider(r: Registry, i: nat, k: nat, dynamic: seq<string>)
    requires i < |r.providers| && k < |r.providers[i].models|
  {
    var key, id := r.providers[i].key, r.providers[i].models[k].id;
    r.ParseEmbeddingModel(Some(ToProviderScopedModelId(key, id)), dynamic).provider == Some(key)
  }

  /** The provider lists the model also under the name that is left when its own prefix is cut off. */
  predicate ListsShortForm(p: Provider, id: string) {
    StartsAt(id, p.key) && Lists(p, WithoutPrefix(p.key, id))
  }

  lemma ScopedSplits(key: string, id: string)
    requires SlashFree(key) && key != ""
    ensures var s := ToProviderScopedModelId(key, id);
            IndexOf(s, '/') == |key| && |key| < |s| && s[..|key|] == key && s[|key| + 1..] == WithoutPrefix(key, id)
  {
    var tail := WithoutPrefix(key, id);
    IndexAfter(key, '/', tail);
    assert ToProviderScopedModelId(key, id) == key + ['/'] + tail;
  }

  /** A provider's scoped name for what is left of a prefixed id is that id. */
  lemma Rejoin(key: string, id: string)
    requires StartsAt(id, key)
    ensures key + "/" + WithoutPrefix(key, id) == id
  {
    assert id == id[..|key| + 1] + id[|key| + 1..];
  }

  /**
   * The exact condition for a provider whose id has no slash. Its catalog ids are looked up under what the
   * id is an alias of. If that is the id itself, the model comes back unless the provider also lists it
   * without the provider's prefix; if it is no registered provider, the id must be the first registered
   * prefix of the catalog id, and the model must not carry the prefix; otherwise another provider is found.
   */
  lemma ParsesBackIff(r: Registry, i: nat, k: nat, dynamic: seq<string>)
    requires r.Valid() && i < |r.providers| && k < |r.providers[i].models|
    requires SlashFree(r.providers[i].key) && r.providers[i].key != ""
    ensures var p, id := r.providers[i], r.providers[i].models[k].id;
            ParsesBack(r, i, k, dynamic)
            <==> if r.Resolve(p.key) == p.key then !ListsShortForm(p, id)
                 else if r.Get(r.Resolve(p.key)).Some? then false
                 else && FirstPrefix(Keys(r.providers), ToProviderScopedModelId(p.key, id)) == Some(p.key)
                      && !StartsAt(id, p.key)
    ensures r.Resolve(r.providers[i].key) == r.providers[i].key ==> FindsProvider(r, i, k, dynamic)
  {
    var p := r.providers[i];
    ScopedSplits(p.key, p.models[k].id);
    if r.Resolve(p.key) == p.key {
      OwnNameParses(r, i, k, dynamic);
    } else if r.Get(r.Resolve(p.key)).None? {
      AliasNameParses(r, i, k, dynamic);
    }
  }

  lemma OwnNameParses(r: Registry, i: nat, k: nat, dynamic: seq<string>)
    requires r.Valid() && i < |r.providers| && k < |r.providers[i].models|
    requires SlashFree(r.providers[i].key) && r.providers[i].key != ""
    requires r.Resolve(r.providers[i].key) == r.providers[i].key
    ensures ParsesBack(r, i, k, dynamic) <==> !ListsShortForm(r.providers[i], r.providers[i].models[k].id)
    ensures FindsProvider(r, i, k, dynamic)
  {
    var p := r.providers[i];
    var id := p.models[k].id;
    ScopedSplits(p.key, id);
    FindKeyAt(r.providers, i);
    assert Lists(p, id);
    if StartsAt(id, p.key) {
      Rejoin(p.key, id);
    }
  }

  lemma {:induction false} SomePrefix(keys: seq<string>, s: string, key: string)
    requires key in keys && StartsAt(s, key)
    ensures FirstPrefix(keys, s).Some?
  {
    if !StartsAt(s, keys[0]) {
      SomePrefix(keys[1..], s, key);
    }
  }

  lemma AliasNameParses(r: Registry, i: nat, k: nat, dynamic: seq<string>)
    requires r.Valid() && i < |r.providers| && k < |r.providers[i].models|
    requires SlashFree(r.providers[i].key) && r.providers[i].key != ""
    requires r.Get(r.Resolve(r.providers[i].key)).None?
    ensures var p, id := r.providers[i], r.providers[i].models[k].id;
            ParsesBack(r, i, k, dynamic)
            <==> && FirstPrefix(Keys(r.providers), ToProviderScopedModelId(p.key, id)) == Some(p.key)
                 && !StartsAt(id, p.key)
  {
    var p := r.providers[i];
    var id := p.models[k].id;
    var s := ToProviderScopedModelId(p.key, id);
    ScopedSplits(p.key, id);
    ScopedStarts(p.key, id);
    assert Keys(r.providers)[i] == p.key;
    SomePrefix(Keys(r.providers), s, p.key);
    if StartsAt(id, p.key) {
      assert |WithoutPrefix(p.key, WithoutPrefix(p.key, id))| < |id|;
    }
  }

  lemma ScopedStarts(key: string, id: string)
    ensures StartsAt(ToProviderScopedModelId(key, id), key)
    ensures WithoutPrefix(key, ToProviderScopedModelId(key, id)) == WithoutPrefix(key, id)
  {
    if !StartsAt(id, key) {
      assert key + "/" + id == (key + "/") + id;
    }
  }

  /**
   * The exact condition for a provider whose id is empty or starts with a slash: it is found only through
   * a model name that carries its prefix, as the first provider that lists it.
   */
  lemma BareNameParsesBackIff(r: Registry, i: nat, k: nat, dynamic: seq<string>)
    requires r.Valid() && i < |r.providers| && k < |r.providers[i].models|
    requires r.providers[i].key == "" || r.providers[i].key[0] == '/'
    ensures var key, id := r.providers[i].key, r.providers[i].models[k].id;
            ParsesBack(r, i, k, dynamic)
            <==> StartsAt(id, key) && forall j :: 0 <= j < i ==> !Lists(r.providers[j], id)
  {
    var key, id := r.providers[i].key, r.providers[i].models[k].id;
    var s := ToProviderScopedModelId(key, id);
    ScopedStarts(key, id);
    assert s[0] == (key + "/")[0] == '/';
    assert IndexOf(s, '/') == 0;
    assert Lists(r.providers[i], id);
    FirstListingIs(r.providers, i, id);
  }

  /** When normalising the model itself, without the provider's prefix, gives it back. */
  lemma NormalizesToItself(r: Registry, key: string, id: string)
    requires !StartsAt(id, key)
    ensures r.NormalizeProviderScopedModelId(key, id) == id
            <==> match r.Get(r.Resolve(key))
                 case None => true
                 case Some(config) => Lists(config, id) || !Lists(config, r.Resolve(key) + "/" + id)
  {
    assert |r.Resolve(key) + "/" + id| > |id|;
  }

  /** When normalising what is left of `head/tail` gives `head/tail` back: only through the name `head`. */
  lemma NormalizesToJoined(r: Registry, key: string, head: string, tail: string)
    ensures r.NormalizeProviderScopedModelId(key, tail) == head + "/" + tail
            <==> && r.Resolve(key) == head && r.Get(head).Some?
                 && Lists(r.Get(head).value, head + "/" + tail) && !Lists(r.Get(head).value, tail)
  {
    var resolved := r.Resolve(key);
    assert |head + "/" + tail| > |tail| >= |WithoutPrefix(key, tail)|;
    if resolved + "/" + tail == head + "/" + tail {
      assert |resolved| == |head|;
      assert resolved == (resolved + "/" + tail)[..|head|];
      assert head == (head + "/" + tail)[..|head|];
    }
  }

  /** A longer text never normalises to `id`, whatever is listed. */
  lemma NormalizesToLonger(r: Registry, head: string, rest: string, id: string)
    ensures r.NormalizeProviderScopedModelId(head + "/" + rest, rest + "/" + id) != id
  {
    var key, tail := head + "/" + rest, rest + "/" + id;
    assert |tail| > |id| && |r.Resolve(key) + "/" + tail| > |id|;
    assert StartsAt(tail, key) ==> |WithoutPrefix(key, tail)| == |tail| - |key| - 1;
  }

  /**
   * The exact condition for a provider `head/rest`, by what is registered and listed. If `head`, or what it
   * is an alias of, is registered, the ids come back only in one contrived case: `head` and the provider are
   * aliases of each other, and `head` lists the model but not its short form. Otherwise the provider must be
   * the first registered prefix; a model without the provider's prefix comes back unless what the provider is
   * an alias of lists it with its own prefix only; a model with it only if the provider is its own name and
   * does not list the short form.
   */
  lemma SlashedNameParsesBackIff(r: Registry, i: nat, k: nat, dynamic: seq<string>, head: string, rest: string)
    requires r.Valid() && i < |r.providers| && k < |r.providers[i].models|
    requires r.providers[i].key == head + "/" + rest && SlashFree(head) && head != ""
    ensures var p, id := r.providers[i], r.providers[i].models[k].id;
            var w, own := WithoutPrefix(p.key, id), r.Resolve(p.key);
            ParsesBack(r, i, k, dynamic)
            <==> if r.Get(r.Resolve(head)).Some?
                 then && r.Resolve(head) == p.key && StartsAt(id, p.key)
                      && own == head && r.Get(head).Some?
                      && Lists(r.Get(head).value, id) && !Lists(r.Get(head).value, rest + "/" + w)
                 else && FirstPrefix(Keys(r.providers), ToProviderScopedModelId(p.key, id)) == Some(p.key)
                      && if StartsAt(id, p.key) then own == p.key && !Lists(p, w)
                         else r.Get(own).None? || Lists(r.Get(own).value, id)
                              || !Lists(r.Get(own).value, own + "/" + id)
  {
    var p, id := r.providers[i], r.providers[i].models[k].id;
    SlashedNameParse(r, i, k, dynamic, head, rest);
    if r.Get(r.Resolve(head)).Some? {
      SlashedTail(r, p.key, head, rest, id);
    } else {
      SlashedShort(r, i, k);
    }
  }

  /** What is left behind the first segment normalises to the model only in the contrived case. */
  lemma SlashedTail(r: Registry, key: string, head: string, rest: string, id: string)
    requires key == head + "/" + rest
    ensures var tail := rest + "/" + WithoutPrefix(key, id);
            r.NormalizeProviderScopedModelId(key, tail) == id
            <==> && StartsAt(id, key) && r.Resolve(key) == head && r.Get(head).Some?
                 && Lists(r.Get(head).value, id) && !Lists(r.Get(head).value, tail)
  {
    var tail := rest + "/" + WithoutPrefix(key, id);
    if StartsAt(id, key) {
      Rejoin(key, id);
      assert id == head + "/" + tail;
      NormalizesToJoined(r, key, head, tail);
    } else {
      NormalizesToLonger(r, head, rest, id);
    }
  }

  lemma SlashedShort(r: Registry, i: nat, k: nat)
    requires r.Valid() && i < |r.providers| && k < |r.providers[i].models|
    ensures var p, id := r.providers[i], r.providers[i].models[k].id;
            var w, own := WithoutPrefix(p.key, id), r.Resolve(p.key);
            r.NormalizeProviderScopedModelId(p.key, w) == id
            <==> if StartsAt(id, p.key) then own == p.key && !Lists(p, w)
                 else r.Get(own).None? || Lists(r.Get(own).value, id) || !Lists(r.Get(own).value, own + "/" + id)
  {
    var p, id := r.providers[i], r.providers[i].models[k].id;
    var w := WithoutPrefix(p.key, id);
    FindKeyAt(r.providers, i);
    assert Lists(p, id);
    if StartsAt(id, p.key) {
      Rejoin(p.key, id);
      NormalizesToJoined(r, p.key, p.key, w);
    } else {
      NormalizesToItself(r, p.key, id);
    }
  }

  /** Where the parser gets with the catalog id of a provider `head/rest`. */
  lemma SlashedNameParse(r: Registry, i: nat, k: nat, dynamic: seq<string>, head: string, rest: string)
    requires r.Valid() && i < |r.providers| && k < |r.providers[i].models|
    requires r.providers[i].key == head + "/" + rest && SlashFree(head) && head != ""
    ensures var p, id := r.providers[i], r.providers[i].models[k].id;
            ParsesBack(r, i, k, dynamic)
            <==> if r.Get(r.Resolve(head)).Some?
                 then && r.Resolve(head) == p.key
                      && r.NormalizeProviderScopedModelId(p.key, rest + "/" + WithoutPrefix(p.key, id)) == id
                 else && FirstPrefix(Keys(r.providers), ToProviderScopedModelId(p.key, id)) == Some(p.key)
                      && r.NormalizeProviderScopedModelId(p.key, WithoutPrefix(p.key, id)) == id
  {
    var p, id := r.providers[i], r.providers[i].models[k].id;
    var s := ToProviderScopedModelId(p.key, id);
    var tail := rest + "/" + WithoutPrefix(p.key, id);
    ScopedStarts(p.key, id);
    Rejoin(p.key, s);
    assert s == p.key + "/" + WithoutPrefix(p.key, s) == head + ['/'] + tail;
    IndexAfter(head, '/', tail);
    assert s[..|head|] == head && s[|head| + 1..] == tail;
    assert Keys(r.providers)[i] == p.key;
    SomePrefix(Keys(r.providers), s, p.key);
  }

  /** The names the catalog can rely on: none empty, none with a slash, none an alias of another. */
  predicate PlainNames(r: Registry) {
    forall i :: 0 <= i < |r.providers|
      ==> (var key := r.providers[i].key; key != "" && SlashFree(key) && r.Resolve(key) == key)
  }

  /** Every id of the catalog parses back exactly when no provider p lists both x and p/x. */
  lemma CatalogRoundTrip(r: Registry, dynamic: seq<string>)
    requires r.Valid() && PlainNames(r)
    ensures (forall i, k :: 0 <= i < |r.providers| && 0 <= k < |r.providers[i].models| ==> ParsesBack(r, i, k, dynamic))
            <==> (forall i, x :: 0 <= i < |r.providers| && Lists(r.providers[i], x)
                    ==> !Lists(r.providers[i], r.providers[i].key + "/" + x))
  {
    forall i, k | 0 <= i < |r.providers| && 0 <= k < |r.providers[i].models|
      ensures ParsesBack(r, i, k, dynamic) <==> !ListsShortForm(r.providers[i], r.providers[i].models[k].id)
    {
      ParsesBackIff(r, i, k, dynamic);
    }
    forall i | 0 <= i < |r.providers|
      ensures (forall k :: 0 <= k < |r.providers[i].models|
                 ==> !ListsShortForm(r.providers[i], r.providers[i].models[k].id))
              <==> (forall x :: Lists(r.providers[i], x) ==> !Lists(r.providers[i], r.providers[i].key + "/" + x))
    {
      NoShortForms(r.providers[i]);
    }
  }

  lemma NoShortForms(p: Provider)
    ensures (forall k :: 0 <= k < |p.models| ==> !ListsShortForm(p, p.models[k].id))
            <==> (forall x :: Lists(p, x) ==> !Lists(p, p.key + "/" + x))
  {
    forall k | 0 <= k < |p.models| && ListsShortForm(p, p.models[k].id)
      ensures exists x :: Lists(p, x) && Lists(p, p.key + "/" + x)
    {
      Rejoin(p.key, p.models[k].id);
      assert Lists(p, p.models[k].id);
    }
    forall x | Lists(p, x) && Lists(p, p.key + "/" + x)
      ensures exists k :: 0 <= k < |p.models| && ListsShortForm(p, p.models[k].id)
    {
      var k :| 0 <= k < |p.models| && p.models[k].id == p.key + "/" + x;
      assert WithoutPrefix(p.key, p.key + "/" + x) == x;
    }
  }

  /** A catalog id that parses back has the dimension recorded for its model. */
  lemma CatalogDimension(r: Registry, i: nat, k: nat)
    requires r.Valid() && PlainNames(r) && i < |r.providers| && k < |r.providers[i].models|
    requires r.providers[i].models[k].id != ""
    requires ParsesBack(r, i, k, [])
    requires forall n :: 0 <= n < k ==> r.providers[i].models[n].id != r.providers[i].models[k].id
    ensures r.GetEmbeddingDimension(ToProviderScopedModelId(r.providers[i].key, r.providers[i].models[k].id))
            == r.providers[i].models[k].dimensions
  {
    FindKeyAt(r.providers, i);
    FirstDimensionsAt(r.providers[i].models, k);
  }

  lemma {:induction false} FirstDimensionsAt(models: seq<Model>, k: nat)
    requires k < |models|
    requires forall n :: 0 <= n < k ==> models[n].id != models[k].id
    ensures FirstDimensions(models, models[k].id) == models[k].dimensions
  {
    if k > 0 {
      assert models[0].id != models[k].id;
      FirstDimensionsAt(models[1..], k - 1);
    }
  }

  /** The provider that the name leads to lists the model, first with that dimension. */
  ghost predicate Records(r: Registry, parsed: Parsed, d: int) {
    && parsed.provider.Some? && parsed.model.Some? && parsed.provider.value != "" && parsed.model.value != ""
    && exists i, k :: && 0 <= i < |r.providers| && 0 <= k < |r.providers[i].models|
                      && r.providers[i].key == r.Resolve(parsed.provider.value)
                      && r.providers[i].models[k].id == parsed.model.value
                      && r.providers[i].models[k].dimensions == Some(d)
                      && forall n :: 0 <= n < k ==> r.providers[i].models[n].id != parsed.model.value
  }

  lemma {:induction false} FindKeyMeans(providers: seq<Provider>, key: string)
    ensures FindKey(providers, key).Some? ==>
              exists i :: && 0 <= i < |providers| && providers[i].key == key
                          && FindKey(providers, key) == Some(providers[i])
  {
    if providers != [] && providers[0].key != key {
      FindKeyMeans(providers[1..], key);
      if FindKey(providers, key).Some? {
        var i :| 0 <= i < |providers[1..]| && providers[1..][i].key == key
                 && FindKey(providers[1..], key) == Some(providers[1..][i]);
        assert providers[i + 1].key == key;
      }
    }
  }

  lemma {:induction false} FirstDimensionsMean(models: seq<Model>, id: string)
    ensures FirstDimensions(models, id).Some? ==>
              exists k :: && 0 <= k < |models| && models[k].id == id
                          && models[k].dimensions == FirstDimensions(models, id)
                          && forall n :: 0 <= n < k ==> models[n].id != id
  {
    if models != [] && models[0].id != id {
      FirstDimensionsMean(models[1..], id);
      if FirstDimensions(models, id).Some? {
        var k :| && 0 <= k < |models[1..]| && models[1..][k].id == id
                 && models[1..][k].dimensions == FirstDimensions(models, id)
                 && forall n :: 0 <= n < k ==> models[1..][n].id != id;
        assert models[k + 1].id == id;
        assert forall n :: 1 <= n < k + 1 ==> models[n] == models[1..][n - 1];
      }
    }
  }

  /** A name has a known dimension exactly when the provider it leads to records one for its model. */
  lemma DimensionIsRecorded(r: Registry, s: string, d: int)
    requires r.Valid()
    ensures r.GetEmbeddingDimension(s) == Some(d) <==> Records(r, r.ParseEmbeddingModel(Some(s), []), d)
  {
    var parsed := r.ParseEmbeddingModel(Some(s), []);
    if r.GetEmbeddingDimension(s) == Some(d) {
      FindKeyMeans(r.providers, r.Resolve(parsed.provider.value));
      FirstDimensionsMean(r.Get(r.Resolve(parsed.provider.value)).value.models, parsed.model.value);
    }
    if Records(r, parsed, d) {
      var i, k :| && 0 <= i < |r.providers| && 0 <= k < |r.providers[i].models|
                  && r.providers[i].key == r.Resolve(parsed.provider.value)
                  && r.providers[i].models[k].id == parsed.model.value
                  && r.providers[i].models[k].dimensions == Some(d)
                  && forall n :: 0 <= n < k ==> r.providers[i].models[n].id != parsed.model.value;
      FindKeyAt(r.providers, i);
      FirstDimensionsAt(r.providers[i].models, k);
    }
  }

  // ---------------------------------------------------------------- dimension conflicts

  datatype Verdict = Verdict(conflict: bool, dimensions: OrderedMap<string, int>, distinct: seq<int>)

  ghost predicate Increasing(s: seq<int>) {
    forall i, j :: 0 <= i < j < |s| ==> s[i] < s[j]
  }

  /** Two known dimensions of the inputs differ. */
  ghost predicate Conflict(r: Registry, inputs: seq<string>) {
    exists a, b :: (&& a in inputs && b in inputs
                    && r.GetEmbeddingDimension(a).Some? && r.GetEmbeddingDimension(b).Some?
                    && r.GetEmbeddingDimension(a) != r.GetEmbeddingDimension(b))
  }

  /** The record holds exactly the inputs with a known dimension, each with that dimension. */
  ghost predicate Known(r: Registry, inputs: seq<string>, dimensions: map<string, int>) {
    && (forall s :: s in dimensions <==> s in inputs && r.GetEmbeddingDimension(s).Some?)
    && (forall s :: s in dimensions ==> r.GetEmbeddingDimension(s) == Some(dimensions[s]))
  }

  /** Adds a value to a list in increasing order, unless it is there. */
  method InsertDistinct(sorted: seq<int>, v: int) returns (r: seq<int>)
    requires Increasing(sorted)
    ensures Increasing(r)
    ensures forall w :: w in r <==> w in sorted || w == v
  {
    var i := 0;
    while i < |sorted| && sorted[i] < v
      invariant 0 <= i <= |sorted| && forall j :: 0 <= j < i ==> sorted[j] < v
    {
      i := i + 1;
    }
    assert sorted == sorted[..i] + sorted[i..];
    if i < |sorted| && sorted[i] == v {
      return sorted;
    }
    InsertedIncreases(sorted[..i], v, sorted[i..]);
    r := sorted[..i] + [v] + sorted[i..];
  }

  lemma InsertedIncreases(below: seq<int>, v: int, above: seq<int>)
    requires Increasing(below + above)
    requires (forall j :: 0 <= j < |below| ==> below[j] < v) && (above != [] ==> v < above[0])
    ensures Increasing(below + [v] + above)
    ensures forall w :: w in below + [v] + above <==> w in below + above || w == v
  {
    var r, s := below + [v] + above, below + above;
    assert forall j :: 0 <= j < |above| ==> s[|below| + j] == above[j];
    assert forall j :: 0 < j < |above| ==> above[0] < above[j];
    forall i, j | 0 <= i < j < |r| ensures r[i] < r[j] {
      var x, y := if i <= |below| then i else i - 1, if j <= |below| then j else j - 1;
      assert i != |below| && j != |below| ==> r[i] == s[x] && r[j] == s[y] && x < y;
    }
  }

  /** The different values of the record in increasing order. */
  method DistinctSorted(dimensions: OrderedMap<string, int>) returns (distinct: seq<int>)
    requires dimensions.Valid()
    ensures Increasing(distinct)
    ensures forall d :: d in distinct <==> exists s :: s in dimensions.table && dimensions.table[s] == d
  {
    distinct := [];
    var keys := dimensions.order;
    for i := 0 to |keys|
      invariant Increasing(distinct)
      invariant forall d :: d in distinct <==> exists j :: 0 <= j < i && dimensions.table[keys[j]] == d
    {
      distinct := InsertDistinct(distinct, dimensions.table[keys[i]]);
    }
    forall s | s in dimensions.table ensures exists j :: 0 <= j < |keys| && keys[j] == s {
      assert s in keys;
    }
  }

  /**
   * `detectEmbeddingDimensionConflict`: each input with a known dimension is recorded, and a conflict is
   * reported exactly when two of the known dimensions differ.
   */
  method DetectEmbeddingDimensionConflict(r: Registry, inputs: seq<string>) returns (v: Verdict)
    ensures v.dimensions.Valid() && Known(r, inputs, v.dimensions.table)
    ensures Increasing(v.distinct)
    ensures forall d :: d in v.distinct <==> exists s :: s in inputs && r.GetEmbeddingDimension(s) == Some(d)
    ensures v.conflict <==> Conflict(r, inputs)
  {
    var dimensions: OrderedMap<string, int> := OrderedMaps.Empty();
    for i := 0 to |inputs|
      invariant dimensions.Valid() && Known(r, inputs[..i], dimensions.table)
    {
      var s := inputs[i];
      assert forall x :: x in inputs[..i + 1] <==> x in inputs[..i] || x == s;
      var d := r.GetEmbeddingDimension(s);
      if d.Some? {
        SetValid(dimensions, s, d.value);
        dimensions := dimensions.Set(s, d.value);
      }
    }
    assert inputs[..|inputs|] == inputs;
    var distinct := DistinctSorted(dimensions);
    forall d ensures d in distinct <==> exists s :: s in inputs && r.GetEmbeddingDimension(s) == Some(d) {
      ValuesAreKnown(r, inputs, dimensions.table, d);
    }
    ConflictIffTwo(r, inputs, distinct);
    v := Verdict(|distinct| > 1, dimensions, distinct);
  }

  lemma ValuesAreKnown(r: Registry, inputs: seq<string>, dimensions: map<string, int>, d: int)
    requires Known(r, inputs, dimensions)
    ensures (exists s :: s in dimensions && dimensions[s] == d)
            <==> (exists s :: s in inputs && r.GetEmbeddingDimension(s) == Some(d))
  {
    if s :| s in dimensions && dimensions[s] == d {
      assert s in inputs && r.GetEmbeddingDimension(s) == Some(d);
    }
    if s :| s in inputs && r.GetEmbeddingDimension(s) == Some(d) {
      assert s in dimensions && dimensions[s] == d;
    }
  }

  lemma ConflictIffTwo(r: Registry, inputs: seq<string>, distinct: seq<int>)
    requires Increasing(distinct)
    requires forall d :: d in distinct <==> exists s :: s in inputs && r.GetEmbeddingDimension(s) == Some(d)
    ensures |distinct| > 1 <==> Conflict(r, inputs)
  {
    if |distinct| > 1 {
      assert distinct[0] in distinct && distinct[1] in distinct;
      var a :| a in inputs && r.GetEmbeddingDimension(a) == Some(distinct[0]);
      var b :| b in inputs && r.GetEmbeddingDimension(b) == Some(distinct[1]);
    }
    if a, b :| && a in inputs && b in inputs
               && r.GetEmbeddingDimension(a).Some? && r.GetEmbeddingDimension(b).Some?
               && r.GetEmbeddingDimension(a) != r.GetEmbeddingDimension(b) {
      TwoMembers(distinct, r.GetEmbeddingDimension(a).value, r.GetEmbeddingDimension(b).value);
    }
  }

  lemma TwoMembers(s: seq<int>, a: int, b: int)
    requires a in s && b in s && a != b
    ensures |s| > 1
  {
  }

  lemma {:induction false} IncreasingUnique(a: seq<int>, b: seq<int>)
    requires Increasing(a) && Increasing(b) && forall v :: v in a <==> v in b
    ensures a == b
  {
    assert b != [] ==> b[0] in b;
    if a != [] {
      assert a[0] in a && a[0] in b;
      assert b != [] && b[0] in b && b[0] in a;
      assert a[0] == b[0];
      forall v ensures v in a[1..] <==> v in b[1..] {
        assert v in a[1..] <==> v in a && v != a[0];
        assert v in b[1..] <==> v in b && v != b[0];
      }
      IncreasingUnique(a[1..], b[1..]);
    }
  }

  /** The verdict's contract fixes it, and it depends neither on the order of the inputs nor on repetition. */
  lemma VerdictIsOfTheSet(r: Registry, a: seq<string>, b: seq<string>, da: map<string, int>, db: map<string, int>,
                          sa: seq<int>, sb: seq<int>)
    requires forall s :: s in a <==> s in b
    requires Known(r, a, da) && Known(r, b, db) && Increasing(sa) && Increasing(sb)
    requires forall d :: d in sa <==> exists s :: s in a && r.GetEmbeddingDimension(s) == Some(d)
    requires forall d :: d in sb <==> exists s :: s in b && r.GetEmbeddingDimension(s) == Some(d)
    ensures da == db && sa == sb && (Conflict(r, a) <==> Conflict(r, b))
  {
    assert da.Keys == db.Keys;
    forall d ensures d in sa <==> d in sb {
    }
    IncreasingUnique(sa, sb);
  }
}
