/** The three layered TTL caches of the config-object runtime: schemas and active views below,
    manifests composed from them above. */
module RuntimeCaches {
  import opened Basics
  import opened Views
  import opened CacheKeys
  import opened Submit

  const TTL_MS: int := 30_000

  /** What the database would answer at each instant, and the canonical form of a key. */
  datatype World = World(
    schema: (int, Option<nat>, string) -> Option<Schema>,
    view: (int, Option<nat>, string, ViewType) -> Option<View>,
    canonical: string -> string)

  /** The sections of a manifest are built from one schema and up to three views. */
  datatype Manifest =
    | NoSchema
    | Manifest(schema: Schema, list: Option<View>, detail: Option<View>, form: Option<View>)

  datatype Stored<V> = Stored(expiresAt: int, value: V)

  function FilledAt<V>(entry: Stored<V>): int { entry.expiresAt - TTL_MS }

  predicate IsFresh<V>(entry: Stored<V>, now: int) { entry.expiresAt > now }

  // ----- what an answer can be traced back to -----

  /** `v` was the right answer at some instant later than `lo` and not later than `hi`. */
  ghost predicate SchemaWithin(w: World, v: Option<Schema>, tenant: Option<nat>, objectType: string, lo: int, hi: int) {
    exists at :: lo < at <= hi && w.schema(at, tenant, objectType) == v
  }

  ghost predicate ViewWithin(w: World, v: Option<View>, tenant: Option<nat>, entityKey: string, kind: ViewType, lo: int, hi: int) {
    exists at :: lo < at <= hi && w.view(at, tenant, entityKey, kind) == v
  }

  ghost predicate ManifestWithin(w: World, m: Manifest, tenant: Option<nat>, entityKey: string, lo: int, hi: int) {
    match m
    case NoSchema => SchemaWithin(w, None, tenant, w.canonical(entityKey), lo, hi)
    case Manifest(schema, list, detail, form) =>
      && SchemaWithin(w, Some(schema), tenant, w.canonical(entityKey), lo, hi)
      && ViewWithin(w, list, tenant, entityKey, ListView, lo, hi)
      && ViewWithin(w, detail, tenant, entityKey, DetailView, lo, hi)
      && ViewWithin(w, form, tenant, entityKey, FormView, lo, hi)
  }

  lemma WidenManifest(w: World, m: Manifest, tenant: Option<nat>, entityKey: string, lo: int, hi: int, lo': int, hi': int)
    requires ManifestWithin(w, m, tenant, entityKey, lo, hi) && lo' <= lo && hi <= hi'
    ensures ManifestWithin(w, m, tenant, entityKey, lo', hi')
  {}

  /** Each entry is what the database answered when it was filled. */
  ghost predicate SchemasOk(w: World, schemas: map<string, Stored<Option<Schema>>>, now: int) {
    forall tenant, objectType :: SchemaKey(tenant, objectType) in schemas ==>
      var entry := schemas[SchemaKey(tenant, objectType)];
      FilledAt(entry) <= now && entry.value == w.schema(FilledAt(entry), tenant, objectType)
  }

  ghost predicate ViewsOk(w: World, views: map<string, Stored<Option<View>>>, now: int) {
    forall tenant, entityKey, kind :: ViewKey(tenant, entityKey, kind) in views ==>
      var entry := views[ViewKey(tenant, entityKey, kind)];
      FilledAt(entry) <= now && entry.value == w.view(FilledAt(entry), tenant, entityKey, kind)
  }

  /** A manifest's parts were right within one lifetime before it was filled. */
  ghost predicate ManifestsOk(w: World, manifests: map<string, Stored<Manifest>>, now: int) {
    forall tenant, entityKey, diagnostics :: ManifestKey(tenant, entityKey, diagnostics) in manifests ==>
      var entry := manifests[ManifestKey(tenant, entityKey, diagnostics)];
      && FilledAt(entry) <= now
      && ManifestWithin(w, entry.value, tenant, entityKey, FilledAt(entry) - TTL_MS, FilledAt(entry))
  }

  lemma StoreSchema(w: World, schemas: map<string, Stored<Option<Schema>>>, now: int, tenant: Option<nat>, objectType: string)
    requires SchemasOk(w, schemas, now)
    ensures SchemasOk(w, schemas[SchemaKey(tenant, objectType) := Stored(now + TTL_MS, w.schema(now, tenant, objectType))], now)
  {
    forall t, o | SchemaKey(t, o) == SchemaKey(tenant, objectType) ensures t == tenant && o == objectType {
      SchemaKeyInjective(t, o, tenant, objectType);
    }
  }

  lemma StoreView(w: World, views: map<string, Stored<Option<View>>>, now: int, tenant: Option<nat>, entityKey: string, kind: ViewType)
    requires ViewsOk(w, views, now)
    ensures ViewsOk(w, views[ViewKey(tenant, entityKey, kind) := Stored(now + TTL_MS, w.view(now, tenant, entityKey, kind))], now)
  {
    forall t, e, k | ViewKey(t, e, k) == ViewKey(tenant, entityKey, kind) ensures t == tenant && e == entityKey && k == kind {
      ViewKeyInjective(t, e, k, tenant, entityKey, kind);
    }
  }

  lemma StoreManifest(w: World, manifests: map<string, Stored<Manifest>>, now: int,
                      tenant: Option<nat>, entityKey: string, diagnostics: bool, m: Manifest)
    requires ManifestsOk(w, manifests, now) && ManifestWithin(w, m, tenant, entityKey, now - TTL_MS, now)
    ensures ManifestsOk(w, manifests[ManifestKey(tenant, entityKey, diagnostics) := Stored(now + TTL_MS, m)], now)
  {
    forall t, e, d | ManifestKey(t, e, d) == ManifestKey(tenant, entityKey, diagnostics)
      ensures t == tenant && e == entityKey
    {
      ManifestKeyInjective(t, e, d, tenant, entityKey, diagnostics);
    }
  }

  // ----- sweeping -----

  function Swept<V>(entries: map<string, V>, sel: Selection): map<string, V> {
    map key | key in entries && !Matches(sel, key) :: entries[key]
  }

  function Unexpired<V>(entries: map<string, Stored<V>>, now: int): map<string, Stored<V>> {
    map key | key in entries && entries[key].expiresAt > now :: entries[key]
  }

  method ClearExpired<V>(entries: map<string, Stored<V>>, now: int) returns (kept: map<string, Stored<V>>)
    ensures kept == Unexpired(entries, now)
    ensures forall key :: key in kept <==> key in entries && entries[key].expiresAt > now
    ensures forall key :: key in kept ==> kept[key] == entries[key]
  {
    kept := entries;
    var keys := entries.Keys;
    while keys != {}
      invariant keys <= entries.Keys
      invariant forall key :: key in kept <==> key in entries && (key in keys || entries[key].expiresAt > now)
      invariant forall key :: key in kept ==> kept[key] == entries[key]
      decreases |keys|
    {
      var key :| key in keys;
      keys := keys - {key};
      if entries[key].expiresAt <= now { kept := kept - {key}; }
    }
  }

  method ClearByPredicate<V>(entries: map<string, V>, sel: Selection) returns (kept: map<string, V>, removed: nat)
    ensures kept == Swept(entries, sel)
    ensures removed == |entries| - |kept|
  {
    kept, removed := entries, 0;
    var keys := entries.Keys;
    while keys != {}
      invariant keys <= entries.Keys
      invariant forall key :: key in kept <==> key in entries && (key in keys || !Matches(sel, key))
      invariant forall key :: key in kept ==> kept[key] == entries[key]
      invariant removed + |kept| == |entries|
      decreases |keys|
    {
      var key :| key in keys;
      keys := keys - {key};
      if Matches(sel, key) {
        assert kept.Keys == (kept - {key}).Keys + {key};
        kept, removed := kept - {key}, removed + 1;
      }
    }
  }

  /** An invalidation leaves no entry for the tenant and entity it names. */
  lemma InvalidatedPairIsGone(sel: Selection, tenant: Option<nat>, entityKey: string, kind: ViewType, diagnostics: bool,
                              schemas: map<string, Stored<Option<Schema>>>, views: map<string, Stored<Option<View>>>,
                              manifests: map<string, Stored<Manifest>>)
    requires sel.tenant.Some? ==> EffectiveTenant(sel.tenant) == tenant
    requires sel.entityKey.Some? ==> sel.entityKey.value == entityKey
    ensures SchemaKey(tenant, entityKey) !in Swept(schemas, sel)
    ensures ViewKey(tenant, entityKey, kind) !in Swept(views, sel)
    ensures ManifestKey(tenant, entityKey, diagnostics) !in Swept(manifests, sel)
  {
    InvalidationReaches(sel, tenant, entityKey, kind, diagnostics);
  }

  /** Schemas are kept under the canonical name: invalidating by the name that was asked for
      leaves the schema entry in place exactly when `::name` does not occur in it; for names
      without colons, exactly when the canonical name does not begin with the one given. */
  lemma AliasMissesSchemaIff(w: World, tenant: nat, alias: string, schemas: map<string, Stored<Option<Schema>>>)
    requires tenant > 0 && alias != ""
    requires SchemaKey(Some(tenant), w.canonical(alias)) in schemas
    ensures var kept := SchemaKey(Some(tenant), w.canonical(alias)) in Swept(schemas, Selection(Some(tenant), Some(alias)));
      && (kept <==> !Includes("::" + w.canonical(alias), "::" + alias))
      && (NoColon(alias) && NoColon(w.canonical(alias)) ==> (kept <==> !(alias <= w.canonical(alias))))
      && (|alias| > |w.canonical(alias)| ==> kept)
  {
    MatchesIff(Selection(Some(tenant), Some(alias)), Some(tenant), w.canonical(alias));
    if NoColon(alias) && NoColon(w.canonical(alias)) { PlainIncludesIff(w.canonical(alias), alias); }
    if |alias| > |w.canonical(alias)| { TooShort("::" + w.canonical(alias), "::" + alias); }
  }

  /** The failing input: the plural of an object type does not reach its schema. */
  lemma AliasExample(w: World, schemas: map<string, Stored<Option<Schema>>>)
    requires w.canonical("projects") == "project" && SchemaKey(Some(5), "project") in schemas
    ensures SchemaKey(Some(5), "project") in Swept(schemas, Selection(Some(5), Some("projects")))
  {
    AliasMissesSchemaIff(w, 5, "projects", schemas);
  }

  /** And takes nothing from any other tenant. */
  lemma OtherTenantsKeepTheirs<V>(sel: Selection, tenant: Option<nat>, rest: string, entries: map<string, V>)
    requires sel.tenant.Some? && EffectiveTenant(sel.tenant) != tenant
    ensures var key := TenantText(tenant) + "::" + rest;
      (key in Swept(entries, sel) <==> key in entries) && (key in entries ==> Swept(entries, sel)[key] == entries[key])
  {
    OtherTenantsAreSpared(sel, tenant, rest);
  }

  lemma SweepKeepsOk(w: World, sel: Selection, schemas: map<string, Stored<Option<Schema>>>,
                     views: map<string, Stored<Option<View>>>, manifests: map<string, Stored<Manifest>>, now: int)
    ensures SchemasOk(w, schemas, now) ==> SchemasOk(w, Swept(schemas, sel), now)
    ensures ViewsOk(w, views, now) ==> ViewsOk(w, Swept(views, sel), now)
    ensures ManifestsOk(w, manifests, now) ==> ManifestsOk(w, Swept(manifests, sel), now)
  {}

  // ----- asking through a cache -----

  /** The answer of a cache whose source would answer `actual`: an entry that is still alive, or that. */
  function Answer<V>(entries: map<string, Stored<V>>, key: string, now: int, actual: V): V {
    if key in entries && entries[key].expiresAt > now then entries[key].value else actual
  }

  /** What the cache holds afterwards: expired entries are gone, and the answer is there, for
      30 seconds if it is new. */
  function Remembered<V>(entries: map<string, Stored<V>>, key: string, now: int, actual: V): map<string, Stored<V>> {
    var alive := Unexpired(entries, now);
    if key in alive then alive else alive[key := Stored(now + 30_000, actual)]
  }

  /** A later question at the same instant gets the same answer, and one within 30 s too if the
      answer was new; a question for anything else is not affected. */
  lemma RememberedAnswers<V>(entries: map<string, Stored<V>>, key: string, now: int, actual: V, other: string, different: V)
    ensures var r := Remembered(entries, key, now, actual);
      && Answer(r, key, now, different) == Answer(entries, key, now, actual)
      && (key !in entries ==> forall later :: now <= later < now + 30_000 ==> Answer(r, key, later, different) == actual)
      && (other != key ==> Answer(r, other, now, different) == Answer(entries, other, now, different))
  {}

  /** Sweeping twice at one instant is sweeping once, and takes no answer away. */
  lemma SweptOnce<V>(entries: map<string, Stored<V>>, now: int)
    ensures Unexpired(Unexpired(entries, now), now) == Unexpired(entries, now)
    ensures forall key, actual :: Remembered(Unexpired(entries, now), key, now, actual) == Remembered(entries, key, now, actual)
    ensures forall key, actual :: Answer(Unexpired(entries, now), key, now, actual) == Answer(entries, key, now, actual)
  {
    assert Unexpired(Unexpired(entries, now), now) == Unexpired(entries, now);
  }

  lemma ViewKeysDiffer(tenant: Option<nat>, entityKey: string)
    ensures ViewKey(tenant, entityKey, ListView) != ViewKey(tenant, entityKey, DetailView)
    ensures ViewKey(tenant, entityKey, ListView) != ViewKey(tenant, entityKey, FormView)
    ensures ViewKey(tenant, entityKey, DetailView) != ViewKey(tenant, entityKey, FormView)
  {
    if ViewKey(tenant, entityKey, ListView) == ViewKey(tenant, entityKey, DetailView) {
      ViewKeyInjective(tenant, entityKey, ListView, tenant, entityKey, DetailView);
    }
    if ViewKey(tenant, entityKey, ListView) == ViewKey(tenant, entityKey, FormView) {
      ViewKeyInjective(tenant, entityKey, ListView, tenant, entityKey, FormView);
    }
    if ViewKey(tenant, entityKey, DetailView) == ViewKey(tenant, entityKey, FormView) {
      ViewKeyInjective(tenant, entityKey, DetailView, tenant, entityKey, FormView);
    }
  }

  /** The manifest made of a schema and the views that go with it. */
  function Built(schema: Option<Schema>, list: Option<View>, detail: Option<View>, form: Option<View>): Manifest {
    if schema.None? then NoSchema else Manifest(schema.value, list, detail, form)
  }

  // ----- the runtime -----

  class ConfigRuntime {
    const world: World
    var schemas: map<string, Stored<Option<Schema>>>
    var views: map<string, Stored<Option<View>>>
    var manifests: map<string, Stored<Manifest>>
    ghost var clock: int

    ghost predicate Valid()
      reads this
    {
      SchemasOk(world, schemas, clock) && ViewsOk(world, views, clock) && ManifestsOk(world, manifests, clock)
    }

    constructor (world: World)
      ensures Valid() && this.world == world
    {
      this.world := world;
      schemas, views, manifests := map[], map[], map[];
      clock := 0;
    }

    method ClearExpiredRuntimeCaches(now: int)
      requires Valid() && clock <= now
      modifies this
      ensures Valid() && clock == now
      ensures schemas == Unexpired(old(schemas), now)
      ensures views == Unexpired(old(views), now)
      ensures manifests == Unexpired(old(manifests), now)
    {
      schemas := ClearExpired(schemas, now);
      views := ClearExpired(views, now);
      manifests := ClearExpired(manifests, now);
      clock := now;
    }

    /** A schema returned at `now` was the right answer later than 30 s before; without an
        entry for it, it is the right answer now. */
    method GetObjectSchema(tenantId: Option<int>, objectType: string, now: int) returns (r: Outcome<Option<Schema>>)
      requires Valid() && clock <= now
      modifies this
      ensures Valid() && clock == now
      ensures if world.canonical(objectType) == "" then r == Thrown(EmptyObjectType) else r.Ok?
      ensures r.Ok? ==> SchemaWithin(world, r.value, EffectiveTenant(tenantId), world.canonical(objectType), now - 30_000, now)
      ensures r.Ok? && SchemaKey(EffectiveTenant(tenantId), world.canonical(objectType)) !in old(schemas) ==>
        r.value == world.schema(now, EffectiveTenant(tenantId), world.canonical(objectType))
      ensures r.Thrown? ==> schemas == old(schemas) && views == old(views) && manifests == old(manifests)
      ensures r.Ok? ==>
        var canonical := world.canonical(objectType);
        var key, actual := SchemaKey(EffectiveTenant(tenantId), canonical), world.schema(now, EffectiveTenant(tenantId), canonical);
        && r.value == Answer(old(schemas), key, now, actual)
        && schemas == Remembered(old(schemas), key, now, actual)
        && views == Unexpired(old(views), now) && manifests == Unexpired(old(manifests), now)
    {
      var canonical := world.canonical(objectType);
      if canonical == "" {
        clock := now;
        return Thrown(EmptyObjectType);
      }
      ClearExpiredRuntimeCaches(now);
      var tenant := EffectiveTenant(tenantId);
      var key := SchemaKey(tenant, canonical);
      if key in schemas && IsFresh(schemas[key], now) {
        assert now - TTL_MS < FilledAt(schemas[key]) <= now;
        return Ok(schemas[key].value);
      }
      var value := world.schema(now, tenant, canonical);
      StoreSchema(world, schemas, now, tenant, canonical);
      schemas := schemas[key := Stored(now + TTL_MS, value)];
      r := Ok(value);
    }

    /** A view returned at `now` was the right answer later than 30 s before; without an entry
        for it, it is the right answer now. */
    method GetActiveScopedConfigView(tenantId: Option<int>, entityKey: string, kind: ViewType, now: int) returns (v: Option<View>)
      requires Valid() && clock <= now
      modifies this
      ensures Valid() && clock == now
      ensures ViewWithin(world, v, EffectiveTenant(tenantId), entityKey, kind, now - 30_000, now)
      ensures ViewKey(EffectiveTenant(tenantId), entityKey, kind) !in old(views) ==>
        v == world.view(now, EffectiveTenant(tenantId), entityKey, kind)
      ensures
        var key, actual := ViewKey(EffectiveTenant(tenantId), entityKey, kind), world.view(now, EffectiveTenant(tenantId), entityKey, kind);
        && v == Answer(old(views), key, now, actual)
        && views == Remembered(old(views), key, now, actual)
        && schemas == Unexpired(old(schemas), now) && manifests == Unexpired(old(manifests), now)
    {
      ClearExpiredRuntimeCaches(now);
      var tenant := EffectiveTenant(tenantId);
      var key := ViewKey(tenant, entityKey, kind);
      if key in views && IsFresh(views[key], now) {
        assert now - TTL_MS < FilledAt(views[key]) <= now;
        return views[key].value;
      }
      v := world.view(now, tenant, entityKey, kind);
      StoreView(world, views, now, tenant, entityKey, kind);
      views := views[key := Stored(now + TTL_MS, v)];
    }

    /** Every schema and view inside a manifest returned at `now` was the right answer later
        than 60 s before. It is the entry that is still alive, or else it is built from the
        answers of the layers below and remembered. */
    method GetRuntimeManifest(tenantId: Option<int>, entityKey: string, diagnostics: bool, now: int) returns (r: Outcome<Manifest>)
      requires Valid() && clock <= now
      modifies this
      ensures Valid() && clock == now
      ensures r.Ok? ==> ManifestWithin(world, r.value, EffectiveTenant(tenantId), entityKey, now - 60_000, now)
      ensures var key := ManifestKey(EffectiveTenant(tenantId), entityKey, diagnostics);
        if world.canonical(entityKey) == "" && !old(Remembers(key, now))
        then r == Thrown(EmptyObjectType) && manifests == Unexpired(old(manifests), now)
        else
          && r == Ok(Answer(old(manifests), key, now, old(Composed(tenantId, entityKey, now))))
          && manifests == Remembered(old(manifests), key, now, old(Composed(tenantId, entityKey, now)))
      ensures old(Uncached(tenantId, entityKey, diagnostics)) && world.canonical(entityKey) != "" ==>
        var tenant := EffectiveTenant(tenantId);
        var schema := world.schema(now, tenant, world.canonical(entityKey));
        r == Ok(if schema.None? then NoSchema
                else Manifest(schema.value, world.view(now, tenant, entityKey, ListView),
                              world.view(now, tenant, entityKey, DetailView), world.view(now, tenant, entityKey, FormView)))
    {
      var tenant := EffectiveTenant(tenantId);
      var key := ManifestKey(tenant, entityKey, diagnostics);
      SweptOnce(manifests, now);
      SweptBelow(tenantId, entityKey, now);
      ClearExpiredRuntimeCaches(now);
      if key in manifests && IsFresh(manifests[key], now) {
        var entry := manifests[key];
        WidenManifest(world, entry.value, tenant, entityKey, FilledAt(entry) - TTL_MS, FilledAt(entry), now - 2 * TTL_MS, now);
        return Ok(entry.value);
      }
      r := FillManifest(tenantId, entityKey, diagnostics, now);
    }

    /** An entry for the key is still alive. */
    predicate Remembers(key: string, now: int)
      reads this
    {
      key in manifests && manifests[key].expiresAt > now
    }

    /** Sweeping changes nothing about what the layers below answer. */
    lemma SweptBelow(tenantId: Option<int>, entityKey: string, now: int)
      ensures var tenant, canonical := EffectiveTenant(tenantId), world.canonical(entityKey);
        Composed(tenantId, entityKey, now) ==
          Built(Answer(Unexpired(schemas, now), SchemaKey(tenant, canonical), now, world.schema(now, tenant, canonical)),
                Answer(Unexpired(views, now), ViewKey(tenant, entityKey, ListView), now, world.view(now, tenant, entityKey, ListView)),
                Answer(Unexpired(views, now), ViewKey(tenant, entityKey, DetailView), now, world.view(now, tenant, entityKey, DetailView)),
                Answer(Unexpired(views, now), ViewKey(tenant, entityKey, FormView), now, world.view(now, tenant, entityKey, FormView)))
    {
      SweptOnce(schemas, now);
      SweptOnce(views, now);
    }

    /** Builds a manifest that is not there yet, and keeps it. */
    method FillManifest(tenantId: Option<int>, entityKey: string, diagnostics: bool, now: int) returns (r: Outcome<Manifest>)
      requires Valid() && clock <= now
      requires ManifestKey(EffectiveTenant(tenantId), entityKey, diagnostics) !in manifests
      modifies this
      ensures Valid() && clock == now
      ensures r.Ok? ==> ManifestWithin(world, r.value, EffectiveTenant(tenantId), entityKey, now - 60_000, now)
      ensures var key := ManifestKey(EffectiveTenant(tenantId), entityKey, diagnostics);
        if world.canonical(entityKey) == ""
        then r == Thrown(EmptyObjectType) && manifests == old(manifests)
        else
          && r == Ok(old(Composed(tenantId, entityKey, now)))
          && manifests == Unexpired(old(manifests), now)[key := Stored(now + 30_000, r.value)]
    {
      var tenant := EffectiveTenant(tenantId);
      var key := ManifestKey(tenant, entityKey, diagnostics);
      var manifest :- Assemble(tenantId, entityKey, now);
      StoreManifest(world, manifests, now, tenant, entityKey, diagnostics, manifest);
      manifests := manifests[key := Stored(now + TTL_MS, manifest)];
      WidenManifest(world, manifest, tenant, entityKey, now - TTL_MS, now, now - 2 * TTL_MS, now);
      r := Ok(manifest);
    }

    /** What the layers below answer, put together. */
    function Composed(tenantId: Option<int>, entityKey: string, now: int): Manifest
      reads this
    {
      var tenant, canonical := EffectiveTenant(tenantId), world.canonical(entityKey);
      Built(Answer(schemas, SchemaKey(tenant, canonical), now, world.schema(now, tenant, canonical)),
            Answer(views, ViewKey(tenant, entityKey, ListView), now, world.view(now, tenant, entityKey, ListView)),
            Answer(views, ViewKey(tenant, entityKey, DetailView), now, world.view(now, tenant, entityKey, DetailView)),
            Answer(views, ViewKey(tenant, entityKey, FormView), now, world.view(now, tenant, entityKey, FormView)))
    }

    /** No layer has an entry for the request. */
    predicate Uncached(tenantId: Option<int>, entityKey: string, diagnostics: bool)
      reads this
    {
      var tenant := EffectiveTenant(tenantId);
      && ManifestKey(tenant, entityKey, diagnostics) !in manifests
      && SchemaKey(tenant, world.canonical(entityKey)) !in schemas
      && forall kind :: ViewKey(tenant, entityKey, kind) !in views
    }

    /** The three views of a manifest, one after another. */
    method ReadViews(tenantId: Option<int>, entityKey: string, now: int)
      returns (list: Option<View>, detail: Option<View>, form: Option<View>)
      requires Valid() && clock <= now
      modifies this
      ensures Valid() && clock == now
      ensures var tenant := EffectiveTenant(tenantId);
        && ViewWithin(world, list, tenant, entityKey, ListView, now - 30_000, now)
        && ViewWithin(world, detail, tenant, entityKey, DetailView, now - 30_000, now)
        && ViewWithin(world, form, tenant, entityKey, FormView, now - 30_000, now)
        && list == Answer(old(views), ViewKey(tenant, entityKey, ListView), now, world.view(now, tenant, entityKey, ListView))
        && detail == Answer(old(views), ViewKey(tenant, entityKey, DetailView), now, world.view(now, tenant, entityKey, DetailView))
        && form == Answer(old(views), ViewKey(tenant, entityKey, FormView), now, world.view(now, tenant, entityKey, FormView))
      ensures manifests == Unexpired(old(manifests), now)
    {
      ViewKeysDiffer(EffectiveTenant(tenantId), entityKey);
      list := GetActiveScopedConfigView(tenantId, entityKey, ListView, now);
      detail := GetActiveScopedConfigView(tenantId, entityKey, DetailView, now);
      form := GetActiveScopedConfigView(tenantId, entityKey, FormView, now);
      SweptOnce(old(manifests), now);
    }

    /** Reads the layers below. */
    method Assemble(tenantId: Option<int>, entityKey: string, now: int) returns (r: Outcome<Manifest>)
      requires Valid() && clock <= now
      modifies this
      ensures Valid() && clock == now
      ensures r.Ok? ==> ManifestWithin(world, r.value, EffectiveTenant(tenantId), entityKey, now - 30_000, now)
      ensures if world.canonical(entityKey) == "" then r == Thrown(EmptyObjectType) else r.Ok?
      ensures r.Thrown? ==> manifests == old(manifests)
      ensures r.Ok? ==> r.value == old(Composed(tenantId, entityKey, now)) && manifests == Unexpired(old(manifests), now)
    {
      var schema :- GetObjectSchema(tenantId, entityKey, now);
      if schema.None? { return Ok(NoSchema); }
      SweptOnce(old(views), now);
      SweptOnce(old(manifests), now);
      var list, detail, form := ReadViews(tenantId, entityKey, now);
      r := Ok(Manifest(schema.value, list, detail, form));
    }

    method InvalidateRuntimeCaches(sel: Selection, schema: bool, view: bool, manifest: bool)
      returns (clearedSchemas: nat, clearedViews: nat, clearedManifests: nat)
      requires Valid()
      modifies this
      ensures Valid() && clock == old(clock)
      ensures schemas == if schema then Swept(old(schemas), sel) else old(schemas)
      ensures views == if view then Swept(old(views), sel) else old(views)
      ensures manifests == if manifest then Swept(old(manifests), sel) else old(manifests)
      ensures clearedSchemas == |old(schemas)| - |schemas|
      ensures clearedViews == |old(views)| - |views|
      ensures clearedManifests == |old(manifests)| - |manifests|
    {
      SweepKeepsOk(world, sel, schemas, views, manifests, clock);
      clearedSchemas, clearedViews, clearedManifests := 0, 0, 0;
      if schema { schemas, clearedSchemas := ClearByPredicate(schemas, sel); }
      if view { views, clearedViews := ClearByPredicate(views, sel); }
      if manifest { manifests, clearedManifests := ClearByPredicate(manifests, sel); }
    }
  }
}
