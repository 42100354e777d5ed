/** The textual keys of the runtime caches: which entries two requests share, and which
    entries an invalidation reaches. */
module CacheKeys {
  import opened Basics
  import opened Text
  import opened Views

  predicate Includes(text: string, part: string) {
    part <= text || (text != "" && Includes(text[1..], part))
  }

  /** `${tenantId ?? 'global'}`; tenant ids are positive. */
  function TenantText(tenant: Option<nat>): string {
    match tenant
    case None => "global"
    case Some(id) => DecimalNat(id)
  }

  function KindText(kind: ViewType): string {
    match kind
    case ListView => "list"
    case DetailView => "detail"
    case FormView => "form"
  }

  function DiagnosticsText(diagnostics: bool): string {
    if diagnostics then "diag" else "no_diag"
  }

  function SchemaKey(tenant: Option<nat>, objectType: string): string {
    TenantText(tenant) + "::" + objectType
  }

  function ViewKey(tenant: Option<nat>, entityKey: string, kind: ViewType): string {
    TenantText(tenant) + "::" + entityKey + "::" + KindText(kind)
  }

  function ManifestKey(tenant: Option<nat>, entityKey: string, diagnostics: bool): string {
    TenantText(tenant) + "::" + entityKey + "::" + DiagnosticsText(diagnostics)
  }

  // ----- keys are injective -----

  predicate NoColon(s: string) {
    forall i :: 0 <= i < |s| ==> s[i] != ':'
  }

  lemma TenantTextIsPlain(tenant: Option<nat>)
    ensures NoColon(TenantText(tenant)) && TenantText(tenant) != ""
    ensures IsDigit(TenantText(tenant)[0]) <==> tenant.Some?
  {
    assert "global"[0] == 'g';
  }

  lemma TenantTextInjective(a: Option<nat>, b: Option<nat>)
    requires TenantText(a) == TenantText(b)
    ensures a == b
  {
    TenantTextIsPlain(a);
    TenantTextIsPlain(b);
    if a.Some? { DecimalInjective(a.value, b.value); }
  }

  /** How many characters come before the first colon, and after the last. */
  function FrontRun(s: string): nat {
    if s == "" || s[0] == ':' then 0 else 1 + FrontRun(s[1..])
  }

  function BackRun(s: string): nat {
    if s == "" || s[|s| - 1] == ':' then 0 else 1 + BackRun(s[..|s| - 1])
  }

  lemma {:induction false} FrontOf(a: string, x: string)
    requires NoColon(a)
    ensures FrontRun(a + "::" + x) == |a|
    decreases |a|
  {
    var s := a + "::" + x;
    if a == "" {
      assert s[0] == ':';
    } else {
      assert s[1..] == a[1..] + "::" + x;
      FrontOf(a[1..], x);
    }
  }

  lemma {:induction false} BackOf(x: string, a: string)
    requires NoColon(a)
    ensures BackRun(x + "::" + a) == |a|
    decreases |a|
  {
    var s := x + "::" + a;
    if a == "" {
      assert s[|s| - 1] == ':';
    } else {
      assert s[..|s| - 1] == x + "::" + a[..|a| - 1];
      BackOf(x, a[..|a| - 1]);
    }
  }

  lemma SameFront(a: string, x: string, b: string, y: string)
    requires NoColon(a) && NoColon(b) && a + "::" + x == b + "::" + y
    ensures a == b && x == y
  {
    FrontOf(a, x);
    FrontOf(b, y);
    var s := a + "::" + x;
    assert s[..|a|] == a && s[..|b|] == b;
    assert s[|a| + 2..] == x && s[|b| + 2..] == y;
  }

  lemma SameBack(x: string, a: string, y: string, b: string)
    requires NoColon(a) && NoColon(b) && x + "::" + a == y + "::" + b
    ensures a == b && x == y
  {
    BackOf(x, a);
    BackOf(y, b);
    var s := x + "::" + a;
    assert s[..|x|] == x && s[..|y|] == y;
    assert s[|x| + 2..] == a && s[|y| + 2..] == b;
  }

  lemma SchemaKeyInjective(t: Option<nat>, e: string, t': Option<nat>, e': string)
    requires SchemaKey(t, e) == SchemaKey(t', e')
    ensures t == t' && e == e'
  {
    TenantTextIsPlain(t);
    TenantTextIsPlain(t');
    SameFront(TenantText(t), e, TenantText(t'), e');
    TenantTextInjective(t, t');
  }

  lemma ScopedKeyInjective(t: Option<nat>, e: string, last: string, t': Option<nat>, e': string, last': string)
    requires NoColon(last) && NoColon(last')
    requires SchemaKey(t, e) + "::" + last == SchemaKey(t', e') + "::" + last'
    ensures t == t' && e == e' && last == last'
  {
    SameBack(SchemaKey(t, e), last, SchemaKey(t', e'), last');
    SchemaKeyInjective(t, e, t', e');
  }

  /** Two view requests share an entry only if they are the same request, whatever the entity
      key looks like. */
  lemma ViewKeyInjective(t: Option<nat>, e: string, kind: ViewType, t': Option<nat>, e': string, kind': ViewType)
    requires ViewKey(t, e, kind) == ViewKey(t', e', kind')
    ensures t == t' && e == e' && kind == kind'
  {
    ScopedKeyInjective(t, e, KindText(kind), t', e', KindText(kind'));
    assert |KindText(ListView)| == |KindText(FormView)| && "list"[0] != "form"[0];
  }

  lemma ManifestKeyInjective(t: Option<nat>, e: string, d: bool, t': Option<nat>, e': string, d': bool)
    requires ManifestKey(t, e, d) == ManifestKey(t', e', d')
    ensures t == t' && e == e' && d == d'
  {
    ScopedKeyInjective(t, e, DiagnosticsText(d), t', e', DiagnosticsText(d'));
  }

  // ----- invalidation -----

  /** What an invalidation request names. A tenant that is given but not positive selects the
      global entries; an empty entity key selects every entity. */
  datatype Selection = Selection(tenant: Option<int>, entityKey: Option<string>)

  predicate Matches(sel: Selection, key: string) {
    && (sel.tenant.Some? ==> TenantText(EffectiveTenant(sel.tenant)) + "::" <= key)
    && (sel.entityKey.Some? && sel.entityKey.value != "" ==> Includes(key, "::" + sel.entityKey.value))
  }

  lemma {:induction false} IncludesMiddle(a: string, part: string, b: string)
    ensures Includes(a + part + b, part)
    decreases |a|
  {
    if a == "" {
      assert part <= a + part + b;
    } else {
      assert (a + part + b)[1..] == a[1..] + part + b;
      IncludesMiddle(a[1..], part, b);
    }
  }

  lemma {:induction false} TooShort(text: string, part: string)
    requires |text| < |part|
    ensures !Includes(text, part)
    decreases |text|
  {
    if text != "" { TooShort(text[1..], part); }
  }

  /** Every entry of the named tenant and entity is reached, in all three caches (the schema
      cache knows the entity by its canonical key). */
  lemma InvalidationReaches(sel: Selection, t: Option<nat>, e: string, kind: ViewType, diagnostics: bool)
    requires sel.tenant.Some? ==> EffectiveTenant(sel.tenant) == t
    requires sel.entityKey.Some? ==> sel.entityKey.value == e
    ensures Matches(sel, SchemaKey(t, e)) && Matches(sel, ViewKey(t, e, kind)) && Matches(sel, ManifestKey(t, e, diagnostics))
  {
    ReachesOne(sel, t, e, "");
    ReachesOne(sel, t, e, "::" + KindText(kind));
    ReachesOne(sel, t, e, "::" + DiagnosticsText(diagnostics));
    KeysShareFront(SchemaKey(t, e), KindText(kind));
    KeysShareFront(SchemaKey(t, e), DiagnosticsText(diagnostics));
  }

  lemma KeysShareFront(front: string, last: string)
    ensures front + "" == front
    ensures front + ("::" + last) == front + "::" + last
  {}

  lemma ReachesOne(sel: Selection, t: Option<nat>, e: string, tail: string)
    requires sel.tenant.Some? ==> EffectiveTenant(sel.tenant) == t
    requires sel.entityKey.Some? ==> sel.entityKey.value == e
    ensures Matches(sel, SchemaKey(t, e) + tail)
  {
    var front := TenantText(t) + "::";
    assert SchemaKey(t, e) + tail == front + (e + tail);
    assert SchemaKey(t, e) + tail == TenantText(t) + ("::" + e) + tail;
    IncludesMiddle(TenantText(t), "::" + e, tail);
  }

  /** Entries of another tenant are never reached by an invalidation that names a tenant. */
  lemma OtherTenantsAreSpared(sel: Selection, t: Option<nat>, rest: string)
    requires sel.tenant.Some? && EffectiveTenant(sel.tenant) != t
    ensures !Matches(sel, TenantText(t) + "::" + rest)
  {
    var named := TenantText(EffectiveTenant(sel.tenant));
    var key := TenantText(t) + "::" + rest;
    if named + "::" <= key {
      TenantTextIsPlain(t);
      TenantTextIsPlain(EffectiveTenant(sel.tenant));
      assert key == named + "::" + key[|named| + 2..];
      SameFront(named, key[|named| + 2..], TenantText(t), rest);
      TenantTextInjective(t, EffectiveTenant(sel.tenant));
    }
  }

  // ----- exactly what an invalidation reaches -----

  /** A part that starts with a colon cannot begin inside the tenant's text. */
  lemma {:induction false} IncludesSkips(front: string, rest: string, part: string)
    requires NoColon(front) && part != "" && part[0] == ':'
    ensures Includes(front + rest, part) <==> Includes(rest, part)
    decreases |front|
  {
    var s := front + rest;
    if front == "" {
      assert s == rest;
    } else {
      assert s[0] == front[0] != part[0];
      assert s[1..] == front[1..] + rest;
      IncludesSkips(front[1..], rest, part);
    }
  }

  /** Does the request name every entity, or one that `::rest` has inside? */
  predicate EntityWithin(sel: Selection, rest: string) {
    sel.entityKey.Some? && sel.entityKey.value != "" ==> Includes("::" + rest, "::" + sel.entityKey.value)
  }

  /** A key is reached exactly when the request names its tenant, or none, and its entity text
      holds `::entity`. */
  lemma MatchesIff(sel: Selection, t: Option<nat>, rest: string)
    ensures Matches(sel, TenantText(t) + "::" + rest) <==>
      (sel.tenant.Some? ==> EffectiveTenant(sel.tenant) == t) && EntityWithin(sel, rest)
  {
    var key := TenantText(t) + "::" + rest;
    TenantTextIsPlain(t);
    assert key == TenantText(t) + ("::" + rest);
    if sel.tenant.Some? && EffectiveTenant(sel.tenant) != t { OtherTenantsAreSpared(sel, t, rest); }
    if sel.entityKey.Some? { IncludesSkips(TenantText(t), "::" + rest, "::" + sel.entityKey.value); }
  }

  lemma TwoColons(x: string, part: string)
    ensures Includes("::" + x, part) <==> part <= "::" + x || part <= ":" + x || Includes(x, part)
  {
    assert ("::" + x)[1..] == ":" + x && (":" + x)[1..] == x;
  }

  /** In a text without colons, only its front can follow a `::`. */
  lemma PlainIncludesIff(name: string, e: string)
    requires NoColon(name) && NoColon(e) && e != ""
    ensures Includes("::" + name, "::" + e) <==> e <= name
  {
    TwoColons(name, "::" + e);
    NoColonInside(name, "::" + e);
    NotShifted(name, "", e);
    FrontIff(name, "", e);
    assert name + "" == name && "::" + name + "" == "::" + name;
  }

  /** The `::` of the part cannot start at the second colon. */
  lemma NotShifted(name: string, tail: string, e: string)
    requires NoColon(name) && NoColon(e) && e != ""
    requires tail == "" || "::" <= tail
    ensures !("::" + e <= ":" + (name + tail))
  {
    var s, part := ":" + (name + tail), "::" + e;
    assert part[1] == ':' && part[2] == e[0];
    if name != "" {
      assert s[1] == name[0];
    } else if tail != "" {
      assert name + tail == tail;
      assert s[2] == tail[1] == ':';
    }
  }

  lemma {:induction false} NoColonInside(name: string, part: string)
    requires NoColon(name) && part != "" && part[0] == ':'
    ensures !Includes(name, part)
    decreases |name|
  {
    if name != "" {
      assert name[0] != part[0];
      NoColonInside(name[1..], part);
    }
  }

  /** Two plain names joined: either of them may begin with the entity. */
  lemma PairIncludesIff(name: string, last: string, e: string)
    requires NoColon(name) && NoColon(last) && NoColon(e) && e != ""
    ensures Includes("::" + (name + "::" + last), "::" + e) <==> e <= name || e <= last
  {
    var tail := "::" + last;
    assert name + "::" + last == name + tail;
    TwoColons(name + tail, "::" + e);
    NotShifted(name, tail, e);
    IncludesSkips(name, tail, "::" + e);
    PlainIncludesIff(last, e);
    FrontIff(name, tail, e);
    assert "::" + (name + tail) == "::" + name + tail;
  }

  lemma FrontIff(name: string, tail: string, e: string)
    requires NoColon(name) && NoColon(e) && (tail == "" || tail[0] == ':')
    ensures "::" + e <= "::" + name + tail <==> e <= name
  {
    var s := "::" + name + tail;
    assert tail != "" ==> s[|name| + 2] == ':';
    if e <= name {
      assert s[..|e| + 2] == "::" + e;
    }
    if "::" + e <= s {
      if |e| > |name| { PrefixChar(s, e, |name|); }
      forall i | 0 <= i < |e| && i < |name| ensures e[i] == name[i] { PrefixChar(s, e, i); }
    }
  }

  lemma PrefixChar(s: string, e: string, k: nat)
    requires "::" + e <= s && k < |e|
    ensures s[k + 2] == e[k]
  {
    assert ("::" + e)[k + 2] == e[k];
  }

  /** For plain names the three caches are swept as follows: an entry goes exactly when its
      entity, or for views and manifests the last part of its key, begins with the name. */
  lemma InvalidationReachesIff(tenant: nat, e: string, t: Option<nat>, name: string, kind: ViewType, diagnostics: bool)
    requires NoColon(e) && NoColon(name) && e != "" && tenant > 0
    ensures var sel := Selection(Some(tenant), Some(e));
      && (Matches(sel, SchemaKey(t, name)) <==> t == Some(tenant) && e <= name)
      && (Matches(sel, ViewKey(t, name, kind)) <==>
            t == Some(tenant) && (e <= name || e <= (match kind case ListView => "list" case DetailView => "detail" case FormView => "form")))
      && (Matches(sel, ManifestKey(t, name, diagnostics)) <==>
            t == Some(tenant) && (e <= name || e <= (if diagnostics then "diag" else "no_diag")))
  {
    var sel := Selection(Some(tenant), Some(e));
    MatchesIff(sel, t, name);
    PlainIncludesIff(name, e);
    ScopedReachIff(sel, t, name, KindText(kind), e);
    ScopedReachIff(sel, t, name, DiagnosticsText(diagnostics), e);
  }

  lemma ScopedReachIff(sel: Selection, t: Option<nat>, name: string, last: string, e: string)
    requires NoColon(name) && NoColon(last) && NoColon(e) && e != "" && sel.entityKey == Some(e)
    ensures Matches(sel, TenantText(t) + "::" + name + "::" + last) <==>
      (sel.tenant.Some? ==> EffectiveTenant(sel.tenant) == t) && (e <= name || e <= last)
  {
    MatchesIff(sel, t, name + "::" + last);
    PairIncludesIff(name, last, e);
    assert TenantText(t) + "::" + name + "::" + last == TenantText(t) + "::" + (name + "::" + last);
  }
}
