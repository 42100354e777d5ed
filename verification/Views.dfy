/** Scoped view configurations of a config object: the single lookup, the list lookup, and
    the operations that switch views on and off. */
module Views {
  import opened Basics
  import opened Json

  datatype ViewType = ListView | DetailView | FormView

  /** A `config_object_views` row; `tenant` is NULL for a global view. */
  datatype View = View(
    id: nat,
    owner: nat,
    key: string,
    kind: ViewType,
    tenant: Option<nat>,
    active: bool,
    content: Option<Record>)

  /** One slot that should hold at most one active view. */
  datatype Scope = Scope(owner: nat, kind: ViewType, tenant: Option<nat>)

  /** getEffectiveTenantId: anything but a positive tenant id means global scope. */
  function EffectiveTenant(tenantId: Option<int>): (tenant: Option<nat>)
    ensures tenant.Some? <==> tenantId.Some? && tenantId.value > 0
    ensures tenant.Some? ==> tenant.value == tenantId.value
  {
    if tenantId.Some? && tenantId.value > 0 then Some(tenantId.value) else None
  }

  predicate InScope(v: View, scope: Scope) {
    v.owner == scope.owner && v.kind == scope.kind && v.tenant == scope.tenant
  }

  /** Auto-increment ids: table order is id order. */
  ghost predicate Ordered(views: seq<View>) {
    forall i, j :: 0 <= i < j < |views| ==> views[i].id < views[j].id
  }

  /** Both are active in one scope: uq_config_object_views_active_scope. */
  predicate Clash(a: View, b: View) {
    a.active && b.active && a.id != b.id && a.owner == b.owner && a.kind == b.kind && a.tenant == b.tenant
  }

  /** At most one active view per scope. */
  ghost predicate Unique(views: seq<View>) {
    forall i, j :: 0 <= i < |views| && 0 <= j < |views| ==> !Clash(views[i], views[j])
  }

  // ----- single lookup -----

  /** The active row of a scope with the highest id (findOne ORDER BY id DESC). */
  function Newest(views: seq<View>, scope: Scope): (r: Option<View>)
    ensures r.Some? ==> r.value in views && IsNewest(views, scope, r.value)
    ensures r.None? ==> forall v :: v in views && InScope(v, scope) ==> !v.active
  {
    if views == [] then None
    else
      var rest := Newest(views[1..], scope);
      assert forall v :: v in views <==> v == views[0] || v in views[1..];
      if !InScope(views[0], scope) || !views[0].active then rest
      else if rest.Some? && rest.value.id > views[0].id then rest
      else Some(views[0])
  }

  ghost predicate IsNewest(views: seq<View>, scope: Scope, v: View) {
    && InScope(v, scope) && v.active
    && forall w :: w in views && InScope(w, scope) && w.active ==> w.id <= v.id
  }

  /** getActiveScopedConfigView: the tenant's newest active view, else the newest global one. */
  function ActiveView(views: seq<View>, owner: nat, kind: ViewType, tenant: Option<nat>): Option<View> {
    var scoped := if tenant.Some? then Newest(views, Scope(owner, kind, tenant)) else None;
    if scoped.Some? then scoped else Newest(views, Scope(owner, kind, None))
  }

  // ----- list lookup -----

  /** Rank of the view_type column, an enum. */
  function KindRank(kind: ViewType): nat {
    match kind
    case ListView => 0
    case DetailView => 1
    case FormView => 2
  }

  /** ORDER BY view_type, tenant_id IS NULL, id DESC. */
  predicate Before(a: View, b: View) {
    if a.kind != b.kind then KindRank(a.kind) < KindRank(b.kind)
    else if a.tenant.None? != b.tenant.None? then b.tenant.None?
    else a.id > b.id
  }

  ghost predicate Sorted(rows: seq<View>) {
    forall i, j :: 0 <= i < j < |rows| ==> Before(rows[i], rows[j])
  }

  predicate Listed(v: View, owner: nat, tenant: Option<nat>) {
    v.owner == owner && v.active && (v.tenant.None? || v.tenant == tenant)
  }

  function Insert(v: View, rows: seq<View>): (r: seq<View>)
    requires Sorted(rows) && forall w :: w in rows ==> w.id != v.id
    ensures Sorted(r)
    ensures forall w :: w in r <==> w == v || w in rows
  {
    if rows == [] || Before(v, rows[0]) then [v] + rows
    else
      assert rows[0] in rows;
      var rest := Insert(v, rows[1..]);
      assert forall w :: w in rows <==> w == rows[0] || w in rows[1..];
      assert forall i :: 0 <= i < |rest| ==> rest[i] in rest;
      [rows[0]] + rest
  }

  /** The scoped rows of one config object, in query order. */
  function Query(views: seq<View>, owner: nat, tenant: Option<nat>): (r: seq<View>)
    requires Ordered(views)
    ensures Sorted(r)
    ensures forall v :: v in r <==> v in views && Listed(v, owner, tenant)
  {
    if views == [] then []
    else
      assert forall v :: v in views <==> v == views[0] || v in views[1..];
      var rest := Query(views[1..], owner, tenant);
      assert forall w :: w in views[1..] ==> w.id > views[0].id;
      if Listed(views[0], owner, tenant) then Insert(views[0], rest) else rest
  }

  /** The row that represents type `kind` in a sorted listing: the first of its group. */
  function FirstOfKind(rows: seq<View>, kind: ViewType): (r: Option<View>)
    ensures r.Some? ==> r.value in rows && r.value.kind == kind
    ensures r.None? ==> forall v :: v in rows ==> v.kind != kind
  {
    if rows == [] then None
    else
      assert forall v :: v in rows <==> v == rows[0] || v in rows[1..];
      if rows[0].kind == kind then Some(rows[0]) else FirstOfKind(rows[1..], kind)
  }

  lemma {:induction false} FirstPrecedes(rows: seq<View>, kind: ViewType, v: View)
    requires Sorted(rows) && v in rows && v.kind == kind
    ensures FirstOfKind(rows, kind).Some?
    ensures v == FirstOfKind(rows, kind).value || Before(FirstOfKind(rows, kind).value, v)
  {
    if rows[0].kind != kind { FirstPrecedes(rows[1..], kind, v); }
  }

  /** Two rows of the table with one id are one row. */
  lemma SameId(views: seq<View>, v: View, w: View)
    requires Ordered(views) && v in views && w in views && v.id == w.id
    ensures v == w
  {
    var i :| 0 <= i < |views| && views[i] == v;
    var j :| 0 <= j < |views| && views[j] == w;
    assert !(i < j) && !(j < i);
  }

  /** The first row of each type group is the single lookup, for tenants and globally. */
  lemma FirstRowIsActiveView(views: seq<View>, owner: nat, kind: ViewType, tenant: Option<nat>)
    requires Ordered(views)
    ensures FirstOfKind(Query(views, owner, tenant), kind) == ActiveView(views, owner, kind, tenant)
  {
    var rows := Query(views, owner, tenant);
    var first := FirstOfKind(rows, kind);
    var active := ActiveView(views, owner, kind, tenant);
    if active.Some? {
      FirstPrecedes(rows, kind, active.value);
      SameIdIfEqual(views, first.value, active.value);
    }
  }

  lemma SameIdIfEqual(views: seq<View>, v: View, w: View)
    requires Ordered(views) && v in views && w in views
    ensures v.id == w.id ==> v == w
  {
    if v.id == w.id { SameId(views, v, w); }
  }

  function Present(v: Option<View>): seq<View> {
    if v.Some? then [v.value] else []
  }

  /** The listing loop: keep the first row of each type, then order by type name. */
  method FirstWins(rows: seq<View>) returns (listing: seq<View>)
    ensures listing == Present(FirstOfKind(rows, DetailView)) + Present(FirstOfKind(rows, FormView))
                     + Present(FirstOfKind(rows, ListView))
  {
    var byViewType: map<ViewType, View> := map[];
    for i := 0 to |rows|
      invariant forall kind :: kind in byViewType <==> FirstOfKind(rows[..i], kind).Some?
      invariant forall kind :: kind in byViewType ==> byViewType[kind] == FirstOfKind(rows[..i], kind).value
    {
      assert rows[..i + 1] == rows[..i] + [rows[i]];
      forall kind { FirstOfKindSnoc(rows[..i], rows[i], kind); }
      if rows[i].kind !in byViewType {
        byViewType := byViewType[rows[i].kind := rows[i]];
      }
    }
    assert rows[..|rows|] == rows;
    listing := [];
    if DetailView in byViewType { listing := listing + [byViewType[DetailView]]; }
    if FormView in byViewType { listing := listing + [byViewType[FormView]]; }
    if ListView in byViewType { listing := listing + [byViewType[ListView]]; }
  }

  lemma {:induction false} FirstOfKindSnoc(rows: seq<View>, v: View, kind: ViewType)
    ensures FirstOfKind(rows + [v], kind) ==
      if FirstOfKind(rows, kind).Some? then FirstOfKind(rows, kind)
      else if v.kind == kind then Some(v) else None
  {
    if rows != [] {
      assert (rows + [v])[1..] == rows[1..] + [v];
      if rows[0].kind != kind { FirstOfKindSnoc(rows[1..], v, kind); }
    }
  }

  /** listActiveScopedConfigViews. A tenant's listing agrees with the single lookup for every
      view type and holds nothing else; in global scope all active global rows are listed, and
      the first row of each type agrees. */
  method ListActiveScopedConfigViews(views: seq<View>, owner: Option<nat>, tenantId: Option<int>) returns (listing: seq<View>)
    requires Ordered(views)
    ensures owner.None? ==> listing == []
    ensures owner.Some? && EffectiveTenant(tenantId).Some? ==>
      ListsActiveViews(listing, views, owner.value, EffectiveTenant(tenantId))
    ensures owner.Some? && EffectiveTenant(tenantId).None? ==> ListsGlobalViews(listing, views, owner.value)
  {
    var tenant := EffectiveTenant(tenantId);
    if owner.None? { return []; }
    var rows := Query(views, owner.value, tenant);
    forall kind { FirstRowIsActiveView(views, owner.value, kind, tenant); }
    if tenant.None? {
      GlobalRowsInOrder(views, owner.value);
      assert rows == Query(views, owner.value, None);
      return rows;
    }
    listing := FirstWins(rows);
    OnePerKind(listing, views, owner.value, tenant);
  }

  lemma GlobalRowsInOrder(views: seq<View>, owner: nat)
    requires Ordered(views)
    ensures InTableOrder(Query(views, owner, None))
  {
    var rows := Query(views, owner, None);
    forall i, j | 0 <= i < j < |rows|
      ensures RanksBefore(rows[i].kind, rows[j].kind) || (rows[i].kind == rows[j].kind && rows[i].id > rows[j].id)
    {
      assert rows[i] in rows && rows[j] in rows && Before(rows[i], rows[j]);
    }
  }

  lemma OnePerKind(listing: seq<View>, views: seq<View>, owner: nat, tenant: Option<nat>)
    requires listing == Present(ActiveView(views, owner, DetailView, tenant))
      + Present(ActiveView(views, owner, FormView, tenant)) + Present(ActiveView(views, owner, ListView, tenant))
    ensures ListsActiveViews(listing, views, owner, tenant)
  {
    var d, f, l := ActiveView(views, owner, DetailView, tenant), ActiveView(views, owner, FormView, tenant),
                   ActiveView(views, owner, ListView, tenant);
    forall v ensures v in listing <==> ActiveView(views, owner, v.kind, tenant) == Some(v) {
      InListing(d, f, l, v);
    }
    assert forall v :: v in Present(d) ==> v.kind == DetailView;
    assert forall v :: v in Present(f) ==> v.kind == FormView;
    assert forall v :: v in Present(l) ==> v.kind == ListView;
    InNameOrder(d, f, l);
  }

  lemma InListing(d: Option<View>, f: Option<View>, l: Option<View>, v: View)
    ensures v in Present(d) + Present(f) + Present(l) <==> d == Some(v) || f == Some(v) || l == Some(v)
  {}

  lemma InNameOrder(d: Option<View>, f: Option<View>, l: Option<View>)
    requires d.Some? ==> d.value.kind.DetailView?
    requires f.Some? ==> f.value.kind.FormView?
    requires l.Some? ==> l.value.kind.ListView?
    ensures var listing := Present(d) + Present(f) + Present(l);
      forall i, j :: 0 <= i < j < |listing| ==> AlphabeticallyBefore(listing[i].kind, listing[j].kind)
  {}

  /** Exactly the view the single lookup finds for each type, in the order of the type names. */
  ghost predicate ListsActiveViews(listing: seq<View>, views: seq<View>, owner: nat, tenant: Option<nat>) {
    && (forall v :: v in listing <==> ActiveView(views, owner, v.kind, tenant) == Some(v))
    && (forall i, j :: 0 <= i < j < |listing| ==> AlphabeticallyBefore(listing[i].kind, listing[j].kind))
  }

  /** `detail`, `form`, `list`. */
  predicate AlphabeticallyBefore(a: ViewType, b: ViewType) {
    (a.DetailView? && !b.DetailView?) || (a.FormView? && b.ListView?)
  }

  /** The order of the column's values: `list`, `detail`, `form`. */
  predicate RanksBefore(a: ViewType, b: ViewType) {
    (a.ListView? && !b.ListView?) || (a.DetailView? && b.FormView?)
  }

  /** By type, and newest first within a type. */
  ghost predicate InTableOrder(rows: seq<View>) {
    forall i, j :: 0 <= i < j < |rows| ==>
      RanksBefore(rows[i].kind, rows[j].kind) || (rows[i].kind == rows[j].kind && rows[i].id > rows[j].id)
  }

  /** Exactly the active global views, newest first within a type; the first of each type is what the single lookup finds. */
  ghost predicate ListsGlobalViews(listing: seq<View>, views: seq<View>, owner: nat) {
    && InTableOrder(listing)
    && (forall v :: v in listing <==> v in views && v.owner == owner && v.active && v.tenant.None?)
    && (forall kind :: FirstOfKind(listing, kind) == ActiveView(views, owner, kind, None))
  }

  // ----- switching views on and off -----

  function Switched(v: View, scope: Scope, except: Option<nat>): View {
    if InScope(v, scope) && except != Some(v.id) then v.(active := false) else v
  }

  /** UPDATE ... SET is_active = false over one scope, sparing one id. */
  function DeactivateScope(views: seq<View>, scope: Scope, except: Option<nat>): (r: seq<View>)
    ensures |r| == |views|
    ensures forall i :: 0 <= i < |views| ==> r[i] == Switched(views[i], scope, except)
  {
    seq(|views|, i requires 0 <= i < |views| => Switched(views[i], scope, except))
  }

  function WithId(views: seq<View>, id: nat): (r: Option<nat>)
    ensures r.Some? ==> r.value < |views| && views[r.value].id == id
    ensures r.None? ==> forall i :: 0 <= i < |views| ==> views[i].id != id
  {
    if views == [] then None
    else if views[|views| - 1].id == id then Some(|views| - 1)
    else WithId(views[..|views| - 1], id)
  }

  /** The target of an activation or deactivation by id: it must be of the requested object
      and type, and of the requested tenant scope. */
  function Target(views: seq<View>, scope: Scope, id: nat): (r: Outcome<nat>)
    ensures r.Ok? <==> exists i :: 0 <= i < |views| && views[i].id == id && InScope(views[i], scope) && WithId(views, id) == Some(i)
    ensures r.Ok? ==> r.value < |views| && views[r.value].id == id && InScope(views[r.value], scope)
  {
    var at := WithId(views, id);
    if at.None? || views[at.value].owner != scope.owner || views[at.value].kind != scope.kind then Thrown(ViewNotFound)
    else if views[at.value].tenant != scope.tenant then Thrown(ScopeTenantMismatch)
    else Ok(at.value)
  }

  function Activate(views: seq<View>, scope: Scope, id: nat): Outcome<seq<View>> {
    var at :- Target(views, scope, id);
    Ok(DeactivateScope(views, scope, Some(id))[at := views[at].(active := true)])
  }

  /** Deactivation of one view by id, or of the whole scope. */
  function Deactivate(views: seq<View>, scope: Scope, id: Option<nat>): Outcome<seq<View>> {
    if id.None? then Ok(DeactivateScope(views, scope, None))
    else
      var at := Target(views, scope, id.value);
      if at.Ok? then Ok(views[at.value := views[at.value].(active := false)])
      else if at.error.ViewNotFound? then Ok(views)
      else Thrown(at.error)
  }

  /** How many rows a deactivation writes. */
  function Affected(views: seq<View>, scope: Scope, id: Option<nat>): nat {
    if id.None? then |set i | 0 <= i < |views| && InScope(views[i], scope)|
    else if Target(views, scope, id.value).Ok? then 1
    else 0
  }

  lemma DeactivationKeepsUnique(views: seq<View>, r: seq<View>)
    requires Unique(views) && |r| == |views|
    requires forall i :: 0 <= i < |views| ==> r[i] == views[i] || r[i] == views[i].(active := false)
    ensures Unique(r)
  {
    forall i, j | 0 <= i < |r| && 0 <= j < |r| ensures !Clash(r[i], r[j]) {
      assert !Clash(views[i], views[j]);
    }
  }

  /** A row becomes, or stays, the active one of a scope that was cleared for it. */
  lemma SoleActiveKeepsUnique(views: seq<View>, scope: Scope, at: nat, row: View)
    requires Ordered(views) && Unique(views) && at < |views|
    requires row.id == views[at].id && InScope(row, scope)
    ensures Unique(DeactivateScope(views, scope, Some(row.id))[at := row])
    ensures Ordered(DeactivateScope(views, scope, Some(row.id))[at := row])
  {
    var r := DeactivateScope(views, scope, Some(row.id))[at := row];
    forall i, j | 0 <= i < |r| && 0 <= j < |r| ensures !Clash(r[i], r[j]) {
      assert !Clash(views[i], views[j]);
      assert i != at ==> views[i].id != row.id;
      assert j != at ==> views[j].id != row.id;
    }
  }

  ghost predicate IsTarget(v: View, scope: Scope, id: nat) {
    v.id == id && v.owner == scope.owner && v.kind == scope.kind
  }

  /** A view can be switched by its id when the object has one of that id and type, in the
      requested tenant scope; the two ways to miss are told apart. */
  lemma TargetIff(views: seq<View>, scope: Scope, id: nat)
    requires Ordered(views)
    ensures Target(views, scope, id) == Thrown(ViewNotFound) <==> forall i :: 0 <= i < |views| ==> !IsTarget(views[i], scope, id)
    ensures Target(views, scope, id) == Thrown(ScopeTenantMismatch) <==>
      exists i :: 0 <= i < |views| && IsTarget(views[i], scope, id) && views[i].tenant != scope.tenant
    ensures Target(views, scope, id).Ok? <==>
      exists i :: 0 <= i < |views| && IsTarget(views[i], scope, id) && views[i].tenant == scope.tenant
  {
    var at := WithId(views, id);
    forall i | 0 <= i < |views| && views[i].id == id ensures at == Some(i) {
      assert !(i < at.value) && !(at.value < i);
    }
    if at.Some? && IsTarget(views[at.value], scope, id) { assert at.value < |views|; }
  }

  /** Activation makes its target the one that is found, switches off the other views of the
      scope and touches no view outside it; at most one view per scope stays active. */
  lemma ActivateLaw(views: seq<View>, scope: Scope, id: nat)
    requires Ordered(views) && Unique(views)
    requires Activate(views, scope, id).Ok?
    ensures var r := Activate(views, scope, id).value;
      && Ordered(r) && Unique(r)
      && ActiveView(r, scope.owner, scope.kind, scope.tenant).Some?
      && ActiveView(r, scope.owner, scope.kind, scope.tenant).value.id == id
      && |r| == |views|
      && forall i :: 0 <= i < |views| ==>
           r[i] ==
             if views[i].owner == scope.owner && views[i].kind == scope.kind && views[i].tenant == scope.tenant
             then views[i].(active := views[i].id == id) else views[i]
  {
    var at := Target(views, scope, id).value;
    SoleActiveKeepsUnique(views, scope, at, views[at].(active := true));
    SoleActiveIsFound(DeactivateScope(views, scope, Some(id))[at := views[at].(active := true)], scope, at);
    assert forall i :: 0 <= i < |views| && views[i].id == id ==> i == at;
  }

  lemma SoleActiveIsFound(views: seq<View>, scope: Scope, at: nat)
    requires Ordered(views) && Unique(views)
    requires at < |views| && InScope(views[at], scope) && views[at].active
    ensures ActiveView(views, scope.owner, scope.kind, scope.tenant) == Some(views[at])
  {
    var found := Newest(views, scope);
    assert views[at] in views;
    var i :| 0 <= i < |views| && views[i] == found.value;
    assert !Clash(views[i], views[at]);
    SameId(views, found.value, views[at]);
  }

  /** Deactivation switches off the named view, or the whole scope, and touches nothing else. */
  lemma DeactivateLaw(views: seq<View>, scope: Scope, id: Option<nat>)
    requires Ordered(views) && Unique(views)
    requires Deactivate(views, scope, id).Ok?
    ensures var r := Deactivate(views, scope, id).value;
      && Ordered(r) && Unique(r)
      && (id.None? ==> Newest(r, scope).None?)
      && |r| == |views|
      && forall i :: 0 <= i < |views| ==>
           r[i] ==
             if views[i].owner == scope.owner && views[i].kind == scope.kind && views[i].tenant == scope.tenant
                && (id.Some? ==> views[i].id == id.value)
             then views[i].(active := false) else views[i]
  {
    var r := Deactivate(views, scope, id).value;
    DeactivationKeepsUnique(views, r);
    if id.None? {
      assert forall v :: v in r && InScope(v, scope) ==> !v.active;
    } else {
      TargetIff(views, scope, id.value);
    }
  }
}
