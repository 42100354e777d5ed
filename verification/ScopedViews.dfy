/** Upserts of scoped views, the unique indexes that a saved row has to respect, and the table
    with all the operations that switch views on and off. */
module ScopedViews {
  import opened Basics
  import opened Json
  import opened Views
  import opened CacheKeys
  import PathText
  import Text

  // ----- the unique indexes -----

  function FoldedChar(c: char): char {
    if 'A' <= c <= 'Z' then c - 'A' + 'a' else c
  }

  /** What the key column compares: its collation ignores letter case and trailing spaces. */
  function Folded(key: string): string {
    if key == "" then ""
    else if key[|key| - 1] == ' ' then Folded(key[..|key| - 1])
    else seq(|key|, i requires 0 <= i < |key| => FoldedChar(key[i]))
  }

  /** Two keys compare as equal when they read the same but for the case of their letters. */
  lemma FoldedIff(a: string, b: string)
    requires a != "" && b != "" && a[|a| - 1] != ' ' && b[|b| - 1] != ' '
    ensures Folded(a) == Folded(b) <==> |a| == |b| && forall i :: 0 <= i < |a| ==> SameLetter(a[i], b[i])
  {
    if Folded(a) == Folded(b) {
      assert |Folded(a)| == |a| && |Folded(b)| == |b|;
      forall i | 0 <= i < |a| ensures SameLetter(a[i], b[i]) {
        assert Folded(a)[i] == Folded(b)[i];
      }
    }
  }

  predicate SameLetter(c: char, d: char) {
    || c == d
    || ('A' <= c <= 'Z' && d as int == c as int + 32)
    || ('A' <= d <= 'Z' && c as int == d as int + 32)
  }

  /** And spaces at the end of a key do not count. */
  lemma FoldedSpace(key: string)
    ensures Folded(key + " ") == Folded(key)
  {
    assert (key + " ")[..|key|] == key;
  }

  /** uq_view_key_per_object. */
  predicate SameKey(a: View, b: View) {
    a.owner == b.owner && Folded(a.key) == Folded(b.key)
  }

  /** No two rows collide in an index. */
  ghost predicate Indexed(views: seq<View>) {
    forall i, j :: 0 <= i < |views| && 0 <= j < |views| ==> !Collide(views[i], views[j])
  }

  predicate Collide(a: View, b: View) {
    (a.id != b.id && SameKey(a, b)) || Clash(a, b)
  }

  /** Saving `row` hits a duplicate-key error: some other row collides with it. */
  predicate Duplicate(views: seq<View>, row: View) {
    exists i :: 0 <= i < |views| && Collide(views[i], row)
  }

  lemma IndexedIsUnique(views: seq<View>)
    requires Indexed(views)
    ensures Unique(views)
  {
    forall i, j | 0 <= i < |views| && 0 <= j < |views| ensures !Clash(views[i], views[j]) {
      assert !Collide(views[i], views[j]);
    }
  }

  /** Switching views off never collides with anything. */
  lemma ClearingKeepsIndexed(views: seq<View>, scope: Scope, except: Option<nat>)
    requires Indexed(views)
    ensures Indexed(DeactivateScope(views, scope, except))
  {
    var r := DeactivateScope(views, scope, except);
    forall i, j | 0 <= i < |r| && 0 <= j < |r| ensures !Collide(r[i], r[j]) {
      assert !Collide(views[i], views[j]);
    }
  }

  lemma ReplacingKeepsIndexed(views: seq<View>, at: nat, row: View)
    requires Indexed(views) && at < |views| && row.id == views[at].id && !Duplicate(views, row)
    ensures Indexed(views[at := row])
  {
    var r := views[at := row];
    forall i, j | 0 <= i < |r| && 0 <= j < |r| ensures !Collide(r[i], r[j]) {
      assert !Collide(views[i], views[j]) && !Collide(views[i], row) && !Collide(views[j], row);
    }
  }

  lemma AppendingKeepsIndexed(views: seq<View>, row: View)
    requires Indexed(views) && !Duplicate(views, row)
    ensures Indexed(views + [row])
  {
    var r := views + [row];
    forall i, j | 0 <= i < |r| && 0 <= j < |r| ensures !Collide(r[i], r[j]) {
      assert i < |views| ==> r[i] == views[i] && !Collide(views[i], row);
      assert j < |views| ==> r[j] == views[j] && !Collide(views[j], row);
      assert i < |views| && j < |views| ==> !Collide(views[i], views[j]);
    }
  }

  // ----- activation and deactivation -----

  /** The save of an activation is never rejected: the scope was cleared for its target. */
  lemma ActivationIsStored(views: seq<View>, scope: Scope, id: nat)
    requires Ordered(views) && Indexed(views) && Activate(views, scope, id).Ok?
    ensures var at := Target(views, scope, id).value;
      !Duplicate(DeactivateScope(views, scope, Some(id)), views[at].(active := true))
    ensures Indexed(Activate(views, scope, id).value)
  {
    var at := Target(views, scope, id).value;
    var cleared, row := DeactivateScope(views, scope, Some(id)), views[at].(active := true);
    ClearingKeepsIndexed(views, scope, Some(id));
    forall i | 0 <= i < |cleared| ensures !Collide(cleared[i], row) {
      assert !Collide(views[i], views[at]);
    }
    ReplacingKeepsIndexed(cleared, at, row);
  }

  lemma DeactivationIsStored(views: seq<View>, scope: Scope, id: Option<nat>)
    requires Ordered(views) && Indexed(views) && Deactivate(views, scope, id).Ok?
    ensures Indexed(Deactivate(views, scope, id).value)
  {
    if id.None? {
      ClearingKeepsIndexed(views, scope, None);
    } else if Target(views, scope, id.value).Ok? {
      var at := Target(views, scope, id.value).value;
      var row := views[at].(active := false);
      forall i | 0 <= i < |views| ensures !Collide(views[i], row) {
        assert !Collide(views[i], views[at]);
      }
      ReplacingKeepsIndexed(views, at, row);
    }
  }

  // ----- upsert -----

  /** What a caller asks for; `isActive` defaults to true. `fits` tells whether the values fit
      the columns they are saved to. */
  datatype Change = Change(
    entityKey: string,
    id: Option<nat>,
    key: Option<string>,
    isActive: Option<bool>,
    content: Option<Option<Record>>,
    fits: bool)

  function ShouldActivate(change: Change): bool {
    if change.isActive.Some? then change.isActive.value else true
  }

  /** The requested key, or one made of entity, type and tenant. */
  function KeyFor(scope: Scope, change: Change): string {
    if change.key.Some? && PathText.Trim(change.key.value) != "" then PathText.Trim(change.key.value)
    else change.entityKey + "_" + KindText(scope.kind) + "_" + TenantText(scope.tenant)
  }

  function NewestAny(views: seq<View>, scope: Scope): (r: Option<nat>)
    ensures r.Some? ==> r.value < |views| && InScope(views[r.value], scope)
    ensures r.Some? ==> forall i :: r.value < i < |views| ==> !InScope(views[i], scope)
    ensures r.None? ==> forall i :: 0 <= i < |views| ==> !InScope(views[i], scope)
  {
    if views == [] then None
    else if InScope(views[|views| - 1], scope) then Some(|views| - 1)
    else NewestAny(views[..|views| - 1], scope)
  }

  /** The row an upsert edits: by id within the object, whatever its type and tenant, or the
      newest row of the scope. Id 0 counts as no id. */
  function Existing(views: seq<View>, scope: Scope, change: Change): (r: Option<nat>)
    ensures r.Some? ==> r.value < |views| && views[r.value].owner == scope.owner
  {
    if change.id.Some? && change.id.value != 0 then
      var at := WithId(views, change.id.value);
      if at.Some? && views[at.value].owner == scope.owner then at else None
    else NewestAny(views, scope)
  }

  /** The edited row takes the requested type and key, but keeps its own tenant. */
  function Edited(v: View, scope: Scope, change: Change): View {
    v.(key := KeyFor(scope, change), kind := scope.kind, active := ShouldActivate(change),
       content := if change.content.Some? then change.content.value else v.content)
  }

  function Created(scope: Scope, change: Change, id: nat): View {
    View(id, scope.owner, KeyFor(scope, change), scope.kind, scope.tenant, ShouldActivate(change),
         if change.content.Some? then change.content.value else None)
  }

  /** An activating request first switches off the scope; this is not undone by what follows. */
  function Cleared(views: seq<View>, scope: Scope, change: Change, except: Option<nat>): (r: seq<View>)
    ensures |r| == |views|
    ensures forall i :: 0 <= i < |views| ==>
      r[i] == if ShouldActivate(change) then Switched(views[i], scope, except) else views[i]
  {
    if ShouldActivate(change) then DeactivateScope(views, scope, except) else views
  }

  predicate Rejected(views: seq<View>, row: View, change: Change) {
    !change.fits || Duplicate(views, row)
  }

  /** Panel and form checks apply to detail and form views only. */
  predicate PanelsPass(scope: Scope, panelsOk: bool) {
    scope.kind.ListView? || panelsOk
  }

  function Update(views: seq<View>, scope: Scope, change: Change, at: nat): (seq<View>, bool)
    requires at < |views|
  {
    var cleared, row := Cleared(views, scope, change, Some(views[at].id)), Edited(views[at], scope, change);
    if Rejected(cleared, row, change) then (cleared, true) else (cleared[at := row], false)
  }

  function Create(views: seq<View>, nextId: nat, scope: Scope, change: Change, panelsOk: bool): (seq<View>, bool) {
    var cleared, row := Cleared(views, scope, change, None), Created(scope, change, nextId);
    if Rejected(cleared, row, change) || !PanelsPass(scope, panelsOk) then (cleared, true) else (cleared + [row], false)
  }

  /** upsertScopedConfigView. `configOk` is the outcome of the checks made before any write;
      `panelsOk` that of the panel and form checks, which for a new row run only after it was
      saved and remove it again when they fail. The flag tells whether the call threw. */
  function Upsert(views: seq<View>, nextId: nat, scope: Scope, change: Change, configOk: bool, panelsOk: bool): (seq<View>, bool) {
    var at := Existing(views, scope, change);
    if !configOk then (views, true)
    else if at.None? then Create(views, nextId, scope, change, panelsOk)
    else if !PanelsPass(scope, panelsOk) then (views, true)
    else Update(views, scope, change, at.value)
  }

  // ----- what an upsert keeps -----

  ghost predicate FreshId(views: seq<View>, nextId: nat) {
    forall i :: 0 <= i < |views| ==> views[i].id < nextId
  }

  lemma ClearedKeepsIndexed(views: seq<View>, scope: Scope, change: Change, except: Option<nat>)
    requires Ordered(views) && Indexed(views)
    ensures var r := Cleared(views, scope, change, except); Ordered(r) && Indexed(r)
    ensures forall i :: 0 <= i < |views| ==> Cleared(views, scope, change, except)[i].id == views[i].id
  {
    if ShouldActivate(change) { ClearingKeepsIndexed(views, scope, except); }
  }

  lemma UpdateKeepsIndexed(views: seq<View>, scope: Scope, change: Change, at: nat)
    requires Ordered(views) && Indexed(views) && at < |views|
    ensures var r := Update(views, scope, change, at).0;
      && Ordered(r) && Indexed(r) && |r| == |views|
      && forall i :: 0 <= i < |r| ==> r[i].id == views[i].id
  {
    var cleared, row := Cleared(views, scope, change, Some(views[at].id)), Edited(views[at], scope, change);
    ClearedKeepsIndexed(views, scope, change, Some(views[at].id));
    if !Rejected(cleared, row, change) { ReplacingKeepsIndexed(cleared, at, row); }
  }

  lemma CreateKeepsIndexed(views: seq<View>, nextId: nat, scope: Scope, change: Change, panelsOk: bool)
    requires Ordered(views) && Indexed(views) && FreshId(views, nextId)
    ensures var r := Create(views, nextId, scope, change, panelsOk).0;
      Ordered(r) && Indexed(r) && FreshId(r, nextId + 1)
  {
    var cleared, row := Cleared(views, scope, change, None), Created(scope, change, nextId);
    ClearedKeepsIndexed(views, scope, change, None);
    if !Rejected(cleared, row, change) { AppendingKeepsIndexed(cleared, row); }
  }

  /** Every upsert, thrown ones included, leaves at most one active view per scope and every
      key used once. */
  lemma UpsertKeepsIndexed(views: seq<View>, nextId: nat, scope: Scope, change: Change, configOk: bool, panelsOk: bool)
    requires Ordered(views) && Indexed(views) && FreshId(views, nextId)
    ensures var r := Upsert(views, nextId, scope, change, configOk, panelsOk).0;
      Ordered(r) && Indexed(r) && Unique(r) && FreshId(r, nextId + 1)
  {
    var at := Existing(views, scope, change);
    if at.Some? {
      UpdateKeepsIndexed(views, scope, change, at.value);
    } else {
      CreateKeepsIndexed(views, nextId, scope, change, panelsOk);
    }
    IndexedIsUnique(Upsert(views, nextId, scope, change, configOk, panelsOk).0);
  }

  // ----- when an upsert throws -----

  predicate HasKey(v: View, owner: nat, key: string) {
    v.owner == owner && Folded(v.key) == Folded(key)
  }

  /** Another view of the object has the key. */
  predicate KeyTaken(views: seq<View>, scope: Scope, change: Change) {
    var at := Existing(views, scope, change);
    exists i :: 0 <= i < |views| && Some(i) != at && HasKey(views[i], scope.owner, KeyFor(scope, change))
  }

  /** The edited row belongs to another tenant scope, where an active view of the requested
      type already exists. */
  predicate Trespasses(views: seq<View>, scope: Scope, change: Change) {
    var at := Existing(views, scope, change);
    && at.Some? && ShouldActivate(change)
    && views[at.value].tenant != scope.tenant
    && exists i :: 0 <= i < |views| && i != at.value && views[i].active
         && InScope(views[i], Scope(scope.owner, scope.kind, views[at.value].tenant))
  }

  /** The save fails, after the scope was switched off. */
  predicate CannotSave(views: seq<View>, scope: Scope, change: Change) {
    !change.fits || KeyTaken(views, scope, change) || Trespasses(views, scope, change)
  }

  /** A row of `views` collides with the edited one through its key, or as the active view of
      a scope that was not cleared. */
  lemma CollidesIff(v: View, scope: Scope, change: Change, edited: View)
    requires edited.owner == scope.owner && edited.kind == scope.kind && edited.active == ShouldActivate(change)
    requires edited.key == KeyFor(scope, change)
    ensures var w := if ShouldActivate(change) then Switched(v, scope, Some(edited.id)) else v;
      Collide(w, edited) <==>
        && v.id != edited.id
        && (HasKey(v, scope.owner, KeyFor(scope, change))
            || (ShouldActivate(change) && edited.tenant != scope.tenant && v.active
                && InScope(v, Scope(scope.owner, scope.kind, edited.tenant))))
  {}

  lemma UpdateRejectedIff(views: seq<View>, scope: Scope, change: Change)
    requires Ordered(views) && Existing(views, scope, change).Some?
    ensures var at := Existing(views, scope, change).value;
      Duplicate(Cleared(views, scope, change, Some(views[at].id)), Edited(views[at], scope, change)) <==>
        KeyTaken(views, scope, change) || Trespasses(views, scope, change)
  {
    var at := Existing(views, scope, change).value;
    var cleared, row := Cleared(views, scope, change, Some(views[at].id)), Edited(views[at], scope, change);
    forall i | 0 <= i < |views|
      ensures Collide(cleared[i], row) <==>
        && i != at
        && (HasKey(views[i], scope.owner, KeyFor(scope, change))
            || (ShouldActivate(change) && views[at].tenant != scope.tenant && views[i].active
                && InScope(views[i], Scope(scope.owner, scope.kind, views[at].tenant))))
    {
      CollidesIff(views[i], scope, change, row);
    }
  }

  lemma CreateRejectedIff(views: seq<View>, nextId: nat, scope: Scope, change: Change)
    requires FreshId(views, nextId) && Existing(views, scope, change).None?
    ensures Duplicate(Cleared(views, scope, change, None), Created(scope, change, nextId)) <==>
      KeyTaken(views, scope, change)
  {
    var cleared, row := Cleared(views, scope, change, None), Created(scope, change, nextId);
    forall i | 0 <= i < |views|
      ensures Collide(cleared[i], row) <==> HasKey(views[i], scope.owner, KeyFor(scope, change))
    {
      assert views[i].id != row.id;
      assert Switched(views[i], scope, None) == Switched(views[i], scope, Some(nextId));
      CollidesIff(views[i], scope, change, row);
    }
  }

  /** An upsert throws exactly when a check fails, its values do not fit, the key is taken, or
      it would switch on a view of another tenant scope beside an active one. */
  lemma UpsertThrowsIff(views: seq<View>, nextId: nat, scope: Scope, change: Change, configOk: bool, panelsOk: bool)
    requires Ordered(views) && Indexed(views) && FreshId(views, nextId)
    ensures Upsert(views, nextId, scope, change, configOk, panelsOk).1 <==>
      !configOk || (!scope.kind.ListView? && !panelsOk)
      || !change.fits || KeyTaken(views, scope, change) || Trespasses(views, scope, change)
  {
    if Existing(views, scope, change).Some? {
      UpdateRejectedIff(views, scope, change);
    } else {
      CreateRejectedIff(views, nextId, scope, change);
    }
  }

  // ----- what a thrown upsert loses -----

  /** A view other than the edited row is active in the scope. */
  predicate OtherActive(views: seq<View>, scope: Scope, change: Change) {
    var at := Existing(views, scope, change);
    exists i :: 0 <= i < |views| && Some(i) != at && views[i].active && InScope(views[i], scope)
  }

  /** A thrown call gets as far as switching off the scope: an edit fails in its save, a new
      row in its save or in the panel checks behind it. */
  predicate ThrowsLate(views: seq<View>, scope: Scope, change: Change, configOk: bool, panelsOk: bool) {
    configOk &&
    if Existing(views, scope, change).Some? then PanelsPass(scope, panelsOk) && CannotSave(views, scope, change)
    else !PanelsPass(scope, panelsOk) || CannotSave(views, scope, change)
  }

  /** The row whose id the clearing spares. */
  function Spared(views: seq<View>, at: Option<nat>): Option<nat>
    requires at.Some? ==> at.value < |views|
  {
    if at.Some? then Some(views[at.value].id) else None
  }

  /** The view that is switched off was the only active one of the scope. */
  lemma ClearingLosesActive(views: seq<View>, scope: Scope, except: Option<nat>, i: nat)
    requires Indexed(views) && i < |views| && views[i].active && InScope(views[i], scope) && except != Some(views[i].id)
    ensures var r := DeactivateScope(views, scope, except);
      r != views && Newest(views, scope).Some? && Newest(r, scope).None?
  {
    var r := DeactivateScope(views, scope, except);
    assert views[i] in views && !r[i].active;
    forall j | 0 <= j < |r| && InScope(r[j], scope) ensures !r[j].active {
      assert !Collide(views[i], views[j]);
    }
    assert forall v :: v in r && InScope(v, scope) ==> !v.active;
  }

  lemma ClearedChangesIff(views: seq<View>, scope: Scope, change: Change)
    requires Ordered(views) && Indexed(views)
    ensures var r := Cleared(views, scope, change, Spared(views, Existing(views, scope, change)));
      && (r != views <==> ShouldActivate(change) && OtherActive(views, scope, change))
      && (r != views ==> Newest(views, scope).Some? && Newest(r, scope).None?)
  {
    var at := Existing(views, scope, change);
    var except := Spared(views, at);
    var r := Cleared(views, scope, change, except);
    if ShouldActivate(change) && OtherActive(views, scope, change) {
      var i :| 0 <= i < |views| && Some(i) != at && views[i].active && InScope(views[i], scope);
      ClearingLosesActive(views, scope, except, i);
    } else {
      assert forall i :: 0 <= i < |views| ==> r[i] == views[i];
    }
  }

  /** A call that throws late leaves the cleared table behind, one that throws early nothing. */
  lemma ThrownResult(views: seq<View>, nextId: nat, scope: Scope, change: Change, configOk: bool, panelsOk: bool)
    requires Ordered(views) && FreshId(views, nextId)
    requires Upsert(views, nextId, scope, change, configOk, panelsOk).1
    ensures Upsert(views, nextId, scope, change, configOk, panelsOk).0 ==
      if ThrowsLate(views, scope, change, configOk, panelsOk)
      then Cleared(views, scope, change, Spared(views, Existing(views, scope, change))) else views
  {
    if Existing(views, scope, change).Some? {
      UpdateRejectedIff(views, scope, change);
    } else {
      CreateRejectedIff(views, nextId, scope, change);
    }
  }

  /** What a thrown upsert changes: nothing, except that one which throws late, asks for
      activation and finds another view active in its scope switches that view off, and the
      scope is left without an active view. */
  lemma ThrownUpsertLosesActiveIff(views: seq<View>, nextId: nat, scope: Scope, change: Change, configOk: bool, panelsOk: bool)
    requires Ordered(views) && Indexed(views) && FreshId(views, nextId)
    requires Upsert(views, nextId, scope, change, configOk, panelsOk).1
    ensures var r := Upsert(views, nextId, scope, change, configOk, panelsOk).0;
      && (r != views <==>
            && ThrowsLate(views, scope, change, configOk, panelsOk)
            && ShouldActivate(change) && OtherActive(views, scope, change))
      && (r != views ==> Newest(views, scope).Some? && Newest(r, scope).None?)
  {
    ThrownResult(views, nextId, scope, change, configOk, panelsOk);
    ClearedChangesIff(views, scope, change);
  }

  // ----- what a successful upsert stores -----

  /** The row that is edited: the one with the requested id, if it is the object's own, or
      without an id the newest of the scope, active or not. */
  lemma ExistingIff(views: seq<View>, scope: Scope, change: Change, i: nat)
    requires Ordered(views) && i < |views|
    ensures Existing(views, scope, change) == Some(i) <==>
      if change.id.Some? && change.id.value != 0 then views[i].id == change.id.value && views[i].owner == scope.owner
      else
        && views[i].owner == scope.owner && views[i].kind == scope.kind && views[i].tenant == scope.tenant
        && forall j :: i < j < |views| ==> views[j].owner != scope.owner || views[j].kind != scope.kind || views[j].tenant != scope.tenant
  {}

  /** The row holds what was asked for: an edited one keeps its id and tenant, a key that is
      missing or blank is made of entity, type and tenant, and content is kept if none is given. */
  ghost predicate HoldsRequest(saved: View, views: seq<View>, nextId: nat, scope: Scope, change: Change) {
    var at := Existing(views, scope, change);
    && saved.id == (if at.Some? then views[at.value].id else nextId)
    && saved.owner == scope.owner && saved.kind == scope.kind
    && saved.tenant == (if at.Some? then views[at.value].tenant else scope.tenant)
    && (saved.active <==> change.isActive != Some(false))
    && saved.key ==
         (if change.key.Some? && PathText.Trim(change.key.value) != "" then PathText.Trim(change.key.value)
          else change.entityKey + "_" + (match scope.kind case ListView => "list" case DetailView => "detail" case FormView => "form")
               + "_" + (if scope.tenant.Some? then Text.DecimalNat(scope.tenant.value) else "global"))
    && saved.content ==
         (if change.content.Some? then change.content.value else if at.Some? then views[at.value].content else None)
  }

  /** An upsert that passes its checks and can be saved replaces the edited row, or appends a
      new one; an activating one switches off the other views of the requested scope, and every
      further row is as it was. */
  lemma UpsertStores(views: seq<View>, nextId: nat, scope: Scope, change: Change, panelsOk: bool)
    requires Ordered(views) && Indexed(views) && FreshId(views, nextId)
    requires PanelsPass(scope, panelsOk) && !CannotSave(views, scope, change)
    ensures var at := Existing(views, scope, change);
      var (r, threw) := Upsert(views, nextId, scope, change, true, panelsOk);
      && !threw
      && |r| == |views| + (if at.Some? then 0 else 1)
      && HoldsRequest(r[if at.Some? then at.value else |views|], views, nextId, scope, change)
      && forall i :: 0 <= i < |views| && Some(i) != at ==>
           r[i] ==
             if change.isActive != Some(false)
                && views[i].owner == scope.owner && views[i].kind == scope.kind && views[i].tenant == scope.tenant
             then views[i].(active := false) else views[i]
  {
    UpsertThrowsIff(views, nextId, scope, change, true, panelsOk);
  }

  /** A successful activating upsert is what the lookup finds, with all that was asked for, in
      the tenant scope of its row. */
  lemma UpsertIsFound(views: seq<View>, nextId: nat, scope: Scope, change: Change, panelsOk: bool)
    requires Ordered(views) && Indexed(views) && FreshId(views, nextId)
    requires change.isActive != Some(false) && PanelsPass(scope, panelsOk) && !CannotSave(views, scope, change)
    ensures var at := Existing(views, scope, change);
      var (r, threw) := Upsert(views, nextId, scope, change, true, panelsOk);
      var tenant := if at.Some? then views[at.value].tenant else scope.tenant;
      var found := ActiveView(r, scope.owner, scope.kind, tenant);
      !threw && found.Some? && HoldsRequest(found.value, views, nextId, scope, change)
  {
    UpsertStores(views, nextId, scope, change, panelsOk);
    UpsertKeepsIndexed(views, nextId, scope, change, true, panelsOk);
    var r := Upsert(views, nextId, scope, change, true, panelsOk).0;
    var at := Existing(views, scope, change);
    var tenant := if at.Some? then views[at.value].tenant else scope.tenant;
    SoleActiveIsFound(r, Scope(scope.owner, scope.kind, tenant), if at.Some? then at.value else |views|);
  }

  // ----- the failing inputs -----

  lemma FoldedLength(key: string)
    requires key != "" && key[|key| - 1] != ' '
    ensures |Folded(key)| == |key|
  {}

  lemma TrimmedKey(change: Change, scope: Scope)
    requires change.key == Some("wxyz")
    ensures KeyFor(scope, change) == "wxyz"
  {
    assert PathText.TrimStart("wxyz") == "wxyz";
    assert PathText.TrimEnd("wxyz") == "wxyz";
  }

  /** Two list views of the global scope, the active one under the default key. */
  function TwoKeys(): seq<View> {
    [View(1, 9, "project_list_global", ListView, None, true, None), View(2, 9, "other", ListView, None, false, None)]
  }

  lemma TwoKeysAreIndexed()
    ensures Ordered(TwoKeys()) && Indexed(TwoKeys())
  {
    FoldedLength("project_list_global");
    FoldedLength("other");
  }

  /** An edit of the other view without a key takes the default key: it throws, and no list view
      is active any more. */
  lemma KeyCollisionExample()
    ensures var views, scope := TwoKeys(), Scope(9, ListView, None);
      var change := Change("project", Some(2), None, None, None, true);
      var (r, threw) := Upsert(views, 3, scope, change, true, true);
      && Ordered(views) && Indexed(views) && KeyTaken(views, scope, change) && !Trespasses(views, scope, change)
      && threw && Newest(views, scope).Some? && Newest(r, scope).None?
  {
    var views, scope := TwoKeys(), Scope(9, ListView, None);
    var change := Change("project", Some(2), None, None, None, true);
    TwoKeysAreIndexed();
    assert Existing(views, scope, change) == Some(1);
    assert KeyTaken(views, scope, change) by {
      assert KeyFor(scope, change) == "project" + "_" + "list" + "_" + "global" == views[0].key;
      assert HasKey(views[0], scope.owner, KeyFor(scope, change));
    }
    assert OtherActive(views, scope, change) by { assert views[0].active && InScope(views[0], scope); }
    UpsertThrowsIff(views, 3, scope, change, true, true);
    ThrownUpsertLosesActiveIff(views, 3, scope, change, true, true);
  }

  /** Two list views of tenant 2, the older one active, and the active one of tenant 1. */
  function TwoTenants(): seq<View> {
    [View(1, 9, "a", ListView, Some(2), true, None), View(2, 9, "ab", ListView, Some(2), false, None),
     View(3, 9, "abc", ListView, Some(1), true, None)]
  }

  lemma TwoTenantsAreIndexed()
    ensures Ordered(TwoTenants()) && Indexed(TwoTenants())
    ensures forall v :: v in TwoTenants() ==> |Folded(v.key)| < 4
  {
    FoldedLength("a");
    FoldedLength("ab");
    FoldedLength("abc");
  }

  /** Tenant 1 edits, by id, the inactive list view of tenant 2, which has an active one: the
      save is rejected, and tenant 1 has lost its own active list view. */
  lemma TrespassExample()
    ensures var views, scope := TwoTenants(), Scope(9, ListView, Some(1));
      var change := Change("project", Some(2), Some("wxyz"), None, None, true);
      var (r, threw) := Upsert(views, 4, scope, change, true, true);
      && Ordered(views) && Indexed(views) && !KeyTaken(views, scope, change) && Trespasses(views, scope, change)
      && threw && Newest(views, scope).Some? && Newest(r, scope).None?
  {
    var views, scope := TwoTenants(), Scope(9, ListView, Some(1));
    var change := Change("project", Some(2), Some("wxyz"), None, None, true);
    TwoTenantsAreIndexed();
    assert Existing(views, scope, change) == Some(1);
    assert !KeyTaken(views, scope, change) by {
      TrimmedKey(change, scope);
      FoldedLength("wxyz");
      assert forall i :: 0 <= i < |views| ==> views[i] in views;
    }
    assert Trespasses(views, scope, change) by {
      assert views[0].active && InScope(views[0], Scope(9, ListView, Some(2)));
    }
    assert OtherActive(views, scope, change) by { assert views[2].active && InScope(views[2], scope); }
    UpsertThrowsIff(views, 4, scope, change, true, true);
    ThrownUpsertLosesActiveIff(views, 4, scope, change, true, true);
  }

  /** The form view of the scope is active, the request names id 7, which does not exist, and
      the panel checks of the new row fail. */
  lemma LostViewExample()
    ensures var views := [View(1, 9, "a", FormView, None, true, None)];
      var scope, change := Scope(9, FormView, None), Change("project", Some(7), Some("wxyz"), None, None, true);
      var (r, threw) := Upsert(views, 2, scope, change, true, false);
      && Ordered(views) && Indexed(views) && !CannotSave(views, scope, change) && threw
      && ActiveView(views, 9, FormView, None).Some? && ActiveView(r, 9, FormView, None).None?
  {
    var views := [View(1, 9, "a", FormView, None, true, None)];
    var scope, change := Scope(9, FormView, None), Change("project", Some(7), Some("wxyz"), None, None, true);
    TrimmedKey(change, scope);
    FoldedLength("wxyz");
    FoldedLength("a");
    assert views[0].active && InScope(views[0], scope);
    ThrownUpsertLosesActiveIff(views, 2, scope, change, true, false);
  }

  // ----- the table -----

  class ViewStore {
    var views: seq<View>
    var nextId: nat

    /** Ids are handed out in increasing order, from 1, and the unique indexes hold. */
    ghost predicate Valid()
      reads this
    {
      && 0 < nextId && Ordered(views) && Indexed(views) && FreshId(views, nextId)
      && forall i :: 0 <= i < |views| ==> 0 < views[i].id
    }

    constructor ()
      ensures Valid() && views == []
    {
      views, nextId := [], 1;
    }

    method DeactivateViewsInScope(scope: Scope, except: Option<nat>)
      requires Valid()
      modifies `views
      ensures Valid() && views == DeactivateScope(old(views), scope, except)
    {
      ClearingKeepsIndexed(views, scope, except);
      views := DeactivateScope(views, scope, except);
    }

    /** Keeps one active view per scope, and makes the target the one that is found. */
    method ActivateScopedConfigView(scope: Scope, id: nat) returns (r: Outcome<View>)
      requires Valid()
      modifies `views
      ensures Valid()
      ensures var spec := Activate(old(views), scope, id);
        if spec.Ok? then r.Ok? && views == spec.value else r == Thrown(spec.error) && views == old(views)
      ensures r.Ok? ==> ActiveView(views, scope.owner, scope.kind, scope.tenant) == r.ToOption()
    {
      IndexedIsUnique(views);
      if Activate(views, scope, id).Ok? {
        ActivateLaw(views, scope, id);
        ActivationIsStored(views, scope, id);
      }
      var at := WithId(views, id);
      if at.None? || views[at.value].owner != scope.owner || views[at.value].kind != scope.kind {
        return Thrown(ViewNotFound);
      }
      if views[at.value].tenant != scope.tenant { return Thrown(ScopeTenantMismatch); }
      var target := views[at.value].(active := true);
      DeactivateViewsInScope(scope, Some(id));
      Save(at.value, target);
      r := Ok(target);
    }

    method DeactivateScopedConfigView(scope: Scope, id: Option<nat>) returns (r: Outcome<nat>)
      requires Valid()
      modifies `views
      ensures Valid()
      ensures var spec := Deactivate(old(views), scope, id);
        if spec.Ok? then r == Ok(Affected(old(views), scope, id)) && views == spec.value
        else r == Thrown(spec.error) && views == old(views)
    {
      if Deactivate(views, scope, id).Ok? { DeactivationIsStored(views, scope, id); }
      if id.None? {
        var affected := |set i | 0 <= i < |views| && InScope(views[i], scope)|;
        DeactivateViewsInScope(scope, None);
        return Ok(affected);
      }
      var at := WithId(views, id.value);
      if at.None? || views[at.value].owner != scope.owner || views[at.value].kind != scope.kind { return Ok(0); }
      if views[at.value].tenant != scope.tenant { return Thrown(ScopeTenantMismatch); }
      var target := views[at.value].(active := false);
      Collisionless(at.value, target);
      Save(at.value, target);
      r := Ok(1);
    }

    /** Writes a row that collides with no other. */
    method Save(at: nat, row: View)
      requires Valid() && at < |views| && row.id == views[at].id && !Duplicate(views, row)
      modifies `views
      ensures Valid() && views == old(views)[at := row]
    {
      ReplacingKeepsIndexed(views, at, row);
      views := views[at := row];
    }

    lemma Collisionless(at: nat, row: View)
      requires Valid() && at < |views| && row == views[at].(active := false)
      ensures !Duplicate(views, row)
    {
      forall i | 0 <= i < |views| ensures !Collide(views[i], row) {
        assert !Collide(views[i], views[at]);
      }
    }

    /** The indexes hold after every upsert; what is lost when it throws is not restored. */
    method UpsertScopedConfigView(scope: Scope, change: Change, configOk: bool, panelsOk: bool) returns (r: Outcome<View>)
      requires Valid()
      modifies this
      ensures Valid() && Unique(views)
      ensures (views, r.Thrown?) == Upsert(old(views), old(nextId), scope, change, configOk, panelsOk)
      ensures r.Thrown? <==>
        !configOk || !PanelsPass(scope, panelsOk) || old(CannotSave(views, scope, change))
      ensures r.Thrown? ==>
        var late := configOk && old(CannotSave(views, scope, change));
        r.error == if late && (old(Existing(views, scope, change)).None? || PanelsPass(scope, panelsOk)) then SaveRejected else InvalidViewConfig
      ensures r.Ok? ==> r.value in views
    {
      UpsertThrowsIff(views, nextId, scope, change, configOk, panelsOk);
      if Existing(views, scope, change).None? { CreateRejectedIff(views, nextId, scope, change); }
      IndexedIsUnique(views);
      if !configOk { return Thrown(InvalidViewConfig); }
      var at := Existing(views, scope, change);
      if at.Some? {
        if !PanelsPass(scope, panelsOk) { return Thrown(InvalidViewConfig); }
        r := UpdateExisting(scope, change, at.value);
      } else {
        r := CreateRow(scope, change, panelsOk);
      }
      IndexedIsUnique(views);
    }

    /** Switches off the scope, then saves; a rejected save leaves the scope switched off. */
    method UpdateExisting(scope: Scope, change: Change, at: nat) returns (r: Outcome<View>)
      requires Valid() && at < |views|
      modifies `views
      ensures Valid() && (views, r.Thrown?) == Update(old(views), scope, change, at)
      ensures r.Thrown? ==> r.error == SaveRejected
      ensures r.Ok? ==> r.value in views
    {
      var existing := Edited(views[at], scope, change);
      if existing.active { DeactivateViewsInScope(scope, Some(existing.id)); }
      if Rejected(views, existing, change) { return Thrown(SaveRejected); }
      Save(at, existing);
      assert views[at] == existing;
      r := Ok(existing);
    }

    /** The panel checks need the saved row; when they fail it is removed again. */
    method CreateRow(scope: Scope, change: Change, panelsOk: bool) returns (r: Outcome<View>)
      requires Valid()
      modifies this
      ensures Valid() && (views, r.Thrown?) == Create(old(views), old(nextId), scope, change, panelsOk)
      ensures r.Thrown? ==>
        var rejected := old(Rejected(Cleared(views, scope, change, None), Created(scope, change, nextId), change));
        r.error == if rejected then SaveRejected else InvalidViewConfig
      ensures r.Ok? ==> r.value in views
    {
      if ShouldActivate(change) { DeactivateViewsInScope(scope, None); }
      var saved := Created(scope, change, nextId);
      if Rejected(views, saved, change) { return Thrown(SaveRejected); }
      AppendingKeepsIndexed(views, saved);
      views, nextId := views + [saved], nextId + 1;
      assert views[|views| - 1] == saved;
      if !PanelsPass(scope, panelsOk) {
        RemoveNewest();
        return Thrown(InvalidViewConfig);
      }
      r := Ok(saved);
    }

    /** Takes the row that was just saved out again. */
    method RemoveNewest()
      requires Valid() && views != []
      modifies `views
      ensures Valid() && views == old(views)[..|old(views)| - 1]
    {
      var rest := views[..|views| - 1];
      assert forall i :: 0 <= i < |rest| ==> rest[i] == views[i];
      views := rest;
    }
  }
}
