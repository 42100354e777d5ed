/** Which object rows a step that becomes ready gets provisioned, and with what. */
module Provisioning {
  import opened Basics
  import opened Json
  import opened Tables
  import opened StepObjects

  /** A pending row of the step, for a known config object, that the template does not leave to
      an existing object. */
  predicate ToProvision(catalog: Catalog, row: Binding, s: nat) {
    && row.step == s && row.status == BindingPending && row.configObject < |catalog.configObjects|
    && (row.binding.Some? && row.binding.value < |catalog.bindings| ==> catalog.bindings[row.binding.value].mode == CreateOnEnter)
  }

  /** The object of the row can be created on its own. */
  predicate Creates(catalog: Catalog, row: Binding, s: nat) {
    ToProvision(catalog, row, s) && catalog.configObjects[row.configObject] == Standalone
  }

  /** How many of the first `n` rows get an object. */
  function CreatedBefore(db: Db, s: nat, n: nat): nat
    requires n <= |db.bindings|
  {
    if n == 0 then 0
    else CreatedBefore(db, s, n - 1) + (if Creates(db.catalog, db.bindings[n - 1], s) then 1 else 0)
  }

  /** What provisioning makes of row `b`: active with the next new object, or failed. */
  function Provisioned(db: Db, s: nat, b: nat): Binding
    requires b < |db.bindings|
  {
    var row := db.bindings[b];
    if Creates(db.catalog, row, s) then
      row.(instance := Some(|db.objects| + CreatedBefore(db, s, b)), status := BindingActive)
    else if ToProvision(db.catalog, row, s) then row.(status := BindingFailed)
    else row
  }

  lemma {:induction false} CreatedGrows(db: Db, s: nat, m: nat, n: nat)
    requires m < n <= |db.bindings|
    ensures CreatedBefore(db, s, m) <= CreatedBefore(db, s, n)
    ensures Creates(db.catalog, db.bindings[m], s) ==> CreatedBefore(db, s, m) < CreatedBefore(db, s, n)
    decreases n
  {
    if m < n - 1 { CreatedGrows(db, s, m, n - 1); }
  }

  /** The first `n` rows are provisioned, the others as they were; each new object is an empty
      draft of the row's config object, in the tenant of the process. */
  ghost predicate ProvisionedUpTo(db: Db, r: Db, s: nat, tenant: int, n: nat)
    requires n <= |db.bindings|
  {
    && r == db.(bindings := r.bindings, objects := r.objects)
    && |r.bindings| == |db.bindings|
    && (forall b :: 0 <= b < n ==> r.bindings[b] == Provisioned(db, s, b))
    && (forall b :: n <= b < |db.bindings| ==> r.bindings[b] == db.bindings[b])
    && db.objects <= r.objects && |r.objects| == |db.objects| + CreatedBefore(db, s, n)
    && (forall b :: 0 <= b < n && Creates(db.catalog, db.bindings[b], s) ==> HasDraft(db, r, s, tenant, b))
  }

  ghost predicate HasDraft(db: Db, r: Db, s: nat, tenant: int, b: nat)
    requires b < |db.bindings|
  {
    var o := |db.objects| + CreatedBefore(db, s, b);
    o < |r.objects| && r.objects[o] == CustomObject(tenant, db.bindings[b].configObject, map[], Draft)
  }

  lemma {:induction false} ProvisionSnoc(db: Db, rows: seq<nat>, last: nat, tenant: int)
    requires (forall i :: i in rows ==> i < |db.bindings|) && last < |db.bindings|
    ensures forall i :: i in rows + [last] ==> i < |db.bindings|
    ensures ProvisionRows(db, rows + [last], tenant) == ProvisionRow(ProvisionRows(db, rows, tenant), last, tenant)
    decreases |rows|
  {
    if rows == [] {
      assert rows + [last] == [last];
      assert ProvisionRows(ProvisionRow(db, last, tenant), [last][1..], tenant) == ProvisionRow(db, last, tenant);
    } else {
      assert rows[0] in rows && forall i :: i in rows[1..] ==> i in rows;
      assert (rows + [last])[1..] == rows[1..] + [last] && (rows + [last])[0] == rows[0];
      ProvisionSnoc(ProvisionRow(db, rows[0], tenant), rows[1..], last, tenant);
    }
  }

  lemma {:induction false} ProvisionFirst(db: Db, s: nat, tenant: int, n: nat)
    requires n <= |db.bindings|
    ensures var rows := Select(n, Picks(db, s));
      (forall i :: i in rows ==> i < |db.bindings|) && ProvisionedUpTo(db, ProvisionRows(db, rows, tenant), s, tenant, n)
    decreases n
  {
    if n > 0 {
      ProvisionFirst(db, s, tenant, n - 1);
      ProvisionStep(db, Select(n - 1, Picks(db, s)), s, tenant, n);
    }
  }

  lemma ProvisionStep(db: Db, rows: seq<nat>, s: nat, tenant: int, n: nat)
    requires 0 < n <= |db.bindings| && rows == Select(n - 1, Picks(db, s))
    requires forall i :: i in rows ==> i < |db.bindings|
    requires ProvisionedUpTo(db, ProvisionRows(db, rows, tenant), s, tenant, n - 1)
    ensures var more := Select(n, Picks(db, s));
      (forall i :: i in more ==> i < |db.bindings|) && ProvisionedUpTo(db, ProvisionRows(db, more, tenant), s, tenant, n)
  {
    assert Picks(db, s)(n - 1) <==> ToProvision(db.catalog, db.bindings[n - 1], s);
    if Picks(db, s)(n - 1) {
      ProvisionSnoc(db, rows, n - 1, tenant);
      OneMore(db, ProvisionRows(db, rows, tenant), s, tenant, n);
    } else {
      OnePassedOver(db, ProvisionRows(db, rows, tenant), s, tenant, n);
    }
  }

  lemma OnePassedOver(db: Db, r: Db, s: nat, tenant: int, n: nat)
    requires 0 < n <= |db.bindings| && ProvisionedUpTo(db, r, s, tenant, n - 1) && !ToProvision(db.catalog, db.bindings[n - 1], s)
    ensures ProvisionedUpTo(db, r, s, tenant, n)
  {
    forall b | 0 <= b < n && Creates(db.catalog, db.bindings[b], s) ensures HasDraft(db, r, s, tenant, b) {
      assert b < n - 1 && HasDraft(db, r, s, tenant, b);
    }
  }

  lemma OneMore(db: Db, before: Db, s: nat, tenant: int, n: nat)
    requires 0 < n <= |db.bindings| && ProvisionedUpTo(db, before, s, tenant, n - 1) && ToProvision(db.catalog, db.bindings[n - 1], s)
    ensures ProvisionedUpTo(db, ProvisionRow(before, n - 1, tenant), s, tenant, n)
  {
    var r := ProvisionRow(before, n - 1, tenant);
    forall b | 0 <= b < n && Creates(db.catalog, db.bindings[b], s) ensures HasDraft(db, r, s, tenant, b) {
      if b < n - 1 { assert HasDraft(db, before, s, tenant, b); }
    }
  }

  /** Exactly the pending rows of the step for known config objects that are to be created on
      entry are provisioned: active with a new draft each, or failed where the config object is
      not standalone. Nothing else changes, and no other object appears. */
  lemma ProvisionDecides(flags: Flags, db: Db, s: nat)
    requires s < |db.steps| && db.steps[s].process < |db.procs|
    ensures var r, tenant := Provision(flags, db, s), db.procs[db.steps[s].process].tenant;
      if flags.objectSteps then ProvisionedUpTo(db, r, s, tenant, |db.bindings|) else r == db
  {
    if flags.objectSteps { ProvisionFirst(db, s, db.procs[db.steps[s].process].tenant, |db.bindings|); }
  }

  /** No two rows get one object. */
  lemma DraftsAreDistinct(flags: Flags, db: Db, s: nat, a: nat, b: nat)
    requires s < |db.steps| && db.steps[s].process < |db.procs|
    requires a < b < |db.bindings| && Creates(db.catalog, db.bindings[a], s) && Creates(db.catalog, db.bindings[b], s)
    ensures flags.objectSteps ==>
      var r := Provision(flags, db, s);
      r.bindings[a].instance != r.bindings[b].instance
  {
    ProvisionDecides(flags, db, s);
    CreatedGrows(db, s, a, b);
  }

  /** And every new object belongs to a row. */
  lemma {:induction false} EveryDraftHasItsRow(db: Db, s: nat, k: nat, n: nat) returns (b: nat)
    requires n <= |db.bindings| && k < CreatedBefore(db, s, n)
    ensures b < n && Creates(db.catalog, db.bindings[b], s) && CreatedBefore(db, s, b) == k
    decreases n
  {
    if k < CreatedBefore(db, s, n - 1) { b := EveryDraftHasItsRow(db, s, k, n - 1); } else { b := n - 1; }
  }

  /** Provisioning settles no row, and unsettles none. */
  lemma ProvisionSettlesNone(flags: Flags, db: Db, s: nat, x: nat)
    requires s < |db.steps| && db.steps[s].process < |db.procs|
    ensures BindingsValid(flags, Provision(flags, db, s), x) == BindingsValid(flags, db, x)
  {
    ProvisionDecides(flags, db, s);
    var r := Provision(flags, db, s);
    forall b | 0 <= b < |db.bindings|
      ensures r.bindings[b].step == db.bindings[b].step && Mandatory(r.catalog, r.bindings[b]) == Mandatory(db.catalog, db.bindings[b])
      ensures Settled(r.bindings[b]) == Settled(db.bindings[b])
    {
      assert flags.objectSteps ==> r.bindings[b] == Provisioned(db, s, b);
    }
  }
}
