/** Gates of a step (requirements, object bindings, triggers) and the life of its binding
    rows: provisioning when the step becomes ready, validation when an object changes. */
module StepObjects {
  import opened Basics
  import opened Json
  import opened Tables
  import CompletionRule

  // ----- gates -----

  /** COALESCE(b.is_mandatory, 1) over the LEFT JOIN with the template binding. */
  predicate Mandatory(catalog: Catalog, row: Binding) {
    match row.binding
    case None => true
    case Some(b) => if b < |catalog.bindings| then catalog.bindings[b].mandatory else true
  }

  predicate Settled(row: Binding) {
    row.status.BindingValid? || row.status.BindingSkipped?
  }

  predicate BindingsValid(flags: Flags, db: Db, s: nat) {
    flags.objectSteps ==>
      forall i :: 0 <= i < |db.bindings| && db.bindings[i].step == s && Mandatory(db.catalog, db.bindings[i])
        ==> Settled(db.bindings[i])
  }

  predicate RequirementsApproved(db: Db, s: nat) {
    forall i :: 0 <= i < |db.reqs| && db.reqs[i].step == s && db.reqs[i].mandatory ==> db.reqs[i].approved
  }

  predicate GatesOpen(flags: Flags, db: Db, s: nat) {
    RequirementsApproved(db, s) && BindingsValid(flags, db, s)
  }

  // ----- triggers -----

  predicate Holds(condition: Condition, ctx: TriggerContext) {
    match condition
    case JsonLogic(holds) => holds(ctx)
    case Time(_) => false
    case Event(_) => false
    case UnknownType => false
  }

  function ContextOf(db: Db, s: nat, now: int): TriggerContext
    requires s < |db.steps| && db.steps[s].process < |db.procs|
  {
    var p := db.steps[s].process;
    TriggerContext(db.procs[p].tenant, db.procs[p].template, p, s, RequirementsApproved(db, s), now)
  }

  predicate TriggersMet(trigs: seq<Trigger>, s: nat, ctx: TriggerContext) {
    forall i :: 0 <= i < |trigs| && trigs[i].step == s ==> Holds(trigs[i].condition, ctx)
  }

  function Marked(t: Trigger, s: nat, ctx: TriggerContext): Trigger {
    if t.step == s && Holds(t.condition, ctx) then t.(met := true) else t
  }

  /** Evaluation marks every condition of the step that holds as met. */
  function MarkTriggers(trigs: seq<Trigger>, s: nat, ctx: TriggerContext): seq<Trigger> {
    seq(|trigs|, i requires 0 <= i < |trigs| => Marked(trigs[i], s, ctx))
  }

  // ----- provisioning -----

  /** COALESCE(b.binding_mode, 'create_on_enter') over the LEFT JOIN. */
  predicate CreatesOnEnter(catalog: Catalog, row: Binding) {
    match row.binding
    case None => true
    case Some(b) => if b < |catalog.bindings| then catalog.bindings[b].mode.CreateOnEnter? else true
  }

  /** Binding rows of `s` that provisioning picks up. */
  function Provisionable(db: Db, s: nat): (rows: seq<nat>)
    ensures forall i: nat :: i in rows ==>
      i < |db.bindings| && db.bindings[i].step == s && db.bindings[i].status.BindingPending?
    ensures Increasing(rows)
  {
    Select(|db.bindings|, Picks(db, s))
  }

  function Picks(db: Db, s: nat): nat -> bool {
    (i: nat) =>
      && i < |db.bindings|
      && db.bindings[i].step == s
      && db.bindings[i].status.BindingPending?
      && CreatesOnEnter(db.catalog, db.bindings[i])
      && db.bindings[i].configObject < |db.catalog.configObjects|
  }

  /** One pending row: a fresh DRAFT object for a standalone config object, else failed. */
  function ProvisionRow(db: Db, i: nat, tenant: int): Db
    requires i < |db.bindings|
  {
    var row := db.bindings[i];
    if row.configObject < |db.catalog.configObjects| && db.catalog.configObjects[row.configObject].Standalone? then
      db.(objects := db.objects + [CustomObject(tenant, row.configObject, map[], Draft)],
          bindings := db.bindings[i := row.(instance := Some(|db.objects|), status := BindingActive)])
    else
      db.(bindings := db.bindings[i := row.(status := BindingFailed)])
  }

  function ProvisionRows(db: Db, rows: seq<nat>, tenant: int): (r: Db)
    requires forall i :: i in rows ==> i < |db.bindings|
    ensures |r.bindings| == |db.bindings|
    ensures r == db.(bindings := r.bindings, objects := r.objects)
    decreases |rows|
  {
    if rows == [] then db
    else
      assert rows[0] in rows && forall i :: i in rows[1..] ==> i in rows;
      ProvisionRows(ProvisionRow(db, rows[0], tenant), rows[1..], tenant)
  }

  function Provision(flags: Flags, db: Db, s: nat): (r: Db)
    requires s < |db.steps| && db.steps[s].process < |db.procs|
    ensures |r.bindings| == |db.bindings|
    ensures r == db.(bindings := r.bindings, objects := r.objects)
  {
    if !flags.objectSteps then db
    else ProvisionRows(db, Provisionable(db, s), db.procs[db.steps[s].process].tenant)
  }

  // ----- validation -----

  /** The binding row linked to object `o`. */
  function LinkedRow(db: Db, o: nat): Option<nat> {
    FirstWhere(|db.bindings|, (i: nat) => i < |db.bindings| && db.bindings[i].instance == Some(o))
  }

  function RuleOf(catalog: Catalog, row: Binding): Option<Rule> {
    if row.binding.Some? && row.binding.value < |catalog.bindings|
    then catalog.bindings[row.binding.value].rule
    else None
  }

  /** The outcome of re-checking a linked row against the object's current payload. */
  function Revalidated(catalog: Catalog, row: Binding, instance: CustomObject): Binding {
    if CompletionRule.Satisfies(RuleOf(catalog, row), instance.payload, instance.status)
    then row.(status := BindingValid, snapshot := Some(instance.payload))
    else row.(status := BindingFailed, snapshot := None)
  }

  function Validate(flags: Flags, db: Db, o: nat): Db {
    if !flags.objectSteps then db
    else
      var link := LinkedRow(db, o);
      if link.None? then db
      else
        var row := db.bindings[link.value];
        if row.step < |db.steps| && db.steps[row.step].process < |db.procs| && o < |db.objects|
          && db.objects[o].tenant == db.procs[db.steps[row.step].process].tenant
        then db.(bindings := db.bindings[link.value := Revalidated(db.catalog, row, db.objects[o])])
        else db
  }

  // ----- laws -----

  /** Rows provisioning leaves alone keep their whole content; the others were pending. */
  lemma {:induction false} ProvisionRowsFrame(db: Db, rows: seq<nat>, tenant: int, j: nat)
    requires forall i :: i in rows ==> i < |db.bindings|
    requires j < |db.bindings| && j !in rows
    ensures ProvisionRows(db, rows, tenant).bindings[j] == db.bindings[j]
    decreases |rows|
  {
    if rows != [] {
      assert rows[0] in rows && forall i :: i in rows[1..] ==> i in rows;
      ProvisionRowsFrame(ProvisionRow(db, rows[0], tenant), rows[1..], tenant, j);
    }
  }

  lemma {:induction false} ProvisionFrame(flags: Flags, db: Db, s: nat, j: nat)
    requires s < |db.steps| && db.steps[s].process < |db.procs|
    requires j < |db.bindings|
    requires db.bindings[j].step != s || !db.bindings[j].status.BindingPending?
    ensures Provision(flags, db, s).bindings[j] == db.bindings[j]
  {
    if flags.objectSteps {
      ProvisionRowsFrame(db, Provisionable(db, s), db.procs[db.steps[s].process].tenant, j);
    }
  }

  /** Provisioning never re-homes a row. */
  lemma {:induction false} ProvisionKeepsIdentity(db: Db, rows: seq<nat>, tenant: int, j: nat)
    requires forall i :: i in rows ==> i < |db.bindings|
    requires j < |db.bindings|
    ensures var r := ProvisionRows(db, rows, tenant).bindings[j];
      r.step == db.bindings[j].step && r.binding == db.bindings[j].binding
      && r.configObject == db.bindings[j].configObject && r.snapshot == db.bindings[j].snapshot
    decreases |rows|
  {
    if rows != [] {
      assert rows[0] in rows && forall i :: i in rows[1..] ==> i in rows;
      ProvisionKeepsIdentity(ProvisionRow(db, rows[0], tenant), rows[1..], tenant, j);
    }
  }

  /** An open gate stays open across provisioning: no mandatory row was pending. */
  lemma GatesSurviveProvision(flags: Flags, db: Db, s: nat, t: nat)
    requires t < |db.steps| && db.steps[t].process < |db.procs|
    requires GatesOpen(flags, db, s)
    ensures GatesOpen(flags, Provision(flags, db, t), s)
  {
    if flags.objectSteps {
      var r := Provision(flags, db, t);
      forall i | 0 <= i < |r.bindings| && r.bindings[i].step == s && Mandatory(r.catalog, r.bindings[i])
        ensures Settled(r.bindings[i])
      {
        ProvisionKeepsIdentity(db, Provisionable(db, t), db.procs[db.steps[t].process].tenant, i);
        ProvisionFrame(flags, db, t, i);
      }
    }
  }
}
