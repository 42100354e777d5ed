/** The engine itself: one object whose fields are the tables, with one method per
    transaction. Each method is proved against the function that specifies it, so the
    theorems about runs are theorems about every engine object. */
module Engine {
  import opened Basics
  import opened Json
  import opened Tables
  import opened Text
  import opened StepObjects
  import opened Instantiation
  import opened ProjectHost
  import opened ChildProcess
  import opened Completion
  import opened Orchestrator
  import opened Protocol
  import opened Runs
  import CompletionRule
  import Conclusions
  import Births
  import Effects

  /** Why a process cannot be completed yet. */
  datatype Reason = NoSteps | StepsNotTerminal | ActiveChild | BindingsInvalid(step: nat)

  datatype Unit = Done

  lemma StepOntoRun(flags: Flags, history: seq<Action>, a: Action)
    ensures Reached(flags, history + [a]) == Exec(flags, Reached(flags, history), a)
  {
    EmptyIsGood(flags);
    RunSnoc(flags, Empty(), history, a);
  }

  /** The template rows behind `rows`, copied for process `p`. */
  function Copied(db: Db, rows: seq<nat>, p: nat): Db
    requires forall i :: i in rows ==> i < |db.catalog.steps|
  {
    db.(steps := db.steps + NewSteps(db.catalog, rows, p),
        reqs := db.reqs + CopyRequirements(db.catalog, rows, |db.steps|),
        trigs := db.trigs + CopyTriggers(db.catalog, rows, |db.steps|),
        bindings := db.bindings + CopyBindings(db.catalog, rows, |db.steps|))
  }

  lemma InstantiateIsInsertAndCopy(db: Db, t: nat, seed: Seed)
    ensures Instantiate(db, t, seed)
         == Copied(db.(procs := db.procs + [NewProcess(seed, t, |db.procs|)]), OrderedSteps(db.catalog, t), |db.procs|)
  {}

  /** Row `b` is linked to object `o`, and the object satisfies the row's completion rule. */
  predicate Fills(flags: Flags, db: Db, o: nat, b: nat) {
    && flags.objectSteps && b < |db.bindings| && db.bindings[b].instance == Some(o) && o < |db.objects|
    && CompletionRule.Satisfies(RuleOf(db.catalog, db.bindings[b]), db.objects[o].payload, db.objects[o].status)
  }

  /** The step to try after object `o` was re-checked: that of its row, if the row turns valid. */
  function FilledStep(flags: Flags, db: Db, o: nat): Option<nat> {
    var link := LinkedRow(db, o);
    if link.Some? && Fills(flags, db, o, link.value) then Some(db.bindings[link.value].step) else None
  }

  /** Whichever row the object fills, its step is the one; and if it fills none there is none. */
  lemma FilledStepIff(flags: Flags, db: Db, o: nat, s: nat)
    requires Good(flags, db)
    ensures FilledStep(flags, db, o) == Some(s) <==>
      exists b: nat :: Fills(flags, db, o, b) && db.bindings[b].step == s
  {
    forall b: nat | Fills(flags, db, o, b) ensures LinkedRow(db, o) == Some(b) {
      Effects.LinkedRowIs(flags, db, o, b);
    }
  }

  lemma LinkedRowsAgree(flags: Flags, db: Db, o: nat)
    requires Good(flags, db)
    ensures forall b: nat :: b < |db.bindings| && db.bindings[b].instance == Some(o) ==> LinkedRow(db, o) == Some(b)
  {
    forall b: nat | b < |db.bindings| && db.bindings[b].instance == Some(o) ensures LinkedRow(db, o) == Some(b) {
      Effects.LinkedRowIs(flags, db, o, b);
    }
  }

  /** The row's step, that step's process and the object itself exist, in one tenant. */
  predicate Intact(db: Db, row: Binding, o: nat) {
    && row.step < |db.steps| && db.steps[row.step].process < |db.procs|
    && o < |db.objects| && db.objects[o].tenant == db.procs[db.steps[row.step].process].tenant
  }

  lemma LinkedRowIntact(flags: Flags, db: Db, o: nat)
    requires Good(flags, db)
    ensures LinkedRow(db, o).Some? ==> Intact(db, db.bindings[LinkedRow(db, o).value], o)
  {
    if LinkedRow(db, o).Some? { Effects.LinkedRowIs(flags, db, o, LinkedRow(db, o).value); }
  }

  lemma DeliveryOntoRun(flags: Flags, history: seq<Action>, i: nat, now: int)
    ensures var db := Reached(flags, history);
      i < |db.notices| ==> Reached(flags, history + [Deliver(i, now)]) == Drop(Handle(flags, db, db.notices[i], now), i)
  {
    StepOntoRun(flags, history, Deliver(i, now));
  }

  lemma CompletionOntoRun(flags: Flags, history: seq<Action>, s: nat, now: int)
    ensures var db := Reached(flags, history);
      Reached(flags, history + [Complete(s, now)]) == Committed(db, Orchestrator.MarkCompleted(flags, db, s, now))
  {
    StepOntoRun(flags, history, Complete(s, now));
  }

  lemma AdvanceOntoRun(flags: Flags, history: seq<Action>, s: nat, now: int)
    ensures var db := Reached(flags, history);
      Reached(flags, history + [Advance(s, now)]) == Committed(db, Orchestrator.AttemptAdvance(flags, db, s, now))
  {
    StepOntoRun(flags, history, Advance(s, now));
  }

  lemma ValidationOntoRun(flags: Flags, history: seq<Action>, o: nat)
    ensures var db := Reached(flags, history);
      && (LinkedRow(db, o).Some? ==> Intact(db, db.bindings[LinkedRow(db, o).value], o))
      && Reached(flags, history + [ValidateObject(o)]) == Validate(flags, db, o)
  {
    LinkedRowIntact(flags, Reached(flags, history), o);
    StepOntoRun(flags, history, ValidateObject(o));
  }

  /** One iteration of enableNextSteps, as a step of its specification. */
  lemma UnfoldEnableSteps(flags: Flags, db: Db, rows: seq<nat>, i: nat, now: int)
    requires ValidRefs(db) && RowsIn(rows, |db.steps|) && i < |rows|
    ensures var row := EnableStep(flags, db, rows[i], now);
      EnableSteps(flags, db, rows[i..], now) ==
        if row.Ok? then EnableSteps(flags, row.value, rows[i + 1..], now) else Thrown(row.error)
  {
    assert rows[i..][0] == rows[i] && rows[i..][1..] == rows[i + 1..];
  }

  /** The query of enableNextSteps: the pending steps of the next order. */
  method PendingNext(ghost flags: Flags, db: Db, s: nat, ghost now: int) returns (nextRows: seq<nat>)
    requires s < |db.steps| && ValidRefs(db)
    ensures nextRows == PendingAt(db.steps, db.steps[s].process, db.steps[s].order + 1)
    ensures RowsIn(nextRows, |db.steps|)
    ensures EnableNext(flags, db, s, now) == EnableSteps(flags, db, nextRows, now)
  {
    nextRows := PendingAt(db.steps, db.steps[s].process, db.steps[s].order + 1);
    assert forall k :: 0 <= k < |nextRows| ==> nextRows[k] in nextRows;
  }

  class ProcessEngine {
    const flags: Flags
    var procs: seq<Process>
    var steps: seq<Step>
    var reqs: seq<Requirement>
    var trigs: seq<Trigger>
    var bindings: seq<Binding>
    var objects: seq<CustomObject>
    var tasks: seq<Task>
    var columns: map<(int, StepStatus), nat>
    var notices: seq<Notice>
    var hooks: seq<nat>
    var catalog: Catalog
    ghost var history: seq<Action>

    function Tables(): Db
      reads this
    {
      Db(procs, steps, reqs, trigs, bindings, objects, tasks, columns, notices, hooks, catalog)
    }

    /** The tables are what the recorded run leads to. */
    ghost predicate Valid()
      reads this
    {
      Tables() == Reached(flags, history)
    }

    constructor (flags: Flags)
      ensures Valid() && history == [] && this.flags == flags
    {
      this.flags := flags;
      procs, steps, reqs, trigs, bindings, objects := [], [], [], [], [], [];
      tasks, columns, notices, hooks, catalog := [], map[], [], [], NO_CATALOG;
      history := [];
      new;
      EmptyIsGood(flags);
    }

    method Restore(saved: Db)
      modifies this
      ensures Tables() == saved && history == old(history)
    {
      procs, steps, reqs, trigs, bindings := saved.procs, saved.steps, saved.reqs, saved.trigs, saved.bindings;
      objects, tasks, columns := saved.objects, saved.tasks, saved.columns;
      notices, hooks, catalog := saved.notices, saved.hooks, saved.catalog;
    }

    // ----- triggers and object bindings of one step -----

    method EvaluateTriggers(s: nat, now: int) returns (allMet: bool)
      requires s < |steps| && ValidRefs(Tables())
      modifies this
      ensures Tables() == Evaluated(old(Tables()), s, now) && history == old(history)
      ensures allMet == TriggersMet(old(trigs), s, ContextOf(old(Tables()), s, now))
    {
      var ctx := ContextOf(Tables(), s, now);
      allMet := true;
      for i := 0 to |trigs|
        invariant |trigs| == |old(trigs)|
        invariant forall j :: 0 <= j < i ==> trigs[j] == Marked(old(trigs)[j], s, ctx)
        invariant forall j :: i <= j < |trigs| ==> trigs[j] == old(trigs)[j]
        invariant allMet <==> forall j :: 0 <= j < i && old(trigs)[j].step == s ==> Holds(old(trigs)[j].condition, ctx)
        invariant Tables() == old(Tables()).(trigs := trigs) && history == old(history)
      {
        if trigs[i].step == s {
          if Holds(trigs[i].condition, ctx) {
            trigs := trigs[i := trigs[i].(met := true)];
          } else {
            allMet := false;
          }
        }
      }
    }

    method ProvisionBindingRow(b: nat, tenant: int)
      requires b < |bindings|
      modifies this
      ensures Tables() == ProvisionRow(old(Tables()), b, tenant) && history == old(history)
    {
      var row := bindings[b];
      if row.configObject >= |catalog.configObjects| || !catalog.configObjects[row.configObject].Standalone? {
        bindings := bindings[b := row.(status := BindingFailed)];
        return;
      }
      var instance := |objects|;
      objects := objects + [CustomObject(tenant, row.configObject, map[], Draft)];
      bindings := bindings[b := row.(instance := Some(instance), status := BindingActive)];
    }

    method ProvisionBindingsOnStepReady(s: nat)
      requires s < |steps| && ValidRefs(Tables())
      modifies this
      ensures Tables() == Provision(flags, old(Tables()), s) && history == old(history)
    {
      if !flags.objectSteps { return; }
      var tenant := procs[steps[s].process].tenant;
      var pending := Provisionable(Tables(), s);
      assert forall k :: 0 <= k < |pending| ==> pending[k] in pending;
      for i := 0 to |pending|
        invariant forall k :: k in pending[i..] ==> k in pending && k < |bindings|
        invariant |bindings| == |old(bindings)|
        invariant Tables() == old(Tables()).(bindings := bindings, objects := objects) && history == old(history)
        invariant ProvisionRows(Tables(), pending[i..], tenant) == ProvisionRows(old(Tables()), pending, tenant)
      {
        assert pending[i..][0] == pending[i] && pending[i..][1..] == pending[i + 1..];
        assert pending[i] in pending[i..];
        ProvisionBindingRow(pending[i], tenant);
      }
    }

    /** Re-check the row linked to an object; the answer is its step, and whether the object
        satisfies the rule. */
    method ValidateByCustomInstanceId(o: nat) returns (stepId: Option<nat>, valid: bool)
      requires Valid()
      modifies this
      ensures Valid() && history == old(history) + [ValidateObject(o)]
      ensures Tables() == Validate(flags, old(Tables()), o)
      ensures valid <==> FilledStep(flags, old(Tables()), o).Some?
      ensures valid ==> stepId == FilledStep(flags, old(Tables()), o)
      ensures forall b: nat :: flags.objectSteps && b < |old(bindings)| && old(bindings)[b].instance == Some(o) ==>
        stepId == Some(old(bindings)[b].step)
      ensures !flags.objectSteps || (forall b :: 0 <= b < |old(bindings)| ==> old(bindings)[b].instance != Some(o)) ==>
        stepId.None? && !valid
    {
      LinkedRowsAgree(flags, Tables(), o);
      ValidationOntoRun(flags, history, o);
      stepId, valid := ValidateInTransaction(o);
      history := history + [ValidateObject(o)];
    }

    method ValidateInTransaction(o: nat) returns (stepId: Option<nat>, valid: bool)
      requires LinkedRow(Tables(), o).Some? ==> Intact(Tables(), bindings[LinkedRow(Tables(), o).value], o)
      modifies this
      ensures Tables() == Validate(flags, old(Tables()), o) && history == old(history)
      ensures valid <==> FilledStep(flags, old(Tables()), o).Some?
      ensures valid ==> stepId == FilledStep(flags, old(Tables()), o)
      ensures var link := LinkedRow(old(Tables()), o);
        stepId == if flags.objectSteps && link.Some? then Some(old(bindings)[link.value].step) else None
    {
      stepId, valid := None, false;
      if !flags.objectSteps { return; }
      var link := LinkedRow(Tables(), o);
      if link.None? { return; }
      var row := bindings[link.value];
      if row.step >= |steps| || steps[row.step].process >= |procs| { return; }
      stepId := Some(row.step);
      if o >= |objects| || objects[o].tenant != procs[steps[row.step].process].tenant { return; }
      var checked := Revalidated(catalog, row, objects[o]);
      valid := checked.status.BindingValid?;
      bindings := bindings[link.value := checked];
    }

    // ----- step states and the kanban mirror -----

    method SyncTaskColumn(s: nat, status: StepStatus)
      modifies this
      ensures Tables() == old(Tables()).(tasks := ProjectHost.SyncTaskColumn(old(tasks), columns, s, status))
      ensures history == old(history)
    {
      var t := TaskOf(tasks, s);
      if t.None? { return; }
      var task := tasks[t.value];
      if !(task.control.ProcessControl? || task.control.HybridControl?) { return; }
      if (task.project, status) !in columns { return; }
      tasks := tasks[t.value := task.(column := columns[(task.project, status)])];
    }

    /** setState and the host's reaction to it. */
    method MoveStep(s: nat, status: StepStatus)
      requires s < |steps| && ValidRefs(Tables())
      modifies this
      ensures Tables() == Move(old(Tables()), s, status) && history == old(history)
    {
      steps := steps[s := steps[s].(status := status)];
      if procs[steps[s].process].subjectType.Project? {
        SyncTaskColumn(s, status);
      }
    }

    // ----- starting processes -----

    method InsertSteps(rows: seq<nat>, p: nat) returns (stepIds: seq<nat>)
      requires forall i :: i in rows ==> i < |catalog.steps|
      modifies `steps
      ensures steps == old(steps) + NewSteps(catalog, rows, p)
      ensures |stepIds| == |rows| && forall k :: 0 <= k < |rows| ==> stepIds[k] == |old(steps)| + k
    {
      stepIds := [];
      for i := 0 to |rows|
        invariant steps == old(steps) + NewSteps(catalog, rows, p)[..i]
        invariant |stepIds| == i && forall k :: 0 <= k < i ==> stepIds[k] == |old(steps)| + k
      {
        assert rows[i] in rows;
        var s := catalog.steps[rows[i]];
        var status := if s.order == 1 then Ready else Pending;
        stepIds := stepIds + [|steps|];
        steps := steps + [Step(p, rows[i], if s.name.Some? then s.name.value else "Step " + Decimal(s.order),
                               s.taskType, s.order, s.optional, status, NoReason)];
      }
    }

    method IdMap(rows: seq<nat>, ghost base: nat, stepIds: seq<nat>) returns (tplToInst: map<nat, nat>)
      requires Distinct(rows) && |stepIds| == |rows|
      requires forall k :: 0 <= k < |rows| ==> stepIds[k] == base + k
      ensures MapsTo(rows, base, tplToInst)
    {
      tplToInst := map[];
      for i := 0 to |rows|
        invariant forall k :: 0 <= k < i ==> rows[k] in tplToInst && tplToInst[rows[k]] == base + k
        invariant forall k :: k in tplToInst ==> k in rows
      {
        tplToInst := tplToInst[rows[i] := stepIds[i]];
      }
    }

    /** Template rows to instance rows. */
    method InstantiateProcess(t: nat, seed: Seed) returns (p: nat)
      modifies this
      ensures Tables() == Instantiate(old(Tables()), t, seed) && history == old(history)
      ensures p == |old(procs)|
    {
      p := InsertProcess(t, seed);
      var rows := OrderedSteps(catalog, t);
      OrderedStepsDistinct(catalog, t);
      CopyTemplateRows(rows, p);
      InstantiateIsInsertAndCopy(old(Tables()), t, seed);
    }

    /** A self-anchored workflow gets its own id as subject once the id is known. */
    method InsertProcess(t: nat, seed: Seed) returns (p: nat)
      modifies `procs
      ensures p == |old(procs)|
      ensures Tables() == old(Tables()).(procs := old(procs) + [NewProcess(seed, t, p)])
    {
      p := |procs|;
      procs := procs + [Process(t, seed.tenant, seed.subjectType, seed.subjectId, Active, seed.link, seed.policy, seed.context)];
      if seed.subjectType.Workflow? && seed.subjectId == 0 {
        procs := procs[p := procs[p].(subjectId := RowId(p))];
      }
    }

    /** The id map sends a template step to its copy; every row goes to its step's copy. */
    method CopyTemplateRows(rows: seq<nat>, p: nat)
      requires Distinct(rows) && forall i :: i in rows ==> i < |catalog.steps|
      modifies `steps, `reqs, `trigs, `bindings
      ensures Tables() == Copied(old(Tables()), rows, p)
    {
      var base := |steps|;
      var stepIds := InsertSteps(rows, p);
      var tplToInst := IdMap(rows, base, stepIds);
      var copiedReqs := CopiedRequirements(rows, base, tplToInst);
      var copiedTrigs := CopiedTriggers(rows, base, tplToInst);
      var copiedBindings := CopiedBindings(rows, base, tplToInst);
      reqs, trigs, bindings := reqs + copiedReqs, trigs + copiedTrigs, bindings + copiedBindings;
    }

    ghost predicate MapsTo(rows: seq<nat>, base: nat, tplToInst: map<nat, nat>) {
      && (forall k :: k in rows ==> k in tplToInst && tplToInst[k] == base + IndexOf(rows, k))
      && (forall k :: k in tplToInst ==> k in rows)
    }

    method CopiedRequirements(rows: seq<nat>, ghost base: nat, tplToInst: map<nat, nat>) returns (values: seq<Requirement>)
      requires MapsTo(rows, base, tplToInst)
      ensures values == CopyRequirements(catalog, rows, base)
    {
      values := [];
      var ids := RequirementsIn(catalog, rows);
      for i := 0 to |ids|
        invariant |values| == i && forall k :: 0 <= k < i ==> values[k] == CopyRequirements(catalog, rows, base)[k]
      {
        assert ids[i] in ids;
        var r := catalog.requirements[ids[i]];
        if r.step in tplToInst {
          values := values + [Requirement(tplToInst[r.step], ids[i], true, false)];
        }
      }
    }

    method CopiedTriggers(rows: seq<nat>, ghost base: nat, tplToInst: map<nat, nat>) returns (values: seq<Trigger>)
      requires MapsTo(rows, base, tplToInst)
      ensures values == CopyTriggers(catalog, rows, base)
    {
      values := [];
      var ids := TriggersIn(catalog, rows);
      for i := 0 to |ids|
        invariant |values| == i && forall k :: 0 <= k < i ==> values[k] == CopyTriggers(catalog, rows, base)[k]
      {
        assert ids[i] in ids;
        var t := catalog.triggers[ids[i]];
        if t.step in tplToInst {
          values := values + [Trigger(tplToInst[t.step], ids[i], t.condition, false)];
        }
      }
    }

    method CopiedBindings(rows: seq<nat>, ghost base: nat, tplToInst: map<nat, nat>) returns (values: seq<Binding>)
      requires MapsTo(rows, base, tplToInst)
      ensures values == CopyBindings(catalog, rows, base)
    {
      values := [];
      var ids := BindingsIn(catalog, rows);
      for i := 0 to |ids|
        invariant |values| == i && forall k :: 0 <= k < i ==> values[k] == CopyBindings(catalog, rows, base)[k]
      {
        assert ids[i] in ids;
        var b := catalog.bindings[ids[i]];
        if b.step in tplToInst {
          values := values + [Binding(tplToInst[b.step], Some(ids[i]), b.configObject, None, BindingPending, None)];
        }
      }
    }

    /** One mapping row per engine state. */
    method SeedMappings(host: HostData) returns (r: Outcome<Unit>)
      modifies `columns
      ensures var spec := SeedAll(old(columns), host);
        if spec.Ok? then r.Ok? && columns == spec.value else r == Thrown(spec.error)
    {
      for i := 0 to |ENGINE_STATES|
        invariant SeedColumns(columns, host, ENGINE_STATES[i..]) == SeedColumns(old(columns), host, ENGINE_STATES)
      {
        var state := ENGINE_STATES[i];
        assert ENGINE_STATES[i..][0] == state && ENGINE_STATES[i..][1..] == ENGINE_STATES[i + 1..];
        var taskStatusId := StatusId(host, state);
        if taskStatusId == 0 { return Thrown(MissingTaskStatus); }
        if (host.projectId, state) !in columns {
          columns := columns[(host.projectId, state) := taskStatusId];
        }
      }
      return Ok(Done);
    }

    /** One process-controlled task per step, in the column of the step's status. */
    method TaskRows(p: nat, host: HostData) returns (values: seq<Task>)
      ensures values == NewTasks(Tables(), host, StepsOf(steps, p))
    {
      var instanceSteps := StepsOf(steps, p);
      values := [];
      for i := 0 to |instanceSteps|
        invariant values == NewTasks(Tables(), host, instanceSteps)[..i]
      {
        var key := (host.projectId, steps[instanceSteps[i]].status);
        var column := if key in columns then columns[key] else StatusId(host, Pending);
        values := values + [Task(host.projectId, instanceSteps[i], ProcessControl, column)];
      }
    }

    method OnProcessStarted(p: nat, host: Option<HostData>) returns (r: Outcome<Unit>)
      modifies this
      ensures history == old(history)
      ensures var spec := ProcessStarted(old(Tables()), p, host);
        if spec.Ok? then r.Ok? && Tables() == spec.value else r == Thrown(spec.error)
    {
      if host.None? || host.value.projectId == 0 { return Thrown(HostDataMissing); }
      r := SeedMappings(host.value);
      if r.Thrown? { return; }
      ghost var seeded := Tables();
      var values := TaskRows(p, host.value);
      tasks := tasks + values;
      assert Tables() == seeded.(tasks := seeded.tasks + values);
    }

    method StartProcessInTransaction(t: nat, seed: Seed, host: Option<HostData>, skipHost: bool) returns (r: Outcome<nat>)
      modifies this
      ensures history == old(history)
      ensures var spec := Start(flags, old(Tables()), t, seed, host, skipHost);
        if spec.Ok? then r == Ok(|old(procs)|) && Tables() == spec.value else r == Thrown(spec.error)
    {
      if !TierEnabled(flags, seed.subjectType) { return Thrown(TierDisabled); }
      var p := InstantiateProcess(t, seed);
      if seed.subjectType.Project? && !skipHost {
        var _ :- OnProcessStarted(p, host);
      }
      return Ok(p);
    }

    method StartProcess(t: nat, tenant: int, subject: string, subjectId: int,
                        policy: FailurePolicy, context: Option<Record>, host: Option<HostData>) returns (r: Outcome<nat>)
      requires Valid()
      modifies this
      ensures Valid()
      ensures history == old(history) + [Action.StartProcess(t, tenant, subject, subjectId, policy, context, host)]
      ensures r.Thrown? <==> Births.Refused(flags, subject, host)
      ensures r.Thrown? ==> Tables() == old(Tables())
      ensures r.Ok? ==> r.value == |old(procs)|
    {
      Births.StartRefusedIff(flags, Tables(), t, tenant, subject, subjectId, policy, context, host);
      var saved := Tables();
      r := StartRootInTransaction(t, tenant, subject, subjectId, policy, context, host);
      if r.Thrown? { Restore(saved); }
      assert Tables() == Committed(saved, StartRoot(flags, saved, t, tenant, subject, subjectId, policy, context, host));
      StepOntoRun(flags, history, Action.StartProcess(t, tenant, subject, subjectId, policy, context, host));
      history := history + [Action.StartProcess(t, tenant, subject, subjectId, policy, context, host)];
    }

    method StartRootInTransaction(t: nat, tenant: int, subject: string, subjectId: int,
                                  policy: FailurePolicy, context: Option<Record>, host: Option<HostData>) returns (r: Outcome<nat>)
      modifies this
      ensures history == old(history)
      ensures var spec := StartRoot(flags, old(Tables()), t, tenant, subject, subjectId, policy, context, host);
        if spec.Ok? then r == Ok(|old(procs)|) && Tables() == spec.value else r == Thrown(spec.error)
    {
      var subjectType := SubjectNamed(subject);
      if subjectType.None? { return Thrown(UnsupportedSubject); }
      r := StartProcessInTransaction(t, Seed(tenant, subjectType.value, subjectId, None, policy, context), host, false);
    }

    // ----- child processes -----

    method SpawnChildAndBlockParent(s: nat) returns (r: Outcome<Unit>)
      requires s < |steps| && ValidRefs(Tables())
      modifies this
      ensures history == old(history)
      ensures var spec := Spawn(flags, old(Tables()), s);
        if spec.Ok? then r.Ok? && Tables() == spec.value else r == Thrown(spec.error)
    {
      if HasChild(procs, s) {
        steps := Block(steps, s);
        return Ok(Done);
      }
      var row := steps[s].template;
      if row >= |catalog.steps| || catalog.steps[row].childTemplate.None? { return Thrown(ChildTemplateMissing); }
      var seed :- ChildSeed(Tables(), s, catalog.steps[row]);
      var _ :- StartProcessInTransaction(catalog.steps[row].childTemplate.value, seed, None, true);
      steps := Block(steps, s);
      return Ok(Done);
    }

    method HandleChildTerminal(c: nat, aborted: bool, now: int)
      requires ValidRefs(Tables())
      modifies this
      ensures Tables() == HandleTerminal(flags, old(Tables()), c, aborted, now) && history == old(history)
    {
      if !flags.callProcess || c >= |procs| || procs[c].link.None? { return; }
      var link := procs[c].link.value;
      var policy := procs[link.parent].policy;
      procs := procs[link.parent := procs[link.parent].(
        context := Some(MergedContext(procs[link.parent].context, procs[c].context, now)))];
      if aborted && policy.PauseParent? { return; }
      if aborted && policy.FailParent? {
        procs := procs[link.parent := procs[link.parent].(status := Aborted)];
        steps := FailCallStep(steps, link.step);
        return;
      }
      steps := CompleteCallStep(steps, link.step);
      if !aborted { notices := notices + [ResumeStep(link.step)]; }
    }

    method MarkProcessCompletedIfEligible(p: nat)
      requires p < |procs|
      modifies this
      ensures Tables() == FinishChild(old(Tables()), p) && history == old(history)
    {
      if procs[p].link.None? { return; }
      if !AllDone(steps, p) { return; }
      if procs[p].status.Active? { procs := procs[p := procs[p].(status := Finished)]; }
    }

    // ----- completion -----

    /** canComplete holds exactly when there is a step, all steps are terminal, no child is
        active and every step's mandatory bindings are settled; each reason is listed exactly
        when its condition fails. */
    method EvaluateCompletion(p: nat) returns (canComplete: bool, reasons: seq<Reason>)
      ensures canComplete <==> CanComplete(flags, Tables(), p)
      ensures canComplete <==> reasons == []
      ensures NoSteps in reasons <==> !HasSteps(steps, p)
      ensures StepsNotTerminal in reasons <==> HasSteps(steps, p) && !AllTerminal(steps, p)
      ensures ActiveChild in reasons <==> !NoActiveChild(procs, p)
      ensures forall s: nat :: BindingsInvalid(s) in reasons ==>
        s < |steps| && steps[s].process == p && !BindingsValid(flags, Tables(), s)
      ensures (exists s: nat :: BindingsInvalid(s) in reasons) <==> !AllBindingsValid(flags, Tables(), p)
    {
      reasons := [];
      if !HasSteps(steps, p) {
        reasons := reasons + [NoSteps];
      } else if !AllTerminal(steps, p) {
        reasons := reasons + [StepsNotTerminal];
      }
      if !NoActiveChild(procs, p) { reasons := reasons + [ActiveChild]; }
      var all := steps;
      var stepRows := Select(|all|, (s: nat) => s < |all| && all[s].process == p);
      var bindingsOk := true;
      for i := 0 to |stepRows|
        invariant bindingsOk
        invariant forall s :: BindingsInvalid(s) !in reasons
        invariant forall k :: 0 <= k < i ==> BindingsValid(flags, Tables(), stepRows[k])
      {
        assert stepRows[i] in stepRows;
        bindingsOk := AreMandatoryBindingsValid(stepRows[i]);
        if !bindingsOk {
          reasons := reasons + [BindingsInvalid(stepRows[i])];
          break;
        }
      }
      if bindingsOk {
        forall s: nat | s < |steps| && steps[s].process == p ensures BindingsValid(flags, Tables(), s) {
          assert s in stepRows;
        }
      }
      canComplete := |reasons| == 0;
    }

    /** The id of a child process that has just ended, if any. */
    method MaybeCompleteJob(p: nat) returns (childTerminal: Option<nat>)
      requires p < |procs|
      modifies this
      ensures Tables() == MaybeComplete(flags, old(Tables()), p).0 && history == old(history)
      ensures childTerminal == if MaybeComplete(flags, old(Tables()), p).1 then Some(p) else None
    {
      var allDone := AllDone(steps, p);
      if allDone { MarkProcessCompletedIfEligible(p); }
      if allDone && procs[p].link.Some? && procs[p].status.Finished? { return Some(p); }
      var engineCanComplete, _ := EvaluateCompletion(p);
      if !engineCanComplete { return None; }
      if AllDone(steps, p) {
        if allDone && procs[p].status.Active? { procs := procs[p := procs[p].(status := Finished)]; }
        hooks := hooks + [p];
      }
      return None;
    }

    // ----- advancing steps -----

    method CheckRequirementsOnly(s: nat) returns (ok: bool)
      ensures ok == RequirementsApproved(Tables(), s)
    {
      ok := true;
      for i := 0 to |reqs|
        invariant ok <==> forall j :: 0 <= j < i && reqs[j].step == s && reqs[j].mandatory ==> reqs[j].approved
      {
        if reqs[i].step == s && reqs[i].mandatory && !reqs[i].approved { ok := false; }
      }
    }

    /** Counts the blocking rows of a step: mandatory, and neither valid nor skipped. */
    method AreMandatoryBindingsValid(s: nat) returns (ok: bool)
      ensures ok == BindingsValid(flags, Tables(), s)
    {
      if !flags.objectSteps { return true; }
      var blocking: nat := 0;
      for i := 0 to |bindings|
        invariant blocking == 0 <==>
          forall j :: 0 <= j < i && bindings[j].step == s && Mandatory(catalog, bindings[j]) ==> Settled(bindings[j])
      {
        if bindings[i].step == s && Mandatory(catalog, bindings[i]) && !Settled(bindings[i]) { blocking := blocking + 1; }
      }
      ok := blocking == 0;
    }

    /** Open exactly when the step has no mandatory requirement left to approve and no mandatory
        binding left to settle. */
    method CheckStepGates(s: nat) returns (open: bool)
      ensures open == GatesOpen(flags, Tables(), s)
    {
      var requirementsOk := CheckRequirementsOnly(s);
      var bindingsOk := AreMandatoryBindingsValid(s);
      open := requirementsOk && bindingsOk;
    }

    /** What happens to a pending step whose gates and triggers are met. */
    method PromoteStep(s: nat) returns (r: Outcome<Unit>)
      requires s < |steps| && ValidRefs(Tables())
      modifies this
      ensures history == old(history)
      ensures var spec := Promote(flags, old(Tables()), s);
        if spec.Ok? then r.Ok? && Tables() == spec.value else r == Thrown(spec.error)
    {
      if flags.callProcess && steps[s].taskType.CallProcess? {
        r := SpawnChildAndBlockParent(s);
      } else {
        MoveStep(s, Ready);
        ProvisionBindingsOnStepReady(s);
        r := Ok(Done);
      }
    }

    method EnableRow(s: nat, now: int) returns (r: Outcome<Unit>)
      requires s < |steps| && ValidRefs(Tables())
      modifies this
      ensures history == old(history)
      ensures var spec := EnableStep(flags, old(Tables()), s, now);
        if spec.Ok? then r.Ok? && Tables() == spec.value else r == Thrown(spec.error)
    {
      var gatesOpen := CheckStepGates(s);
      var triggersMet := EvaluateTriggers(s, now);
      if !gatesOpen || !triggersMet { return Ok(Done); }
      r := PromoteStep(s);
    }

    method EnableNextSteps(s: nat, now: int) returns (r: Outcome<Unit>)
      requires s < |steps| && ValidRefs(Tables())
      modifies this
      ensures history == old(history)
      ensures var spec := EnableNext(flags, old(Tables()), s, now);
        if spec.Ok? then r.Ok? && Tables() == spec.value else r == Thrown(spec.error)
    {
      var nextRows := PendingNext(flags, Tables(), s, now);
      r := EnableRows(nextRows, now);
    }

    method EnableRows(nextRows: seq<nat>, now: int) returns (r: Outcome<Unit>)
      requires ValidRefs(Tables()) && RowsIn(nextRows, |steps|)
      modifies this
      ensures history == old(history)
      ensures var spec := EnableSteps(flags, old(Tables()), nextRows, now);
        if spec.Ok? then r.Ok? && Tables() == spec.value else r == Thrown(spec.error)
    {
      ghost var total := EnableSteps(flags, Tables(), nextRows, now);
      assert nextRows[0..] == nextRows;
      for i := 0 to |nextRows|
        invariant ValidRefs(Tables()) && RowsIn(nextRows, |steps|)
        invariant history == old(history)
        invariant EnableSteps(flags, Tables(), nextRows[i..], now) == total
      {
        UnfoldEnableSteps(flags, Tables(), nextRows, i, now);
        r := EnableRow(nextRows[i], now);
        if r.Thrown? { return; }
      }
      r := Ok(Done);
    }

    /** The common end of the orchestrator's transactions. */
    method ConcludeTransaction(s: nat, now: int) returns (r: Outcome<Option<nat>>)
      requires s < |steps| && ValidRefs(Tables())
      modifies this
      ensures history == old(history)
      ensures var spec := Conclude(flags, old(Tables()), s, now);
        if spec.Ok?
        then r.Ok? && spec.value == Announced(Tables(), r.value)
        else r == Thrown(spec.error)
      ensures r.Ok? ==> notices == old(notices)
    {
      var p := steps[s].process;
      var _ :- EnableNextSteps(s, now);
      var childTerminal := MaybeCompleteJob(p);
      return Ok(childTerminal);
    }

    method RunAutomated(s: nat, now: int) returns (r: Outcome<Option<nat>>)
      requires s < |steps| && ValidRefs(Tables())
      modifies this
      ensures history == old(history)
      ensures var spec := Conclude(flags, Move(Move(old(Tables()), s, InProgress), s, Completed), s, now);
        if spec.Ok?
        then r.Ok? && spec.value == Announced(Tables(), r.value)
        else r == Thrown(spec.error)
      ensures r.Ok? ==> notices == old(notices)
    {
      MoveStep(s, InProgress);
      MoveStep(s, Completed);
      r := ConcludeTransaction(s, now);
    }

    method AdvanceInTransaction(s: nat, now: int) returns (r: Outcome<Option<nat>>)
      requires ValidRefs(Tables())
      modifies this
      ensures history == old(history)
      ensures var spec := Orchestrator.AttemptAdvance(flags, old(Tables()), s, now);
        if spec.Ok?
        then r.Ok? && spec.value == Announced(Tables(), r.value)
        else r == Thrown(spec.error)
      ensures r.Ok? ==> notices == old(notices)
    {
      if s >= |steps| { return Ok(None); }
      var status := steps[s].status;
      if status.Completed? || status.Canceled? || status.Blocked? { return Ok(None); }
      var open :- EnterStep(s, now);
      if steps[s].taskType.Automated? && steps[s].status.Ready? && open {
        r := RunAutomated(s, now);
      } else {
        r := Ok(None);
      }
    }

    /** Provisions a ready step, evaluates gates and triggers, and promotes a pending step that
        meets them; answers whether they are met. */
    method EnterStep(s: nat, now: int) returns (r: Outcome<bool>)
      requires ValidRefs(Tables()) && s < |steps| && Idle(steps[s].status)
      modifies this
      ensures history == old(history)
      ensures var spec := AdvanceHead(flags, old(Tables()), s, now);
        if spec.Ok?
        then r == Ok(AdvanceOpen(flags, old(Tables()), s, now)) && Tables() == spec.value
        else r == Thrown(spec.error)
      ensures r.Ok? ==> notices == old(notices)
    {
      var status := steps[s].status;
      if status.Ready? { ProvisionBindingsOnStepReady(s); }
      var allMandatoryApproved := CheckStepGates(s);
      var triggersMet := EvaluateTriggers(s, now);
      if status.Pending? && allMandatoryApproved && triggersMet {
        var _ :- PromoteStep(s);
      }
      r := Ok(allMandatoryApproved && triggersMet);
    }

    /** Commit, leaving the terminal child to be handled; or roll back. */
    method Finish(saved: Db, r: Outcome<Option<nat>>)
      modifies this
      ensures Tables() == (if r.Ok? then Announced(old(Tables()), r.value) else saved) && history == old(history)
    {
      if r.Thrown? {
        Restore(saved);
      } else if r.value.Some? {
        notices := notices + [ChildFinished(r.value.value)];
      }
    }

    method AttemptAdvance(s: nat, now: int) returns (r: Outcome<Option<nat>>)
      requires Valid()
      modifies this
      ensures Valid() && history == old(history) + [Advance(s, now)]
      ensures r.Thrown? <==> Conclusions.AdvanceFails(flags, old(Tables()), s, now)
      ensures r.Ok? ==> notices == old(notices) + (if r.value.Some? then [ChildFinished(r.value.value)] else [])
      ensures r.Thrown? ==> Tables() == old(Tables())
    {
      Conclusions.AdvanceFailsIff(flags, Tables(), s, now);
      var saved := Tables();
      r := AdvanceInTransaction(s, now);
      Finish(saved, r);
      AdvanceOntoRun(flags, history, s, now);
      history := history + [Advance(s, now)];
    }

    method CompleteInTransaction(s: nat, now: int) returns (r: Outcome<Option<nat>>)
      requires ValidRefs(Tables())
      modifies this
      ensures history == old(history)
      ensures var spec := Orchestrator.MarkCompleted(flags, old(Tables()), s, now);
        if spec.Ok?
        then r.Ok? && spec.value == Announced(Tables(), r.value)
        else r == Thrown(spec.error)
      ensures r.Ok? ==> notices == old(notices)
    {
      if s >= |steps| || !(steps[s].status.Ready? || steps[s].status.InProgress?) { return Ok(None); }
      var open := CheckStepGates(s);
      if !open { return Ok(None); }
      MoveStep(s, Completed);
      r := ConcludeTransaction(s, now);
    }

    method MarkCompleted(s: nat, now: int) returns (r: Outcome<Option<nat>>)
      requires Valid()
      modifies this
      ensures Valid() && history == old(history) + [Complete(s, now)]
      ensures r.Thrown? <==> Conclusions.CompletionFails(flags, old(Tables()), s, now)
      ensures r.Ok? ==> notices == old(notices) + (if r.value.Some? then [ChildFinished(r.value.value)] else [])
      ensures r.Thrown? ==> Tables() == old(Tables())
    {
      Conclusions.CompletionFailsIff(flags, Tables(), s, now);
      var saved := Tables();
      r := CompleteInTransaction(s, now);
      Finish(saved, r);
      CompletionOntoRun(flags, history, s, now);
      history := history + [Complete(s, now)];
    }

    method ResumeInTransaction(s: nat, now: int) returns (r: Outcome<Option<nat>>)
      requires ValidRefs(Tables())
      modifies this
      ensures history == old(history)
      ensures var spec := ResumeParent(flags, old(Tables()), s, now);
        if spec.Ok?
        then r.Ok? && spec.value == Announced(Tables(), r.value)
        else r == Thrown(spec.error)
    {
      if s >= |steps| || !steps[s].status.Completed? { return Ok(None); }
      r := ConcludeTransaction(s, now);
    }

    // ----- delivery of notices -----

    method ResumeParentAfterChildCallProcess(s: nat, now: int)
      requires ValidRefs(Tables())
      modifies this
      ensures Tables() == Committed(old(Tables()), ResumeParent(flags, old(Tables()), s, now)) && history == old(history)
    {
      var saved := Tables();
      var r := ResumeInTransaction(s, now);
      Finish(saved, r);
    }

    method HandleNotice(n: Notice, now: int)
      requires ValidRefs(Tables())
      modifies this
      ensures Tables() == Handle(flags, old(Tables()), n, now) && history == old(history)
    {
      match n
      case ChildFinished(c) => HandleChildTerminal(c, false, now);
      case ChildAborted(c) => HandleChildTerminal(c, true, now);
      case ResumeStep(s) => if flags.callProcess { ResumeParentAfterChildCallProcess(s, now); }
    }

    /** The after-commit handling of a terminal child, a reported cancellation, or the
        process_child_completed listener. */
    method DeliverNotice(i: nat, now: int)
      requires Valid() && i < |notices|
      modifies this
      ensures Valid() && history == old(history) + [Deliver(i, now)]
    {
      DeliveryOntoRun(flags, history, i, now);
      HandleNotice(notices[i], now);
      notices := Without(notices, i);
      history := history + [Deliver(i, now)];
    }

    // ----- listeners -----

    /** An object instance changed: re-check its binding row, and only if the object satisfies
        the rule try to advance that row's step. */
    method OnConfigObjectInstanceUpdated(o: nat, now: int)
      requires Valid()
      modifies this
      ensures Valid()
      ensures var s := FilledStep(flags, old(Tables()), o);
        history == old(history) + [ValidateObject(o)] + (if s.Some? then [Advance(s.value, now)] else [])
    {
      if !flags.objectSteps {
        StepOntoRun(flags, history, ValidateObject(o));
        history := history + [ValidateObject(o)];
        return;
      }
      var stepId, valid := ValidateByCustomInstanceId(o);
      if stepId.None? || !valid { return; }
      var _ := AttemptAdvance(stepId.value, now);
    }

    /** Every unmet trigger that waits for the event and whose filter passes is recorded as met,
        and nothing else; the answer is the steps of those triggers, each once. */
    method RecordMetTriggers(name: string, process: Option<nat>, passes: nat -> bool) returns (metStepIds: seq<nat>)
      requires Valid()
      modifies this
      ensures Valid()
      ensures history == old(history) + Recordings(MetBy(old(Tables()), name, process, passes))
      ensures metStepIds == MetSteps(old(trigs), MetBy(old(Tables()), name, process, passes))
    {
      var rows := Awaiting(Tables(), name, process);
      metStepIds := RecordRows(trigs, rows, passes);
    }

    /** The loop over the rows of the query; `triggers` is what the query returned. */
    method RecordRows(triggers: seq<Trigger>, rows: seq<nat>, passes: nat -> bool) returns (metStepIds: seq<nat>)
      requires Valid() && RowsIn(rows, |triggers|)
      modifies this
      ensures Valid()
      ensures RowsIn(Passing(rows, passes), |triggers|)
      ensures history == old(history) + Recordings(Passing(rows, passes))
      ensures metStepIds == MetSteps(triggers, Passing(rows, passes))
    {
      metStepIds := [];
      ghost var met := [];
      for i := 0 to |rows|
        invariant Valid() && RowsIn(met, |triggers|)
        invariant met == Passing(rows[..i], passes)
        invariant history == old(history) + Recordings(met)
        invariant metStepIds == MetSteps(triggers, met)
      {
        PassingSnoc(rows, passes, i);
        if passes(rows[i]) {
          MetStepsSnoc(triggers, met, rows[i]);
          RecordingsSnoc(old(history), met, rows[i]);
          Environment(RecordMet(rows[i]));
          metStepIds := WithStep(metStepIds, triggers[rows[i]].step);
          met := met + [rows[i]];
        }
      }
      assert rows[..|rows|] == rows;
    }

    /** Advance each step once; a failed advance ends the handler. */
    method AdvanceEach(stepIds: seq<nat>, now: int) returns (r: Outcome<Unit>)
      requires Valid()
      modifies this
      ensures Valid()
      ensures Advanced(flags, old(history), stepIds, now, history, r.Thrown?)
    {
      for i := 0 to |stepIds|
        invariant Valid()
        invariant history == old(history) + Advances(stepIds[..i], now)
        invariant NoneThrows(flags, old(history), stepIds, i, now)
      {
        var advanced := AdvanceOne(old(history), stepIds, i, now);
        if advanced.Thrown? {
          assert AdvancedTo(flags, old(history), stepIds, now, history, true, i + 1);
          return Thrown(advanced.error);
        }
        OneMoreSucceeds(flags, old(history), stepIds, i, now);
      }
      assert AdvancedTo(flags, old(history), stepIds, now, history, false, |stepIds|);
      r := Ok(Done);
    }

    method AdvanceOne(ghost before: seq<Action>, stepIds: seq<nat>, i: nat, now: int) returns (r: Outcome<Option<nat>>)
      requires Valid() && i < |stepIds| && history == before + Advances(stepIds[..i], now)
      modifies this
      ensures Valid() && history == before + Advances(stepIds[..i + 1], now)
      ensures r.Thrown? <==> AdvanceThrows(flags, before, stepIds, i, now)
    {
      AdvancesSnoc(before, stepIds, i, now);
      r := AttemptAdvance(stepIds[i], now);
    }

    /** A domain event: record every trigger it meets, then advance each of their steps, in
        order, until one throws. */
    method OnAnyDomainEvent(name: string, process: Option<nat>, passes: nat -> bool, now: int) returns (r: Outcome<Unit>)
      requires Valid()
      modifies this
      ensures Valid()
      ensures var met := MetBy(old(Tables()), name, process, passes);
        Advanced(flags, old(history) + Recordings(met), MetSteps(old(trigs), met), now, history, r.Thrown?)
    {
      var metStepIds := RecordMetTriggers(name, process, passes);
      r := AdvanceEach(metStepIds, now);
    }

    /** What users and other services do to the tables between transactions. */
    method Environment(a: Action)
      requires Valid()
      requires a.CancelProcess? || a.ReviewRequirement? || a.AddObject? || a.EditObject? || a.EditCatalog? || a.RecordMet?
      modifies this
      ensures Valid() && history == old(history) + [a]
    {
      StepOntoRun(flags, history, a);
      Restore(Exec(flags, Tables(), a));
      history := history + [a];
    }
  }

  /** After the run, and the advances of the steps before it, the advance of step `k` throws. */
  ghost predicate AdvanceThrows(flags: Flags, history: seq<Action>, stepIds: seq<nat>, k: nat, now: int) {
    k < |stepIds| && Conclusions.AdvanceFails(flags, Reached(flags, history + Advances(stepIds[..k], now)), stepIds[k], now)
  }

  /** The first `k` steps were advanced; and either all of them, and none of these advances threw,
      or the last one is the first that did. */
  ghost predicate AdvancedTo(flags: Flags, before: seq<Action>, stepIds: seq<nat>, now: int, after: seq<Action>, threw: bool, k: nat) {
    && k <= |stepIds| && after == before + Advances(stepIds[..k], now)
    && (if threw then k > 0 && AdvanceThrows(flags, before, stepIds, k - 1, now) else k == |stepIds|)
    && NoneThrows(flags, before, stepIds, if threw then k - 1 else k, now)
  }

  ghost predicate NoneThrows(flags: Flags, before: seq<Action>, stepIds: seq<nat>, n: nat, now: int) {
    forall i :: 0 <= i < n ==> !AdvanceThrows(flags, before, stepIds, i, now)
  }

  lemma OneMoreSucceeds(flags: Flags, before: seq<Action>, stepIds: seq<nat>, n: nat, now: int)
    requires NoneThrows(flags, before, stepIds, n, now) && !AdvanceThrows(flags, before, stepIds, n, now)
    ensures NoneThrows(flags, before, stepIds, n + 1, now)
  {}

  ghost predicate Advanced(flags: Flags, before: seq<Action>, stepIds: seq<nat>, now: int, after: seq<Action>, threw: bool) {
    exists k :: 0 <= k <= |stepIds| && AdvancedTo(flags, before, stepIds, now, after, threw, k)
  }

  predicate Awaits(t: Trigger, steps: seq<Step>, name: string, process: Option<nat>) {
    && t.condition.Event? && t.condition.name == name
    && !t.met
    && (process.Some? ==> t.step < |steps| && steps[t.step].process == process.value)
  }

  /** The triggers that wait for the event. */
  function Awaiting(db: Db, name: string, process: Option<nat>): (rows: seq<nat>)
    ensures forall t: nat :: t in rows <==> t < |db.trigs| && Awaits(db.trigs[t], db.steps, name, process)
    ensures RowsIn(rows, |db.trigs|)
  {
    var rows := Select(|db.trigs|, (t: nat) => t < |db.trigs| && Awaits(db.trigs[t], db.steps, name, process));
    assert forall k :: 0 <= k < |rows| ==> rows[k] in rows;
    rows
  }

  function Passing(rows: seq<nat>, passes: nat -> bool): seq<nat> {
    if rows == [] then []
    else
      var init, last := Passing(rows[..|rows| - 1], passes), rows[|rows| - 1];
      if passes(last) then init + [last] else init
  }

  lemma {:induction false} PassingMembers(rows: seq<nat>, passes: nat -> bool)
    ensures forall t: nat :: t in Passing(rows, passes) <==> t in rows && passes(t)
    decreases |rows|
  {
    if rows != [] {
      var init, last := rows[..|rows| - 1], rows[|rows| - 1];
      PassingMembers(init, passes);
      assert rows == init + [last];
    }
  }

  /** The triggers that the event meets. */
  function MetBy(db: Db, name: string, process: Option<nat>, passes: nat -> bool): (met: seq<nat>)
    ensures RowsIn(met, |db.trigs|)
  {
    var rows := Awaiting(db, name, process);
    PassingMembers(rows, passes);
    assert forall k :: 0 <= k < |Passing(rows, passes)| ==> Passing(rows, passes)[k] in Passing(rows, passes);
    Passing(rows, passes)
  }

  /** The steps of some triggers, each once, in the order in which they turn up. */
  function MetSteps(trigs: seq<Trigger>, rows: seq<nat>): seq<nat>
    requires RowsIn(rows, |trigs|)
  {
    if rows == [] then []
    else
      WithStep(MetSteps(trigs, rows[..|rows| - 1]), trigs[rows[|rows| - 1]].step)
  }

  function WithStep(stepIds: seq<nat>, s: nat): seq<nat> {
    if s in stepIds then stepIds else stepIds + [s]
  }

  lemma {:induction false} MetStepsMembers(trigs: seq<Trigger>, rows: seq<nat>)
    requires RowsIn(rows, |trigs|)
    ensures Distinct(MetSteps(trigs, rows))
    ensures forall s :: s in MetSteps(trigs, rows) <==> exists k :: 0 <= k < |rows| && trigs[rows[k]].step == s
    decreases |rows|
  {
    if rows != [] {
      var n := |rows| - 1;
      MetStepsMembers(trigs, rows[..n]);
      forall s | exists k :: 0 <= k < |rows| && trigs[rows[k]].step == s ensures s in MetSteps(trigs, rows) {
        var k :| 0 <= k < |rows| && trigs[rows[k]].step == s;
        assert k < n ==> rows[..n][k] == rows[k];
      }
      forall s | s in MetSteps(trigs, rows) ensures exists k :: 0 <= k < |rows| && trigs[rows[k]].step == s {
        if s != trigs[rows[n]].step {
          var k :| 0 <= k < n && trigs[rows[..n][k]].step == s;
          assert trigs[rows[k]].step == s;
        }
      }
    }
  }

  /** Trigger row `t` waits, unmet, for the event, in a step of the process if the event names
      one, and its filter passes. */
  predicate Meets(db: Db, name: string, process: Option<nat>, passes: nat -> bool, t: nat) {
    && t < |db.trigs| && db.trigs[t].condition == Event(name) && !db.trigs[t].met && passes(t)
    && (process.Some? ==> db.trigs[t].step < |db.steps| && db.steps[db.trigs[t].step].process == process.value)
  }

  /** What an event meets: exactly the unmet triggers that wait for it, in the process it names
      if it names one, and whose filter passes; and it tries each of their steps once. */
  lemma EventReachesIff(db: Db, name: string, process: Option<nat>, passes: nat -> bool)
    ensures var met := MetBy(db, name, process, passes);
      && (forall t: nat :: t in met <==> Meets(db, name, process, passes, t))
      && Distinct(MetSteps(db.trigs, met))
      && forall s :: s in MetSteps(db.trigs, met) <==> exists t: nat :: Meets(db, name, process, passes, t) && db.trigs[t].step == s
  {
    var met := MetBy(db, name, process, passes);
    PassingMembers(Awaiting(db, name, process), passes);
    MetStepsMembers(db.trigs, met);
    assert forall k :: 0 <= k < |met| ==> met[k] in met;
    forall s: nat, t: nat | t in met && db.trigs[t].step == s ensures s in MetSteps(db.trigs, met) {
      var k :| 0 <= k < |met| && met[k] == t;
    }
  }

  lemma PassingSnoc(rows: seq<nat>, passes: nat -> bool, i: nat)
    requires i < |rows|
    ensures Passing(rows[..i + 1], passes) == Passing(rows[..i], passes) + (if passes(rows[i]) then [rows[i]] else [])
  {
    assert rows[..i + 1][..i] == rows[..i];
  }

  lemma MetStepsSnoc(trigs: seq<Trigger>, rows: seq<nat>, t: nat)
    requires RowsIn(rows, |trigs|) && t < |trigs|
    ensures RowsIn(rows + [t], |trigs|)
    ensures MetSteps(trigs, rows + [t]) == WithStep(MetSteps(trigs, rows), trigs[t].step)
  {
    assert (rows + [t])[..|rows|] == rows;
  }

  function Recordings(rows: seq<nat>): seq<Action> {
    seq(|rows|, i requires 0 <= i < |rows| => RecordMet(rows[i]))
  }

  lemma RecordingsSnoc(history: seq<Action>, rows: seq<nat>, t: nat)
    ensures history + Recordings(rows + [t]) == history + Recordings(rows) + [RecordMet(t)]
  {
    assert Recordings(rows + [t]) == Recordings(rows) + [RecordMet(t)];
  }

  function Advances(stepIds: seq<nat>, now: int): seq<Action> {
    seq(|stepIds|, i requires 0 <= i < |stepIds| => Advance(stepIds[i], now))
  }

  lemma AdvancesSnoc(history: seq<Action>, stepIds: seq<nat>, i: nat, now: int)
    requires i < |stepIds|
    ensures history + Advances(stepIds[..i + 1], now) == history + Advances(stepIds[..i], now) + [Advance(stepIds[i], now)]
  {
    assert Advances(stepIds[..i + 1], now) == Advances(stepIds[..i], now) + [Advance(stepIds[i], now)];
  }

  /** The commit leaves the returned terminal child, if any, to be handled. */
  function Announced(db: Db, childTerminal: Option<nat>): Db {
    if childTerminal.Some? then db.(notices := db.notices + [ChildFinished(childTerminal.value)]) else db
  }
}
