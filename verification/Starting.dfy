/** Which steps can start: the steps that are born unable to, when exactly an advance or a
    completion takes effect, and what makes one fail. */
module Starting {
  import opened Basics
  import opened Json
  import opened Tables
  import opened StepObjects
  import opened Instantiation
  import opened ProjectHost
  import opened ChildProcess
  import opened Completion
  import opened Orchestrator
  import opened Protocol
  import opened Preservation
  import opened Evolution
  import opened Runs
  import opened Gating
  import Effects

  // ----- trigger rows refer to existing steps -----

  ghost predicate TriggersRefer(db: Db) {
    forall i :: 0 <= i < |db.trigs| ==> db.trigs[i].step < |db.steps|
  }

  /** Later trigger rows keep their step and condition, and new ones have a step. */
  ghost predicate TriggersFit(db: Db, r: Db) {
    && |r.steps| >= |db.steps| && |r.trigs| >= |db.trigs| && r.catalog == db.catalog
    && (forall i :: 0 <= i < |db.trigs| ==> SameTrigger(db.trigs[i], r.trigs[i]))
    && (forall i :: |db.trigs| <= i < |r.trigs| ==> r.trigs[i].step < |r.steps|)
  }

  lemma FitTrans(a: Db, b: Db, c: Db)
    requires TriggersFit(a, b) && TriggersFit(b, c)
    ensures TriggersFit(a, c)
  {}

  lemma InstantiateFits(db: Db, t: nat, seed: Seed)
    ensures TriggersFit(db, Instantiate(db, t, seed))
  {
    var rows := OrderedSteps(db.catalog, t);
    CopiedTriggersRefer(db.catalog, rows, |db.steps|);
    AppendFits(db, Instantiate(db, t, seed), NewSteps(db.catalog, rows, |db.procs|), CopyTriggers(db.catalog, rows, |db.steps|));
  }

  lemma CopiedTriggersRefer(catalog: Catalog, rows: seq<nat>, base: nat)
    ensures forall k :: 0 <= k < |CopyTriggers(catalog, rows, base)| ==> CopyTriggers(catalog, rows, base)[k].step < base + |rows|
  {}

  lemma AppendFits(db: Db, r: Db, steps: seq<Step>, trigs: seq<Trigger>)
    requires r.steps == db.steps + steps && r.trigs == db.trigs + trigs && r.catalog == db.catalog
    requires forall k :: 0 <= k < |trigs| ==> trigs[k].step < |db.steps| + |steps|
    ensures TriggersFit(db, r)
  {}

  lemma PromoteFits(flags: Flags, db: Db, s: nat)
    requires s < |db.steps| && ValidRefs(db)
    ensures Promote(flags, db, s).Ok? ==> TriggersFit(db, Promote(flags, db, s).value)
  {
    if Spawns(flags, db.steps[s]) { SpawnFits(flags, db, s); }
  }

  lemma SpawnFits(flags: Flags, db: Db, s: nat)
    requires s < |db.steps| && ValidRefs(db)
    ensures Spawn(flags, db, s).Ok? ==> TriggersFit(db, Spawn(flags, db, s).value)
  {
    if Spawn(flags, db, s).Ok? && !HasChild(db.procs, s) {
      var tpl := db.catalog.steps[db.steps[s].template];
      var t, seed := tpl.childTemplate.value, ChildSeed(db, s, tpl).value;
      InstantiateFits(db, t, seed);
      assert Spawn(flags, db, s).value == Instantiate(db, t, seed).(steps := Block(Instantiate(db, t, seed).steps, s));
    }
  }

  lemma {:induction false} EnableStepsFit(flags: Flags, db: Db, rows: seq<nat>, now: int)
    requires ValidRefs(db) && RowsIn(rows, |db.steps|)
    ensures EnableSteps(flags, db, rows, now).Ok? ==> TriggersFit(db, EnableSteps(flags, db, rows, now).value)
    decreases |rows|
  {
    if rows != [] && EnableStep(flags, db, rows[0], now).Ok? {
      var checked, next := Evaluated(db, rows[0], now), EnableStep(flags, db, rows[0], now).value;
      PromoteFits(flags, checked, rows[0]);
      assert TriggersFit(db, next);
      EnableStepsFit(flags, next, rows[1..], now);
    }
  }

  lemma ConcludeFits(flags: Flags, db: Db, s: nat, now: int)
    requires s < |db.steps| && ValidRefs(db)
    ensures Conclude(flags, db, s, now).Ok? ==> TriggersFit(db, Conclude(flags, db, s, now).value)
  {
    if Conclude(flags, db, s, now).Ok? {
      var rows := NextRows(flags, db, s, now);
      EnableStepsFit(flags, db, rows, now);
      ConcludeTail(flags, db, s, now);
    }
  }

  lemma AdvanceFits(flags: Flags, db: Db, s: nat, now: int)
    requires ValidRefs(db)
    ensures TriggersFit(db, Committed(db, AttemptAdvance(flags, db, s, now)))
  {
    if s < |db.steps| && Idle(db.steps[s].status) && AttemptAdvance(flags, db, s, now).Ok? {
      HeadFits(flags, db, s, now);
      var head := AdvanceHead(flags, db, s, now).value;
      if head.steps[s].taskType.Automated? && head.steps[s].status.Ready? && AdvanceOpen(flags, db, s, now) {
        CompletedFits(flags, head, Move(Move(head, s, InProgress), s, Completed), s, now);
        FitTrans(db, head, Conclude(flags, Move(Move(head, s, InProgress), s, Completed), s, now).value);
      }
    }
  }

  lemma HeadFits(flags: Flags, db: Db, s: nat, now: int)
    requires s < |db.steps| && ValidRefs(db)
    ensures AdvanceHead(flags, db, s, now).Ok? ==> TriggersFit(db, AdvanceHead(flags, db, s, now).value)
  {
    var entered := if db.steps[s].status.Ready? then Provision(flags, db, s) else db;
    PromoteFits(flags, Evaluated(entered, s, now), s);
  }

  lemma CompletedFits(flags: Flags, db: Db, done: Db, s: nat, now: int)
    requires s < |done.steps| && ValidRefs(done)
    requires |done.steps| == |db.steps| && done.trigs == db.trigs && done.catalog == db.catalog
    ensures TriggersFit(db, Committed(done, Conclude(flags, done, s, now)))
  {
    ConcludeFits(flags, done, s, now);
  }

  lemma CompleteFits(flags: Flags, db: Db, s: nat, now: int)
    requires ValidRefs(db)
    ensures TriggersFit(db, Committed(db, MarkCompleted(flags, db, s, now)))
  {
    if s < |db.steps| { CompletedFits(flags, db, Move(db, s, Completed), s, now); }
  }

  lemma HandleFits(flags: Flags, db: Db, n: Notice, now: int)
    requires ValidRefs(db)
    ensures TriggersFit(db, Handle(flags, db, n, now))
  {
    if n.ResumeStep? && n.step < |db.steps| { ConcludeFits(flags, db, n.step, now); }
  }

  lemma StartFits(flags: Flags, db: Db, t: nat, tenant: int, subject: string, subjectId: int,
                  policy: FailurePolicy, context: Option<Record>, host: Option<HostData>)
    ensures TriggersFit(db, Committed(db, StartRoot(flags, db, t, tenant, subject, subjectId, policy, context, host)))
  {
    if SubjectNamed(subject).Some? {
      InstantiateFits(db, t, Seed(tenant, SubjectNamed(subject).value, subjectId, None, policy, context));
    }
  }

  lemma DeliveryFits(flags: Flags, db: Db, i: nat, now: int)
    requires ValidRefs(db) && i < |db.notices|
    ensures TriggersFit(db, Exec(flags, db, Deliver(i, now)))
  {
    HandleFits(flags, db, db.notices[i], now);
    assert TriggersFit(db, Drop(Handle(flags, db, db.notices[i], now), i));
  }

  lemma EnvironmentFits(flags: Flags, db: Db, a: Action)
    requires ValidRefs(db) && Environmental(a) && !a.EditCatalog?
    ensures TriggersFit(db, Exec(flags, db, a))
  {}

  lemma ExecFits(flags: Flags, db: Db, a: Action)
    requires Good(flags, db) && !a.EditCatalog?
    ensures TriggersFit(db, Exec(flags, db, a))
  {
    match a
    case StartProcess(t, tenant, subject, subjectId, policy, context, host) =>
      StartFits(flags, db, t, tenant, subject, subjectId, policy, context, host);
    case Advance(s, now) => AdvanceFits(flags, db, s, now);
    case Complete(s, now) => CompleteFits(flags, db, s, now);
    case Deliver(i, now) => if i < |db.notices| { DeliveryFits(flags, db, i, now); }
    case _ => EnvironmentFits(flags, db, a);
  }

  lemma ExecRefers(flags: Flags, db: Db, a: Action)
    requires Good(flags, db) && TriggersRefer(db)
    ensures TriggersRefer(Exec(flags, db, a))
  {
    if !a.EditCatalog? { ExecFits(flags, db, a); }
  }

  /** In every reachable state. */
  lemma {:induction false} TriggersAlwaysRefer(flags: Flags, db: Db, actions: seq<Action>)
    requires Good(flags, db) && TriggersRefer(db)
    ensures TriggersRefer(Run(flags, db, actions))
    decreases |actions|
  {
    if actions != [] {
      TriggersAlwaysRefer(flags, db, actions[..|actions| - 1]);
      ExecRefers(flags, Run(flags, db, actions[..|actions| - 1]), actions[|actions| - 1]);
    }
  }

  // ----- steps born unable to start -----

  /** Does the template give step `tpl` a trigger that can never be met? */
  predicate HasDeadTrigger(catalog: Catalog, tpl: nat) {
    exists i :: 0 <= i < |catalog.triggers| && catalog.triggers[i].step == tpl && !catalog.triggers[i].condition.JsonLogic?
  }

  predicate HasMandatoryBinding(catalog: Catalog, tpl: nat) {
    exists b :: 0 <= b < |catalog.bindings| && catalog.bindings[b].step == tpl && catalog.bindings[b].mandatory
  }

  lemma CopiesAreUnique(db: Db, t: nat, seed: Seed, a: nat, b: nat)
    requires var r := Instantiate(db, t, seed);
      |db.steps| <= a < |r.steps| && |db.steps| <= b < |r.steps| && r.steps[a].template == r.steps[b].template
    ensures a == b
  {
    StepsAreABijection(db, t, seed);
    var r, rows := Instantiate(db, t, seed), OrderedSteps(db.catalog, t);
    assert CopyOf(db.catalog, r.steps[a], rows[a - |db.steps|], |db.procs|);
    assert CopyOf(db.catalog, r.steps[b], rows[b - |db.steps|], |db.procs|);
  }

  /** A copied step stems from a step of the template. */
  lemma CopyStemsFromTemplate(db: Db, t: nat, seed: Seed, s: nat)
    requires |db.steps| <= s < |Instantiate(db, t, seed).steps|
    ensures var step := Instantiate(db, t, seed).steps[s];
      && step.template in OrderedSteps(db.catalog, t) && step.template < |db.catalog.steps|
      && (step.status.Pending? <==> db.catalog.steps[step.template].order != 1)
  {
    StepsAreABijection(db, t, seed);
    var rows := OrderedSteps(db.catalog, t);
    assert CopyOf(db.catalog, Instantiate(db, t, seed).steps[s], rows[s - |db.steps|], |db.procs|);
    assert rows[s - |db.steps|] in rows;
  }

  lemma DeadTriggerIff(db: Db, t: nat, seed: Seed, s: nat)
    requires TriggersRefer(db) && |db.steps| <= s < |Instantiate(db, t, seed).steps|
    ensures DeadTrigger(Instantiate(db, t, seed), s) <==>
      HasDeadTrigger(db.catalog, Instantiate(db, t, seed).steps[s].template)
  {
    var r := Instantiate(db, t, seed);
    if DeadTrigger(r, s) {
      var i :| 0 <= i < |r.trigs| && r.trigs[i].step == s && !r.trigs[i].condition.JsonLogic?;
      assert i >= |db.trigs|;
      DeadCopyIsDead(db, t, seed, s, i);
    }
    if HasDeadTrigger(db.catalog, r.steps[s].template) {
      var id :| 0 <= id < |db.catalog.triggers| && db.catalog.triggers[id].step == r.steps[s].template
        && !db.catalog.triggers[id].condition.JsonLogic?;
      DeadIsCopied(db, t, seed, s, id);
    }
  }

  lemma DeadCopyIsDead(db: Db, t: nat, seed: Seed, s: nat, i: nat)
    requires |db.steps| <= s < |Instantiate(db, t, seed).steps|
    requires var r := Instantiate(db, t, seed);
      |db.trigs| <= i < |r.trigs| && r.trigs[i].step == s && !r.trigs[i].condition.JsonLogic?
    ensures HasDeadTrigger(db.catalog, Instantiate(db, t, seed).steps[s].template)
  {
    var r := Instantiate(db, t, seed);
    var ids := TriggersIn(db.catalog, OrderedSteps(db.catalog, t));
    TriggerFollowsItsStep(db, t, seed, i - |db.trigs|);
    assert TriggerPlaced(db, r, r.trigs[i], ids[i - |db.trigs|]);
  }

  lemma DeadIsCopied(db: Db, t: nat, seed: Seed, s: nat, id: nat)
    requires |db.steps| <= s < |Instantiate(db, t, seed).steps|
    requires id < |db.catalog.triggers| && db.catalog.triggers[id].step == Instantiate(db, t, seed).steps[s].template
    requires !db.catalog.triggers[id].condition.JsonLogic?
    ensures DeadTrigger(Instantiate(db, t, seed), s)
  {
    var r := Instantiate(db, t, seed);
    var ids := TriggersIn(db.catalog, OrderedSteps(db.catalog, t));
    CopyStemsFromTemplate(db, t, seed, s);
    assert id in ids;
    var k :| 0 <= k < |ids| && ids[k] == id;
    TriggerFollowsItsStep(db, t, seed, k);
    CopiesAreUnique(db, t, seed, r.trigs[|db.trigs| + k].step, s);
  }

  lemma OldBindingsRefer(db: Db)
    requires BindInv(db)
    ensures forall b :: 0 <= b < |db.bindings| ==> db.bindings[b].step < |db.steps|
  {
    assert forall b :: 0 <= b < |db.bindings| ==> BindingOk(db.procs, db.steps, db.objects, db.bindings[b]);
  }

  lemma MandatoryCopyWaits(flags: Flags, db: Db, t: nat, seed: Seed, s: nat, id: nat)
    requires |db.steps| <= s < |Instantiate(db, t, seed).steps| && flags.objectSteps
    requires id < |db.catalog.bindings| && db.catalog.bindings[id].mandatory
    requires db.catalog.bindings[id].step == Instantiate(db, t, seed).steps[s].template
    ensures AwaitsObject(flags, Instantiate(db, t, seed), s)
  {
    CopyStemsFromTemplate(db, t, seed, s);
    var row := CopyOfBinding(db, t, seed, id);
    var r := Instantiate(db, t, seed);
    CopiesAreUnique(db, t, seed, r.bindings[row].step, s);
    assert Waits(r.catalog, r.bindings[row], s);
  }

  lemma WaitingCopyIsMandatory(db: Db, t: nat, seed: Seed, s: nat, b: nat)
    requires BindInv(db) && |db.steps| <= s < |Instantiate(db, t, seed).steps|
    requires b < |Instantiate(db, t, seed).bindings| && Waits(db.catalog, Instantiate(db, t, seed).bindings[b], s)
    ensures HasMandatoryBinding(db.catalog, Instantiate(db, t, seed).steps[s].template)
  {
    OldBindingsRefer(db);
    BindingFollowsItsStep(db, t, seed, b - |db.bindings|);
  }

  lemma AwaitsObjectIff(flags: Flags, db: Db, t: nat, seed: Seed, s: nat)
    requires BindInv(db) && |db.steps| <= s < |Instantiate(db, t, seed).steps|
    ensures AwaitsObject(flags, Instantiate(db, t, seed), s) <==>
      flags.objectSteps && HasMandatoryBinding(db.catalog, Instantiate(db, t, seed).steps[s].template)
  {
    var r := Instantiate(db, t, seed);
    if AwaitsObject(flags, r, s) {
      var b :| 0 <= b < |r.bindings| && Waits(r.catalog, r.bindings[b], s);
      WaitingCopyIsMandatory(db, t, seed, s, b);
    }
    if flags.objectSteps && HasMandatoryBinding(db.catalog, r.steps[s].template) {
      var id :| 0 <= id < |db.catalog.bindings| && db.catalog.bindings[id].step == r.steps[s].template
        && db.catalog.bindings[id].mandatory;
      MandatoryCopyWaits(flags, db, t, seed, s, id);
    }
  }

  /** A new step is born sealed exactly when its order is not 1 and its template step has an
      event, time or unknown trigger, or, with object steps enabled, a mandatory binding. */
  lemma BornSealedIff(flags: Flags, db: Db, t: nat, seed: Seed, s: nat)
    requires TriggersRefer(db) && BindInv(db)
    ensures var r := Instantiate(db, t, seed);
      |db.steps| <= s < |r.steps| ==>
        var tpl := r.steps[s].template;
        && tpl < |db.catalog.steps|
        && (Sealed(flags, r, s) <==>
              && db.catalog.steps[tpl].order != 1
              && (HasDeadTrigger(db.catalog, tpl) || (flags.objectSteps && HasMandatoryBinding(db.catalog, tpl))))
  {
    if |db.steps| <= s < |Instantiate(db, t, seed).steps| {
      CopyStemsFromTemplate(db, t, seed, s);
      DeadTriggerIff(db, t, seed, s);
      AwaitsObjectIff(flags, db, t, seed, s);
    }
  }

  // ----- what makes a promotion fail -----

  predicate NoInstance(parent: Process) {
    var ctx := RecordOrEmpty(parent.context);
    && EntryNumber(ctx, "configCustomObjectInstanceId") == 0
    && EntryNumber(ctx, "config_custom_object_instance_id") == 0
    && (!parent.subjectType.ConfigInstance? || parent.subjectId == 0)
  }

  function ChildType(parent: Process, policy: SubjectPolicy): SubjectType {
    match policy
    case Inherit => parent.subjectType
    case UseConfigInstance => ConfigInstance
    case OwnWorkflow => Workflow
  }

  /** A call step without a child cannot spawn one: no child template, no configuration
      instance where one is wanted, or a subject tier that is switched off. */
  predicate CannotSpawn(flags: Flags, db: Db, s: nat)
    requires s < |db.steps| && db.steps[s].process < |db.procs|
  {
    var step, parent := db.steps[s], db.procs[db.steps[s].process];
    && Spawns(flags, step) && !HasChild(db.procs, s)
    && (step.template >= |db.catalog.steps|
        || db.catalog.steps[step.template].childTemplate.None?
        || (db.catalog.steps[step.template].subjectPolicy.UseConfigInstance? && NoInstance(parent))
        || !TierEnabled(flags, ChildType(parent, db.catalog.steps[step.template].subjectPolicy)))
  }

  lemma PromoteFailsIff(flags: Flags, db: Db, s: nat)
    requires s < |db.steps| && ValidRefs(db)
    ensures Promote(flags, db, s).Thrown? <==> CannotSpawn(flags, db, s)
  {
    if Spawns(flags, db.steps[s]) && !HasChild(db.procs, s) && db.steps[s].template < |db.catalog.steps| {
      Effects.ChildSubjectLaw(db.procs[db.steps[s].process], db.catalog.steps[db.steps[s].template].subjectPolicy);
    }
  }

  /** Step `x` is a pending step of the next order after `s` in the same process. */
  predicate IsNext(db: Db, s: nat, x: nat)
    requires s < |db.steps|
  {
    x < |db.steps| && db.steps[x].process == db.steps[s].process && db.steps[x].order == db.steps[s].order + 1
    && db.steps[x].status.Pending?
  }

  /** Some step unlocked after `s` could not spawn its child. */
  predicate NextCannotSpawn(flags: Flags, db: Db, s: nat, now: int)
    requires s < |db.steps| && ValidRefs(db)
  {
    exists x :: 0 <= x < |db.steps| && BlocksNext(flags, db, s, x, now)
  }

  predicate BlocksNext(flags: Flags, db: Db, s: nat, x: nat, now: int)
    requires s < |db.steps| && ValidRefs(db)
  {
    IsNext(db, s, x) && Eligible(flags, db, x, now) && CannotSpawn(flags, db, x)
  }

  /** Tables in which spawning from `x` is the same matter. */
  ghost predicate SameSpawning(db: Db, r: Db, x: nat) {
    && x < |db.steps| && x < |r.steps| && r.steps[x] == db.steps[x]
    && db.steps[x].process < |db.procs| && |r.procs| >= |db.procs|
    && r.procs[db.steps[x].process] == db.procs[db.steps[x].process]
    && r.catalog == db.catalog
    && HasChild(r.procs, x) == HasChild(db.procs, x)
  }

  lemma SpawnKeepsOthers(flags: Flags, db: Db, t: nat, x: nat)
    requires t < |db.steps| && x < |db.steps| && x != t && ValidRefs(db)
    ensures Promote(flags, db, t).Ok? ==> SameSpawning(db, Promote(flags, db, t).value, x)
  {
    if Promote(flags, db, t).Ok? {
      Effects.PromoteKeepsView(flags, db, t, x);
      if Spawns(flags, db.steps[t]) && !HasChild(db.procs, t) {
        SpawnResult(flags, db, t);
        var child, added :| SpawnAdds(db, Promote(flags, db, t).value, t, child, added);
        OneMoreChild(db.procs, child, t, x);
      }
    }
  }

  lemma OneMoreChild(procs: seq<Process>, child: Process, t: nat, x: nat)
    requires ChildOf(child, t) && x != t
    ensures HasChild(procs + [child], x) == HasChild(procs, x)
  {
    if HasChild(procs, x) {
      var c :| 0 <= c < |procs| && ChildOf(procs[c], x);
      assert ChildOf((procs + [child])[c], x);
    }
    if HasChild(procs + [child], x) {
      var c :| 0 <= c < |procs + [child]| && ChildOf((procs + [child])[c], x);
      assert c < |procs| ==> (procs + [child])[c] == procs[c];
    }
  }

  lemma EnableStepKeepsOthers(flags: Flags, db: Db, t: nat, now: int, x: nat)
    requires t < |db.steps| && x < |db.steps| && x != t && ValidRefs(db) && EnableStep(flags, db, t, now).Ok?
    ensures var next := EnableStep(flags, db, t, now).value;
      && Effects.SameView(db, next, x)
      && CannotSpawn(flags, next, x) == CannotSpawn(flags, db, x)
      && Eligible(flags, next, x, now) == Eligible(flags, db, x, now)
  {
    Effects.EnableStepKeepsView(flags, db, t, now, x);
    Effects.SameEligibility(flags, db, EnableStep(flags, db, t, now).value, x, now);
    SpawnKeepsOthers(flags, Evaluated(db, t, now), t, x);
  }

  lemma {:induction false} EnableStepsFailIff(flags: Flags, db: Db, rows: seq<nat>, now: int)
    requires ValidRefs(db) && RowsIn(rows, |db.steps|) && Distinct(rows)
    ensures EnableSteps(flags, db, rows, now).Thrown? <==>
      exists x :: x in rows && Eligible(flags, db, x, now) && CannotSpawn(flags, db, x)
    decreases |rows|
  {
    if rows != [] {
      assert forall x :: x in rows <==> x == rows[0] || x in rows[1..];
      PromoteFailsIff(flags, Evaluated(db, rows[0], now), rows[0]);
      if EnableStep(flags, db, rows[0], now).Ok? {
        var next := EnableStep(flags, db, rows[0], now).value;
        forall x | x in rows[1..]
          ensures Eligible(flags, next, x, now) == Eligible(flags, db, x, now)
          ensures CannotSpawn(flags, next, x) == CannotSpawn(flags, db, x)
        {
          EnableStepKeepsOthers(flags, db, rows[0], now, x);
        }
        EnableStepsFailIff(flags, next, rows[1..], now);
      }
    }
  }

  /** Unlocking fails exactly when some eligible next step cannot spawn its child. */
  lemma EnableNextFailsIff(flags: Flags, db: Db, s: nat, now: int)
    requires ValidRefs(db) && s < |db.steps|
    ensures EnableNext(flags, db, s, now).Thrown? <==> NextCannotSpawn(flags, db, s, now)
  {
    var rows := NextRows(flags, db, s, now);
    EnableStepsFailIff(flags, db, rows, now);
    if EnableNext(flags, db, s, now).Thrown? {
      var x :| x in rows && Eligible(flags, db, x, now) && CannotSpawn(flags, db, x);
      assert BlocksNext(flags, db, s, x, now);
    }
    if NextCannotSpawn(flags, db, s, now) {
      var x :| 0 <= x < |db.steps| && BlocksNext(flags, db, s, x, now);
      assert x in rows;
    }
  }

  // ----- when a step moves on -----

  /** Tables that differ from `db` in step `s`, and in nothing its next steps are judged by. */
  lemma SameNext(flags: Flags, db: Db, r: Db, s: nat, now: int)
    requires ValidRefs(db) && ValidRefs(r) && s < |db.steps| && |r.steps| == |db.steps|
    requires r.steps[s].process == db.steps[s].process && r.steps[s].order == db.steps[s].order
    requires forall x :: 0 <= x < |db.steps| && x != s ==> Effects.SameView(db, r, x) && SameSpawning(db, r, x)
    ensures NextCannotSpawn(flags, r, s, now) == NextCannotSpawn(flags, db, s, now)
  {
    forall x | 0 <= x < |db.steps| ensures BlocksNext(flags, r, s, x, now) == BlocksNext(flags, db, s, x, now) {
      if x != s { Effects.SameEligibility(flags, db, r, x, now); }
    }
  }

  lemma MoveKeepsOthers(db: Db, s: nat, status: StepStatus, x: nat)
    requires ValidRefs(db) && s < |db.steps| && x < |db.steps| && x != s
    ensures Effects.SameView(db, Move(db, s, status), x) && SameSpawning(db, Move(db, s, status), x)
  {}

  /** A manual completion takes effect exactly when the step is ready, its gates are open, and
      no next step that it would unlock is unable to spawn its child. */
  lemma CompletionTakesEffectIff(flags: Flags, db: Db, s: nat, now: int)
    requires Good(flags, db) && s < |db.steps| && !db.steps[s].status.Completed?
    ensures var r := Exec(flags, db, Complete(s, now));
      && s < |r.steps|
      && (r.steps[s].status.Completed? <==>
            db.steps[s].status.Ready? && GatesOpen(flags, db, s) && !NextCannotSpawn(flags, db, s, now))
  {
    if db.steps[s].status.Ready? && GatesOpen(flags, db, s) {
      var done := Move(db, s, Completed);
      forall x | 0 <= x < |db.steps| && x != s ensures Effects.SameView(db, done, x) && SameSpawning(db, done, x) {
        MoveKeepsOthers(db, s, Completed, x);
      }
      SameNext(flags, db, done, s, now);
      EnableNextFailsIff(flags, done, s, now);
      ConcludeKeepsOwnStep(flags, done, s, now);
    }
  }

  /** Unlocking the next steps leaves the step itself alone. */
  lemma ConcludeKeepsOwnStep(flags: Flags, db: Db, s: nat, now: int)
    requires ValidRefs(db) && s < |db.steps|
    ensures Conclude(flags, db, s, now).Ok? <==> EnableNext(flags, db, s, now).Ok?
    ensures Conclude(flags, db, s, now).Ok? ==>
      s < |Conclude(flags, db, s, now).value.steps| && Conclude(flags, db, s, now).value.steps[s] == db.steps[s]
  {
    if EnableNext(flags, db, s, now).Ok? {
      Effects.NextStepsAreUnlockedExactly(flags, db, s, now, s);
      ConcludeTail(flags, db, s, now);
    }
  }

  /** An advance takes a pending step out of pending exactly when its gates and triggers are
      met, it can spawn its child if it is to, and, for an automated step, which runs at once,
      no next step that it would unlock is unable to spawn its own. */
  lemma AdvanceStartsIff(flags: Flags, db: Db, s: nat, now: int)
    requires Good(flags, db) && s < |db.steps| && db.steps[s].status.Pending?
    ensures var r := Exec(flags, db, Advance(s, now));
      && s < |r.steps|
      && (!r.steps[s].status.Pending? <==>
            && Eligible(flags, db, s, now)
            && !CannotSpawn(flags, db, s)
            && (db.steps[s].taskType.Automated? ==> !NextCannotSpawn(flags, db, s, now)))
  {
    var checked := Evaluated(db, s, now);
    PromoteFailsIff(flags, checked, s);
    if Eligible(flags, db, s, now) && Promote(flags, checked, s).Ok? {
      Effects.EnableStepUnlocks(flags, db, s, now);
      if db.steps[s].taskType.Automated? { AutomatedRunsIff(flags, db, s, now); }
    }
  }

  lemma AutomatedRunsIff(flags: Flags, db: Db, s: nat, now: int)
    requires ValidRefs(db) && s < |db.steps| && db.steps[s].status.Pending? && db.steps[s].taskType.Automated?
    requires Eligible(flags, db, s, now)
    ensures var outcome := AttemptAdvance(flags, db, s, now);
      && (outcome.Ok? <==> !NextCannotSpawn(flags, db, s, now))
      && (outcome.Ok? ==> s < |outcome.value.steps| && outcome.value.steps[s].status.Completed?)
  {
    var checked := Evaluated(db, s, now);
    var head := Promote(flags, checked, s).value;
    assert AttemptAdvance(flags, db, s, now) == Conclude(flags, Move(Move(head, s, InProgress), s, Completed), s, now);
    RunKeepsOthers(flags, db, head, s, now);
    EnableNextFailsIff(flags, Move(Move(head, s, InProgress), s, Completed), s, now);
    ConcludeKeepsOwnStep(flags, Move(Move(head, s, InProgress), s, Completed), s, now);
  }

  lemma RunKeepsOthers(flags: Flags, db: Db, head: Db, s: nat, now: int)
    requires ValidRefs(db) && s < |db.steps| && db.steps[s].taskType.Automated?
    requires Promote(flags, Evaluated(db, s, now), s) == Ok(head)
    ensures ValidRefs(head) && s < |head.steps|
    ensures NextCannotSpawn(flags, Move(Move(head, s, InProgress), s, Completed), s, now) == NextCannotSpawn(flags, db, s, now)
  {
    var done := Move(Move(head, s, InProgress), s, Completed);
    forall x | 0 <= x < |db.steps| && x != s ensures Effects.SameView(db, done, x) && SameSpawning(db, done, x) {
      Effects.EvaluatedKeepsView(db, s, now, x);
      Effects.PromoteKeepsView(flags, Evaluated(db, s, now), s, x);
      SpawnKeepsOthers(flags, Evaluated(db, s, now), s, x);
      Effects.SameViewTrans(db, Evaluated(db, s, now), head, x);
      MovesKeepOthers(head, s, x);
      Effects.SameViewTrans(db, head, done, x);
    }
    SameNext(flags, db, done, s, now);
  }

  lemma MovesKeepOthers(head: Db, s: nat, x: nat)
    requires ValidRefs(head) && s < |head.steps| && x < |head.steps| && x != s
    ensures var done := Move(Move(head, s, InProgress), s, Completed);
      Effects.SameView(head, done, x) && SameSpawning(head, done, x)
  {
    MoveKeepsOthers(head, s, InProgress, x);
    MoveKeepsOthers(Move(head, s, InProgress), s, Completed, x);
    Effects.SameViewTrans(head, Move(head, s, InProgress), Move(Move(head, s, InProgress), s, Completed), x);
  }
}
