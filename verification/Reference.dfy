/** What the rows of a step say, read off the tables alone. The results about whole actions are
    stated in these terms, so that they do not lean on the functions they are about. */
module Reference {
  import opened Basics
  import opened Json
  import opened Tables
  import opened StepObjects
  import opened Instantiation
  import opened ChildProcess
  import opened Orchestrator
  import opened Starting
  import opened Runs
  import Completion

  // ----- what a step is waiting for -----

  /** Every mandatory requirement row of the step is approved. */
  predicate Approved(db: Db, s: nat) {
    forall i :: 0 <= i < |db.reqs| && db.reqs[i].step == s && db.reqs[i].mandatory ==> db.reqs[i].approved
  }

  /** The template says that the step can do without the object. */
  predicate Optional(catalog: Catalog, row: Binding) {
    row.binding.Some? && row.binding.value < |catalog.bindings| && !catalog.bindings[row.binding.value].mandatory
  }

  /** With object steps enabled, every object row of the step that is not optional is valid or skipped. */
  predicate ObjectsSettled(flags: Flags, db: Db, s: nat) {
    flags.objectSteps ==>
      forall b :: 0 <= b < |db.bindings| && db.bindings[b].step == s && !Optional(db.catalog, db.bindings[b]) ==>
        db.bindings[b].status.BindingValid? || db.bindings[b].status.BindingSkipped?
  }

  /** Every trigger row of the step is a json-logic condition that holds at `now`. */
  predicate TriggersHold(db: Db, s: nat, now: int)
    requires s < |db.steps| && db.steps[s].process < |db.procs|
  {
    var p := db.steps[s].process;
    var ctx := TriggerContext(db.procs[p].tenant, db.procs[p].template, p, s, Approved(db, s), now);
    forall i :: 0 <= i < |db.trigs| && db.trigs[i].step == s ==>
      db.trigs[i].condition.JsonLogic? && db.trigs[i].condition.holds(ctx)
  }

  predicate MayGo(flags: Flags, db: Db, s: nat, now: int)
    requires s < |db.steps| && db.steps[s].process < |db.procs|
  {
    Approved(db, s) && ObjectsSettled(flags, db, s) && TriggersHold(db, s, now)
  }

  lemma MayGoIff(flags: Flags, db: Db, s: nat, now: int)
    requires s < |db.steps| && ValidRefs(db)
    ensures Approved(db, s) == RequirementsApproved(db, s)
    ensures ObjectsSettled(flags, db, s) == BindingsValid(flags, db, s)
    ensures MayGo(flags, db, s, now) == Eligible(flags, db, s, now)
  {}

  /** Evaluating the triggers of a step marks those of its conditions that hold, and nothing else. */
  lemma EvaluationMarks(db: Db, s: nat, now: int, i: nat)
    requires s < |db.steps| && ValidRefs(db) && i < |db.trigs|
    ensures var r, t := Evaluated(db, s, now), db.trigs[i];
      var p := db.steps[s].process;
      var ctx := TriggerContext(db.procs[p].tenant, db.procs[p].template, p, s, Approved(db, s), now);
      && r == db.(trigs := r.trigs) && |r.trigs| == |db.trigs|
      && r.trigs[i] == t.(met := t.met || (t.step == s && t.condition.JsonLogic? && t.condition.holds(ctx)))
  {}

  // ----- what a call step needs -----

  /** The step starts a child process instead of becoming ready. */
  predicate Calls(flags: Flags, step: Step) {
    flags.callProcess && step.taskType.CallProcess?
  }

  predicate TierOff(flags: Flags, subject: SubjectType) {
    || (subject.ScheduledTask? && !flags.tier1ScheduledTask)
    || (subject.ConfigInstance? && !flags.tier2Instance)
    || (subject.Workflow? && !flags.tier3Workflow)
  }

  /** Neither context entry names a configuration instance, and the process is not about one. */
  predicate NamesNoInstance(proc: Process) {
    var ctx := RecordOrEmpty(proc.context);
    && EntryNumber(ctx, "configCustomObjectInstanceId") == 0
    && EntryNumber(ctx, "config_custom_object_instance_id") == 0
    && (proc.subjectType.ConfigInstance? ==> proc.subjectId == 0)
  }

  /** The template names no child, or the child's subject is not to be had or switched off. */
  predicate ChildRefused(flags: Flags, catalog: Catalog, step: Step, proc: Process) {
    step.template < |catalog.steps| && catalog.steps[step.template].childTemplate.Some? ==>
      match catalog.steps[step.template].subjectPolicy
      case Inherit => TierOff(flags, proc.subjectType)
      case OwnWorkflow => !flags.tier3Workflow
      case UseConfigInstance => NamesNoInstance(proc) || !flags.tier2Instance
  }

  /** A call step that has no child yet and cannot get one. */
  predicate Stuck(flags: Flags, db: Db, s: nat)
    requires s < |db.steps| && db.steps[s].process < |db.procs|
  {
    && Calls(flags, db.steps[s])
    && (forall c :: 0 <= c < |db.procs| && db.procs[c].link.Some? ==> db.procs[c].link.value.step != s)
    && ChildRefused(flags, db.catalog, db.steps[s], db.procs[db.steps[s].process])
  }

  lemma StuckIff(flags: Flags, db: Db, s: nat)
    requires s < |db.steps| && ValidRefs(db)
    ensures Stuck(flags, db, s) == CannotSpawn(flags, db, s)
  {
    assert HasChild(db.procs, s) <==> exists c :: 0 <= c < |db.procs| && ChildOf(db.procs[c], s);
  }

  // ----- the steps after a step -----

  /** Step `x` is a pending step of the same process, one order further. */
  predicate Follows(db: Db, s: nat, x: nat)
    requires s < |db.steps|
  {
    && x < |db.steps| && db.steps[x].process == db.steps[s].process
    && db.steps[x].order == db.steps[s].order + 1 && db.steps[x].status.Pending?
  }

  /** A step to be unlocked after `s` is a call step that cannot get its child. */
  predicate NextStuck(flags: Flags, db: Db, s: nat, now: int)
    requires s < |db.steps| && ValidRefs(db)
  {
    exists x :: 0 <= x < |db.steps| && Follows(db, s, x) && MayGo(flags, db, x, now) && Stuck(flags, db, x)
  }

  lemma NextStuckIff(flags: Flags, db: Db, s: nat, now: int)
    requires s < |db.steps| && ValidRefs(db)
    ensures NextStuck(flags, db, s, now) == NextCannotSpawn(flags, db, s, now)
  {
    forall x: nat | x < |db.steps|
      ensures (Follows(db, s, x) && MayGo(flags, db, x, now) && Stuck(flags, db, x)) == BlocksNext(flags, db, s, x, now)
    {
      MayGoIff(flags, db, x, now);
      StuckIff(flags, db, x);
    }
  }

  /** What a pending step turns into when it is let go. */
  function LetGo(flags: Flags, step: Step): Step {
    if Calls(flags, step) then step.(status := Blocked, reason := WaitingChild) else step.(status := Ready)
  }

  // ----- processes -----

  /** The process has steps, all of them completed. */
  predicate EveryStepCompleted(db: Db, p: nat) {
    && (exists s :: 0 <= s < |db.steps| && db.steps[s].process == p)
    && (forall s :: 0 <= s < |db.steps| && db.steps[s].process == p ==> db.steps[s].status == Completed)
  }

  predicate NoChildActive(db: Db, p: nat) {
    forall c :: 0 <= c < |db.procs| && db.procs[c].link.Some? && db.procs[c].link.value.parent == p ==>
      db.procs[c].status != Active
  }

  predicate EveryObjectSettled(flags: Flags, db: Db, p: nat) {
    forall s: nat :: s < |db.steps| && db.steps[s].process == p ==> ObjectsSettled(flags, db, s)
  }

  /** All steps completed, no child active, all mandatory objects settled. */
  predicate Finishable(flags: Flags, db: Db, p: nat) {
    EveryStepCompleted(db, p) && NoChildActive(db, p) && EveryObjectSettled(flags, db, p)
  }

  lemma FinishableIff(flags: Flags, db: Db, p: nat)
    requires ValidRefs(db)
    ensures EveryStepCompleted(db, p) == AllDone(db.steps, p)
    ensures Finishable(flags, db, p) <==> Completion.CanComplete(flags, db, p) && AllDone(db.steps, p)
  {
    forall s: nat | s < |db.steps| ensures ObjectsSettled(flags, db, s) == BindingsValid(flags, db, s) {
      MayGoIff(flags, db, s, 0);
    }
  }

  /** What the completion check looks at. A canceled step counts as ended there. */
  lemma CanCompleteIff(flags: Flags, db: Db, p: nat)
    requires ValidRefs(db)
    ensures Completion.HasSteps(db.steps, p) <==> exists s :: 0 <= s < |db.steps| && db.steps[s].process == p
    ensures Completion.AllTerminal(db.steps, p) <==>
      forall s :: 0 <= s < |db.steps| && db.steps[s].process == p ==> db.steps[s].status == Completed || db.steps[s].status == Canceled
    ensures Completion.NoActiveChild(db.procs, p) <==> NoChildActive(db, p)
    ensures Completion.AllBindingsValid(flags, db, p) <==> EveryObjectSettled(flags, db, p)
    ensures Completion.CanComplete(flags, db, p) <==>
      && Completion.HasSteps(db.steps, p) && Completion.AllTerminal(db.steps, p)
      && NoChildActive(db, p) && EveryObjectSettled(flags, db, p)
  {
    forall s: nat | s < |db.steps| ensures ObjectsSettled(flags, db, s) == BindingsValid(flags, db, s) {
      MayGoIff(flags, db, s, 0);
    }
  }
}
