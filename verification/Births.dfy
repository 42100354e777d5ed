/** How processes come into being, read off the tables: which requests are accepted, what the new
    rows hold, and the tasks and columns of a project. */
module Births {
  import opened Basics
  import opened Json
  import opened Tables
  import opened Instantiation
  import opened ProjectHost
  import opened ChildProcess
  import opened Orchestrator
  import opened Evolution
  import opened Runs
  import opened Reference
  import Effects
  import Starting

  // ----- a start from outside -----

  /** The subject type of that name, if it is one and its tier is switched on. */
  ghost predicate Accepts(flags: Flags, subject: string, subjectType: SubjectType) {
    match subjectType
    case Project => subject == "project"
    case ScheduledTask => subject == "scheduled_task" && flags.tier1ScheduledTask
    case ConfigInstance => subject == "config_custom_object_instance" && flags.tier2Instance
    case Workflow => subject == "workflow" && flags.tier3Workflow
  }

  /** A project start needs the project's id and an id for each of the five columns. */
  ghost predicate HostComplete(host: Option<HostData>) {
    && host.Some? && host.value.projectId != 0
    && Effects.Knows(host.value, "To Do") && Effects.Knows(host.value, "Ready") && Effects.Knows(host.value, "In Progress")
    && Effects.Knows(host.value, "Done") && Effects.Knows(host.value, "Blocked")
  }

  /** The row of a process that has just been started. */
  function Newborn(t: nat, tenant: int, subjectType: SubjectType, subjectId: int, link: Option<Link>,
                   policy: FailurePolicy, context: Option<Record>, id: nat): Process
  {
    Process(t, tenant, subjectType, if subjectType == Workflow && subjectId == 0 then id + 1 else subjectId,
            Active, link, policy, context)
  }

  /** The project's missing columns are mapped, each to the column of its state. */
  ghost predicate Mapped(before: map<(int, StepStatus), nat>, after: map<(int, StepStatus), nat>, host: HostData) {
    && (forall k :: k in before ==> k in after && after[k] == before[k])
    && (forall k :: k in after && k !in before ==> k.0 == host.projectId)
    && Effects.MappedTo(before, after, host, Pending, "To Do")
    && Effects.MappedTo(before, after, host, Ready, "Ready")
    && Effects.MappedTo(before, after, host, InProgress, "In Progress")
    && Effects.MappedTo(before, after, host, Completed, "Done")
    && Effects.MappedTo(before, after, host, Blocked, "Blocked")
    && Effects.MappedTo(before, after, host, Canceled, "Done")
  }

  /** Each new step gets one process-controlled task of the project, in the column of its
      status and in the order of the steps; older tasks stay. */
  ghost predicate Tasked(db: Db, r: Db, host: HostData) {
    && |r.steps| >= |db.steps| && db.tasks <= r.tasks
    && |r.tasks| - |db.tasks| == |r.steps| - |db.steps|
    && (forall k :: |db.tasks| <= k < |r.tasks| ==> TaskFor(r, r.tasks[k], host) && r.tasks[k].step >= |db.steps|)
    && (forall j, k :: |db.tasks| <= j < k < |r.tasks| ==>
          r.tasks[j].step != r.tasks[k].step && r.tasks[k].step < |r.steps| && r.tasks[j].step < |r.steps|
          && r.steps[r.tasks[j].step].order <= r.steps[r.tasks[k].step].order)
  }

  ghost predicate TaskFor(r: Db, task: Task, host: HostData) {
    && task.project == host.projectId && task.control == ProcessControl && task.step < |r.steps|
    && (host.projectId, r.steps[task.step].status) in r.columns
    && task.column == r.columns[(host.projectId, r.steps[task.step].status)]
  }

  lemma SubjectNamedIff(flags: Flags, subject: string, subjectType: SubjectType)
    ensures Accepts(flags, subject, subjectType) <==> SubjectNamed(subject) == Some(subjectType) && TierEnabled(flags, subjectType)
  {}

  lemma StepsOfNewborn(db: Db, r: Db)
    requires ValidRefs(db) && db.steps <= r.steps
    requires forall x :: |db.steps| <= x < |r.steps| ==> r.steps[x].process == |db.procs|
    ensures var rows := StepsOf(r.steps, |db.procs|);
      && Distinct(rows) && |rows| == |r.steps| - |db.steps|
      && forall k :: 0 <= k < |rows| ==> |db.steps| <= rows[k] < |r.steps|
  {
    var rows := StepsOf(r.steps, |db.procs|);
    StepsOfDistinct(r.steps, |db.procs|);
    assert forall k :: 0 <= k < |rows| ==> rows[k] in rows;
    SelectedRange(|r.steps|, |db.steps|, (s: nat) => s < |r.steps| && r.steps[s].process == |db.procs|);
  }

  /** A query for the rows from `m` on finds that many. */
  lemma {:induction false} SelectedRange(n: nat, m: nat, where_: nat -> bool)
    requires m <= n && forall i: nat :: i < n ==> (where_(i) <==> m <= i)
    ensures |Select(n, where_)| == n - m
    decreases n
  {
    if n > m {
      SelectedRange(n - 1, m, where_);
    } else if n > 0 {
      NothingSelected(n, where_);
    }
  }

  lemma {:induction false} NothingSelected(n: nat, where_: nat -> bool)
    requires forall i: nat :: i < n ==> !where_(i)
    ensures Select(n, where_) == []
    decreases n
  {
    if n > 0 { NothingSelected(n - 1, where_); }
  }

  lemma ProjectTasked(db: Db, created: Db, host: HostData)
    requires ValidRefs(db) && created.tasks == db.tasks && created.columns == db.columns && db.steps <= created.steps
    requires forall x :: |db.steps| <= x < |created.steps| ==> created.steps[x].process == |db.procs|
    requires host.projectId != 0
    ensures ProcessStarted(created, |db.procs|, Some(host)).Ok? <==> HostComplete(Some(host))
    ensures ProcessStarted(created, |db.procs|, Some(host)).Thrown? ==>
      ProcessStarted(created, |db.procs|, Some(host)).error == MissingTaskStatus
    ensures ProcessStarted(created, |db.procs|, Some(host)).Ok? ==>
      var r := ProcessStarted(created, |db.procs|, Some(host)).value;
      Tasked(db, r, host) && Mapped(db.columns, r.columns, host)
  {
    Effects.SeedingLaw(db.columns, host);
    if SeedAll(db.columns, host).Ok? {
      ColumnsMapped(db.columns, host);
      StepsOfNewborn(db, created);
      TasksInPlace(db, created.(columns := SeedAll(db.columns, host).value), host);
    }
  }

  lemma ColumnsMapped(columns: map<(int, StepStatus), nat>, host: HostData)
    requires SeedAll(columns, host).Ok?
    ensures Mapped(columns, SeedAll(columns, host).value, host)
    ensures forall st: StepStatus :: (host.projectId, st) in SeedAll(columns, host).value
  {
    Effects.SeedingLaw(columns, host);
    forall st: StepStatus ensures (host.projectId, st) in SeedAll(columns, host).value { Effects.EveryState(st); }
  }

  lemma TasksInPlace(db: Db, seeded: Db, host: HostData)
    requires ValidRefs(db) && seeded.tasks == db.tasks && db.steps <= seeded.steps
    requires forall st: StepStatus :: (host.projectId, st) in seeded.columns
    requires var rows := StepsOf(seeded.steps, |db.procs|);
      && Distinct(rows) && |rows| == |seeded.steps| - |db.steps|
      && forall k :: 0 <= k < |rows| ==> |db.steps| <= rows[k] < |seeded.steps|
    ensures Tasked(db, seeded.(tasks := db.tasks + NewTasks(seeded, host, StepsOf(seeded.steps, |db.procs|))), host)
  {
    var rows := StepsOf(seeded.steps, |db.procs|);
    var tasks := db.tasks + NewTasks(seeded, host, rows);
    forall k | |db.tasks| <= k < |tasks| ensures tasks[k] == NewTask(seeded, host, rows[k - |db.tasks|]) {
      assert tasks[k] == NewTasks(seeded, host, rows)[k - |db.tasks|];
    }
    TasksFit(db, seeded.(tasks := tasks), seeded, host, rows);
  }

  lemma TasksFit(db: Db, r: Db, seeded: Db, host: HostData, rows: seq<nat>)
    requires r == seeded.(tasks := r.tasks) && db.tasks <= r.tasks && |r.tasks| == |db.tasks| + |rows|
    requires |rows| == |r.steps| - |db.steps| && Distinct(rows)
    requires forall st: StepStatus :: (host.projectId, st) in seeded.columns
    requires forall k :: 0 <= k < |rows| ==> |db.steps| <= rows[k] < |r.steps|
    requires forall j, k :: 0 <= j < k < |rows| ==> r.steps[rows[j]].order <= r.steps[rows[k]].order
    requires forall k :: |db.tasks| <= k < |r.tasks| ==> r.tasks[k] == NewTask(seeded, host, rows[k - |db.tasks|])
    ensures Tasked(db, r, host)
  {
    forall k | |db.tasks| <= k < |r.tasks| ensures TaskFor(r, r.tasks[k], host) && r.tasks[k].step == rows[k - |db.tasks|] {
      NewTaskFits(seeded, r.tasks, host, rows[k - |db.tasks|]);
    }
    forall j, k | |db.tasks| <= j < k < |r.tasks|
      ensures r.tasks[j].step != r.tasks[k].step && r.steps[r.tasks[j].step].order <= r.steps[r.tasks[k].step].order
    {
      assert rows[j - |db.tasks|] != rows[k - |db.tasks|];
    }
  }

  lemma NewTaskFits(seeded: Db, tasks: seq<Task>, host: HostData, s: nat)
    requires s < |seeded.steps| && forall st: StepStatus :: (host.projectId, st) in seeded.columns
    ensures TaskFor(seeded.(tasks := tasks), NewTask(seeded, host, s), host)
  {}


  /** The request is refused: no known subject type on an open tier, or a project without its host data. */
  ghost predicate Refused(flags: Flags, subject: string, host: Option<HostData>) {
    forall known :: Accepts(flags, subject, known) ==> known.Project? && !HostComplete(host)
  }

  function WhyRefused(flags: Flags, subject: string, host: Option<HostData>): Error {
    if subject != "project" && subject != "scheduled_task" && subject != "config_custom_object_instance" && subject != "workflow"
    then UnsupportedSubject
    else if subject != "project" then TierDisabled
    else if host.None? || host.value.projectId == 0 then HostDataMissing
    else MissingTaskStatus
  }

  lemma StartRefusedIff(flags: Flags, db: Db, t: nat, tenant: int, subject: string, subjectId: int,
                        policy: FailurePolicy, context: Option<Record>, host: Option<HostData>)
    requires ValidRefs(db)
    ensures var r := StartRoot(flags, db, t, tenant, subject, subjectId, policy, context, host);
      && (r.Thrown? <==> Refused(flags, subject, host))
      && (r.Thrown? ==> r.error == WhyRefused(flags, subject, host))
  {
    forall known ensures Accepts(flags, subject, known) <==> SubjectNamed(subject) == Some(known) && TierEnabled(flags, known) {
      SubjectNamedIff(flags, subject, known);
    }
    if SubjectNamed(subject).Some? {
      StartFailsIff(flags, db, t, Seed(tenant, SubjectNamed(subject).value, subjectId, None, policy, context), host);
    }
  }

  function WhyNotStarted(flags: Flags, subjectType: SubjectType, host: Option<HostData>): Error {
    if !TierEnabled(flags, subjectType) then TierDisabled
    else if host.None? || host.value.projectId == 0 then HostDataMissing
    else MissingTaskStatus
  }

  lemma StartFailsIff(flags: Flags, db: Db, t: nat, seed: Seed, host: Option<HostData>)
    requires ValidRefs(db) && seed.link.None?
    ensures var r := Start(flags, db, t, seed, host, false);
      && (r.Thrown? <==> !TierEnabled(flags, seed.subjectType) || (seed.subjectType.Project? && !HostComplete(host)))
      && (r.Thrown? ==> r.error == WhyNotStarted(flags, seed.subjectType, host))
  {
    InstantiateRefs(db, t, seed);
    if host.Some? && host.value.projectId != 0 { ProjectTasked(db, Instantiate(db, t, seed), host.value); }
  }

  /** One active root process with the copied template rows; for a project its tasks and columns. */
  ghost predicate Started(db: Db, r: Db, t: nat, seed: Seed, host: Option<HostData>)
    requires seed.subjectType.Project? ==> host.Some?
  {
    var copied := Instantiate(db, t, seed);
    && r.procs == db.procs +
         [Newborn(t, seed.tenant, seed.subjectType, seed.subjectId, None, seed.policy, seed.context, |db.procs|)]
    && r == copied.(columns := r.columns, tasks := r.tasks)
    && (if seed.subjectType.Project? then Tasked(db, r, host.value) && Mapped(db.columns, r.columns, host.value)
        else r.columns == db.columns && r.tasks == db.tasks)
  }

  lemma ProjectStarted(db: Db, t: nat, seed: Seed, host: HostData)
    requires ValidRefs(db) && seed.link.None? && seed.subjectType.Project? && HostComplete(Some(host))
    ensures var outcome := ProcessStarted(Instantiate(db, t, seed), |db.procs|, Some(host));
      outcome.Ok? && Started(db, outcome.value, t, seed, Some(host))
  {
    InstantiateRefs(db, t, seed);
    ProjectTasked(db, Instantiate(db, t, seed), host);
  }

  lemma StartAccepted(flags: Flags, db: Db, t: nat, seed: Seed, host: Option<HostData>)
    requires ValidRefs(db) && seed.link.None? && TierEnabled(flags, seed.subjectType)
    requires seed.subjectType.Project? ==> HostComplete(host)
    ensures var outcome := Start(flags, db, t, seed, host, false);
      outcome.Ok? && Started(db, outcome.value, t, seed, host)
  {
    if seed.subjectType.Project? { ProjectStarted(db, t, seed, host.value); }
  }

  /** A start is accepted exactly when the subject type is known, its tier is on, and a project
      start comes with complete host data. It adds one active root process with the copied
      template rows, and for a project its tasks and columns; a refused one changes nothing. */
  lemma StartDecides(flags: Flags, db: Db, t: nat, tenant: int, subject: string, subjectId: int,
                     policy: FailurePolicy, context: Option<Record>, host: Option<HostData>, subjectType: SubjectType)
    requires ValidRefs(db)
    ensures var r := Exec(flags, db, StartProcess(t, tenant, subject, subjectId, policy, context, host));
      && (Accepts(flags, subject, subjectType) && (subjectType.Project? ==> HostComplete(host)) ==>
            Started(db, r, t, Seed(tenant, subjectType, subjectId, None, policy, context), host))
      && (Refused(flags, subject, host) ==> r == db)
  {
    StartRefusedIff(flags, db, t, tenant, subject, subjectId, policy, context, host);
    if Accepts(flags, subject, subjectType) && (subjectType.Project? ==> HostComplete(host)) {
      SubjectNamedIff(flags, subject, subjectType);
      StartAccepted(flags, db, t, Seed(tenant, subjectType, subjectId, None, policy, context), host);
    }
  }

  /** Copying a template adds the process and rows to five tables, at their ends, and touches
      nothing else. */
  lemma CopyAddsOnly(db: Db, t: nat, seed: Seed)
    ensures var r := Instantiate(db, t, seed);
      && r == db.(procs := r.procs, steps := r.steps, reqs := r.reqs, trigs := r.trigs, bindings := r.bindings)
      && r.procs == db.procs +
           [Newborn(t, seed.tenant, seed.subjectType, seed.subjectId, seed.link, seed.policy, seed.context, |db.procs|)]
      && db.steps <= r.steps && db.reqs <= r.reqs && db.trigs <= r.trigs && db.bindings <= r.bindings
  {}

  // ----- a child -----

  /** The subject handed to a child: the parent's own, the first instance that is named, or none
      (a workflow anchored to itself). */
  ghost predicate SubjectFor(parent: Process, policy: SubjectPolicy, subjectType: SubjectType, subjectId: int) {
    var ctx := RecordOrEmpty(parent.context);
    var camel, snake := EntryNumber(ctx, "configCustomObjectInstanceId"), EntryNumber(ctx, "config_custom_object_instance_id");
    match policy
    case Inherit => subjectType == parent.subjectType && subjectId == parent.subjectId
    case OwnWorkflow => subjectType == Workflow && subjectId == 0
    case UseConfigInstance =>
      && subjectType == ConfigInstance
      && subjectId == if camel != 0 then camel else if snake != 0 then snake else parent.subjectId
  }

  /** What a child is handed: the parent's tenant and policy, the link to the step, the subject
      its template step says, and the parent's context with the patch over it and the parent's id. */
  ghost predicate Handed(db: Db, s: nat, tpl: TplStep, seed: Seed)
    requires s < |db.steps| && ValidRefs(db)
  {
    var p := db.steps[s].process;
    var parent := db.procs[p];
    && SubjectFor(parent, tpl.subjectPolicy, seed.subjectType, seed.subjectId)
    && seed.tenant == parent.tenant && seed.policy == parent.policy && seed.link == Some(Link(p, s))
    && seed.context ==
         Some((RecordOrEmpty(parent.context) + RecordOrEmpty(tpl.contextPatch))["parentProcessInstanceId" := Num(p + 1)])
  }

  /** One active process of the template that the step names, with what it is handed; the
      template's rows; and the step is blocked. */
  ghost predicate Spawned(db: Db, r: Db, s: nat, seed: Seed)
    requires s < |db.steps| && ValidRefs(db)
  {
    && db.steps[s].template < |db.catalog.steps| && db.catalog.steps[db.steps[s].template].childTemplate.Some?
    && var tpl := db.catalog.steps[db.steps[s].template];
    var t := tpl.childTemplate.value;
    && Handed(db, s, tpl, seed)
    && r.procs == db.procs +
         [Newborn(t, seed.tenant, seed.subjectType, seed.subjectId, seed.link, seed.policy, seed.context, |db.procs|)]
    && Copies(db, r, s, t, seed)
  }

  /** The template's rows were copied for the child, and the step waits for it. */
  ghost predicate Copies(db: Db, r: Db, s: nat, t: nat, seed: Seed)
    requires s < |db.steps|
  {
    var copied := Instantiate(db, t, seed);
    r == copied.(steps := copied.steps[s := db.steps[s].(status := Blocked, reason := WaitingChild)])
  }

  function WhyStuck(catalog: Catalog, step: Step, proc: Process): Error {
    if step.template >= |catalog.steps| || catalog.steps[step.template].childTemplate.None? then ChildTemplateMissing
    else if catalog.steps[step.template].subjectPolicy.UseConfigInstance? && NamesNoInstance(proc) then ConfigInstanceMissing
    else TierDisabled
  }

  /** A call step that has a child is blocked on it; no second one is started. */
  lemma SecondSpawnBlocks(flags: Flags, db: Db, s: nat)
    requires s < |db.steps| && ValidRefs(db) && Calls(flags, db.steps[s]) && HasChild(db.procs, s)
    ensures Promote(flags, db, s) == Ok(db.(steps := db.steps[s := db.steps[s].(status := Blocked, reason := WaitingChild)]))
  {}

  lemma WhySpawnFails(flags: Flags, db: Db, s: nat)
    requires s < |db.steps| && ValidRefs(db) && Calls(flags, db.steps[s])
    ensures Promote(flags, db, s).Thrown? ==>
      Promote(flags, db, s).error == WhyStuck(db.catalog, db.steps[s], db.procs[db.steps[s].process])
  {
    if db.steps[s].template < |db.catalog.steps| {
      Effects.ChildSubjectLaw(db.procs[db.steps[s].process], db.catalog.steps[db.steps[s].template].subjectPolicy);
    }
  }

  /** A call step without a child gets one exactly when it is not stuck. */
  lemma SpawnDecides(flags: Flags, db: Db, s: nat)
    requires s < |db.steps| && ValidRefs(db) && Calls(flags, db.steps[s]) && !HasChild(db.procs, s)
    ensures Promote(flags, db, s).Thrown? <==> Stuck(flags, db, s)
    ensures Promote(flags, db, s).Thrown? ==>
      Promote(flags, db, s).error == WhyStuck(db.catalog, db.steps[s], db.procs[db.steps[s].process])
    ensures Promote(flags, db, s).Ok? ==>
      exists seed :: Spawned(db, Promote(flags, db, s).value, s, seed)
  {
    Starting.PromoteFailsIff(flags, db, s);
    StuckIff(flags, db, s);
    WhySpawnFails(flags, db, s);
    if Promote(flags, db, s).Ok? {
      var tpl := db.catalog.steps[db.steps[s].template];
      var seed := ChildSeed(db, s, tpl).value;
      SeedHanded(db, s, tpl);
      SpawnCopies(flags, db, s, tpl, seed);
      SpawnedFrom(db, Promote(flags, db, s).value, s, tpl, seed);
    }
  }

  lemma SpawnedFrom(db: Db, r: Db, s: nat, tpl: TplStep, seed: Seed)
    requires s < |db.steps| && ValidRefs(db)
    requires db.steps[s].template < |db.catalog.steps| && tpl == db.catalog.steps[db.steps[s].template]
    requires tpl.childTemplate.Some? && Handed(db, s, tpl, seed) && Copies(db, r, s, tpl.childTemplate.value, seed)
    requires r.procs == db.procs + [NewProcess(seed, tpl.childTemplate.value, |db.procs|)]
    ensures Spawned(db, r, s, seed)
  {
    var t := tpl.childTemplate.value;
    assert NewProcess(seed, t, |db.procs|) ==
      Newborn(t, seed.tenant, seed.subjectType, seed.subjectId, seed.link, seed.policy, seed.context, |db.procs|);
  }

  lemma SeedHanded(db: Db, s: nat, tpl: TplStep)
    requires s < |db.steps| && ValidRefs(db)
    ensures ChildSeed(db, s, tpl).Ok? ==> Handed(db, s, tpl, ChildSeed(db, s, tpl).value)
  {
    Effects.ChildSubjectLaw(db.procs[db.steps[s].process], tpl.subjectPolicy);
  }

  lemma SpawnCopies(flags: Flags, db: Db, s: nat, tpl: TplStep, seed: Seed)
    requires s < |db.steps| && ValidRefs(db) && Calls(flags, db.steps[s]) && !HasChild(db.procs, s)
    requires db.steps[s].template < |db.catalog.steps| && tpl == db.catalog.steps[db.steps[s].template]
    requires Promote(flags, db, s).Ok? && ChildSeed(db, s, tpl) == Ok(seed)
    ensures tpl.childTemplate.Some? && Copies(db, Promote(flags, db, s).value, s, tpl.childTemplate.value, seed)
    ensures Promote(flags, db, s).value.procs == db.procs + [NewProcess(seed, tpl.childTemplate.value, |db.procs|)]
  {}
}
