/** How processes are born and how a child process and its parent step talk to each other. */
module ChildProcess {
  import opened Basics
  import opened Json
  import opened Tables
  import opened Instantiation
  import opened ProjectHost

  // ----- starting a process -----

  function SubjectNamed(name: string): Option<SubjectType> {
    if name == "project" then Some(Project)
    else if name == "scheduled_task" then Some(ScheduledTask)
    else if name == "config_custom_object_instance" then Some(ConfigInstance)
    else if name == "workflow" then Some(Workflow)
    else None
  }

  predicate TierEnabled(flags: Flags, subject: SubjectType) {
    match subject
    case Project => true
    case ScheduledTask => flags.tier1ScheduledTask
    case ConfigInstance => flags.tier2Instance
    case Workflow => flags.tier3Workflow
  }

  /** The transaction body of startProcess; the new process gets id |db.procs|. */
  function Start(flags: Flags, db: Db, t: nat, seed: Seed, host: Option<HostData>, skipHost: bool): (r: Outcome<Db>) {
    if !TierEnabled(flags, seed.subjectType) then Thrown(TierDisabled)
    else
      var created := Instantiate(db, t, seed);
      if seed.subjectType.Project? && !skipHost
      then ProcessStarted(created, |db.procs|, host)
      else Ok(created)
  }

  /** startProcess as called from outside: no parent link, subject type given by name. */
  function StartRoot(flags: Flags, db: Db, t: nat, tenant: int, subject: string, subjectId: int,
                     policy: FailurePolicy, context: Option<Record>, host: Option<HostData>): Outcome<Db>
  {
    var subjectType := SubjectNamed(subject);
    if subjectType.None? then Thrown(UnsupportedSubject)
    else Start(flags, db, t, Seed(tenant, subjectType.value, subjectId, None, policy, context), host, false)
  }

  // ----- spawning -----

  const PARENT_KEY := "parentProcessInstanceId"
  const MERGED_KEY := "childMergedAt"

  function ChildContext(parent: Process, p: nat, patch: Option<Record>): Record {
    (RecordOrEmpty(parent.context) + RecordOrEmpty(patch))[PARENT_KEY := Num(RowId(p))]
  }

  function ChildSubject(parent: Process, policy: SubjectPolicy): Outcome<(SubjectType, int)> {
    match policy
    case Inherit => Ok((parent.subjectType, parent.subjectId))
    case UseConfigInstance =>
      var ctx := RecordOrEmpty(parent.context);
      var camel := EntryNumber(ctx, "configCustomObjectInstanceId");
      var snake := EntryNumber(ctx, "config_custom_object_instance_id");
      var own := if parent.subjectType.ConfigInstance? then parent.subjectId else 0;
      var id := if camel != 0 then camel else if snake != 0 then snake else own;
      if id == 0 then Thrown(ConfigInstanceMissing) else Ok((ConfigInstance, id))
    case OwnWorkflow => Ok((Workflow, 0))
  }

  function Block(steps: seq<Step>, s: nat): seq<Step>
    requires s < |steps|
  {
    steps[s := steps[s].(status := Blocked, reason := WaitingChild)]
  }

  function ChildSeed(db: Db, s: nat, tpl: TplStep): Outcome<Seed>
    requires s < |db.steps| && db.steps[s].process < |db.procs|
  {
    var p := db.steps[s].process;
    var parent := db.procs[p];
    var subject :- ChildSubject(parent, tpl.subjectPolicy);
    Ok(Seed(parent.tenant, subject.0, subject.1, Some(Link(p, s)), parent.policy,
            Some(ChildContext(parent, p, tpl.contextPatch))))
  }

  /** spawnChildAndBlockParent for a call_process step that became eligible. */
  function Spawn(flags: Flags, db: Db, s: nat): (r: Outcome<Db>)
    requires s < |db.steps| && ValidRefs(db)
  {
    if HasChild(db.procs, s) then
      Ok(db.(steps := Block(db.steps, s)))
    else
      var row := db.steps[s].template;
      if row >= |db.catalog.steps| || db.catalog.steps[row].childTemplate.None? then Thrown(ChildTemplateMissing)
      else
        var tpl := db.catalog.steps[row];
        var seed :- ChildSeed(db, s, tpl);
        var started :- Start(flags, db, tpl.childTemplate.value, seed, None, true);
        Ok(started.(steps := Block(started.steps, s)))
  }

  // ----- a child reached a terminal status -----

  function MergedContext(parent: Option<Record>, child: Option<Record>, now: int): Record {
    (RecordOrEmpty(parent) + RecordOrEmpty(child))[MERGED_KEY := Num(now)]
  }

  function SetProcess(db: Db, p: nat, status: ProcessStatus): Db
    requires p < |db.procs|
  {
    db.(procs := db.procs[p := db.procs[p].(status := status)])
  }

  function MergeIntoParent(db: Db, p: nat, child: Option<Record>, now: int): Db
    requires p < |db.procs|
  {
    db.(procs := db.procs[p := db.procs[p].(context := Some(MergedContext(db.procs[p].context, child, now)))])
  }

  function CompleteCallStep(steps: seq<Step>, s: nat): seq<Step>
    requires s < |steps|
  {
    steps[s := steps[s].(status := Completed, reason := NoReason)]
  }

  function FailCallStep(steps: seq<Step>, s: nat): seq<Step>
    requires s < |steps|
  {
    steps[s := steps[s].(status := Canceled, reason := ChildFailed)]
  }

  /** handleChildTerminal; `aborted` tells a canceled child from a completed one. */
  function HandleTerminal(flags: Flags, db: Db, c: nat, aborted: bool, now: int): (r: Db)
    requires ValidRefs(db)
    ensures db.notices <= r.notices
  {
    if !flags.callProcess || c >= |db.procs| || db.procs[c].link.None? then db
    else
      var link := db.procs[c].link.value;
      var policy := db.procs[link.parent].policy;
      var merged := MergeIntoParent(db, link.parent, db.procs[c].context, now);
      if aborted && policy.PauseParent? then merged
      else if aborted && policy.FailParent? then
        SetProcess(merged, link.parent, Aborted).(steps := FailCallStep(db.steps, link.step))
      else
        merged.(steps := CompleteCallStep(db.steps, link.step),
                notices := if aborted then db.notices else db.notices + [ResumeStep(link.step)])
  }
}
