/** The tables the workflow engine works on. Rows are never deleted by the engine, so a
    table is a sequence and a row's position stands for its auto-increment id. */
module Tables {
  import opened Basics
  import opened Json

  datatype StepStatus = Pending | Ready | InProgress | Completed | Blocked | Canceled
  datatype BlockedReason = NoReason | WaitingChild | ChildFailed
  datatype TaskType = Manual | Automated | CallProcess | ConfigObject
  datatype ProcessStatus = Active | Finished | Aborted
  datatype FailurePolicy = Ignore | PauseParent | FailParent
  datatype SubjectType = Project | ScheduledTask | ConfigInstance | Workflow
  datatype Link = Link(parent: nat, step: nat)

  /** A `process_instances` row. `Finished` and `Aborted` are the stored statuses
      `completed` and `canceled`; `link` is the parent_instance_id / parent_step_id pair. */
  datatype Process = Process(
    template: nat,
    tenant: int,
    subjectType: SubjectType,
    subjectId: int,
    status: ProcessStatus,
    link: Option<Link>,
    policy: FailurePolicy,
    context: Option<Record>)

  datatype Step = Step(
    process: nat,
    template: nat,
    name: string,
    taskType: TaskType,
    order: int,
    optional: bool,
    status: StepStatus,
    reason: BlockedReason)

  datatype Requirement = Requirement(step: nat, template: nat, mandatory: bool, approved: bool)

  /** What a trigger condition can see when it is evaluated. */
  datatype TriggerContext = TriggerContext(
    tenant: int,
    template: nat,
    process: nat,
    step: nat,
    allRequiredApproved: bool,
    now: int)

  /** A stored trigger envelope; the json-logic program is kept as the predicate it denotes. */
  datatype Condition =
    | JsonLogic(holds: TriggerContext -> bool)
    | Time(delayMs: nat)
    | Event(name: string)
    | UnknownType

  datatype Trigger = Trigger(step: nat, template: nat, condition: Condition, met: bool)

  datatype BindingStatus = BindingPending | BindingActive | BindingValid | BindingFailed | BindingSkipped

  datatype Binding = Binding(
    step: nat,
    binding: Option<nat>,
    configObject: nat,
    instance: Option<nat>,
    status: BindingStatus,
    snapshot: Option<Record>)

  datatype ObjectStatus = Draft | Published | Archived

  /** A `config_custom_object_instances` row. */
  datatype CustomObject = CustomObject(tenant: int, configObject: nat, payload: Record, status: ObjectStatus)

  datatype StatusControl = ProcessControl | HybridControl | ManualControl

  datatype Task = Task(project: int, step: nat, control: StatusControl, column: nat)

  // Template side: what `startProcess` copies from.

  datatype SubjectPolicy = Inherit | OwnWorkflow | UseConfigInstance
  datatype BindingMode = CreateOnEnter | UseExisting
  datatype ConfigObjectMode = Standalone | SorBound | SystemTable

  datatype TplStep = TplStep(
    template: nat,
    order: int,
    taskType: TaskType,
    optional: bool,
    name: Option<string>,
    childTemplate: Option<nat>,
    subjectPolicy: SubjectPolicy,
    contextPatch: Option<Record>)

  datatype TplRequirement = TplRequirement(step: nat)
  datatype TplTrigger = TplTrigger(step: nat, condition: Condition)

  /** `rule` is the completion_rule JSON: its `type` and `minStatus` entries when present. */
  datatype Rule = Rule(type_: Option<string>, minStatus: Option<string>)

  datatype TplBinding = TplBinding(
    step: nat,
    configObject: nat,
    mode: BindingMode,
    mandatory: bool,
    rule: Option<Rule>,
    orderIndex: int)

  datatype Catalog = Catalog(
    steps: seq<TplStep>,
    requirements: seq<TplRequirement>,
    triggers: seq<TplTrigger>,
    bindings: seq<TplBinding>,
    configObjects: seq<ConfigObjectMode>)

  /** Messages that travel between transactions: the terminal child id returned by a commit,
      a reported cancellation, and the `process_child_completed` event. */
  datatype Notice =
    | ChildFinished(child: nat)
    | ChildAborted(child: nat)
    | ResumeStep(step: nat)

  datatype Flags = Flags(
    callProcess: bool,
    objectSteps: bool,
    tier1ScheduledTask: bool,
    tier2Instance: bool,
    tier3Workflow: bool)

  /** `columns` holds project_step_status_mappings; `hooks` logs every process whose host
      completion hook and `process_completed` event fired. */
  datatype Db = Db(
    procs: seq<Process>,
    steps: seq<Step>,
    reqs: seq<Requirement>,
    trigs: seq<Trigger>,
    bindings: seq<Binding>,
    objects: seq<CustomObject>,
    tasks: seq<Task>,
    columns: map<(int, StepStatus), nat>,
    notices: seq<Notice>,
    hooks: seq<nat>,
    catalog: Catalog)

  /** Stored ids start at 1. */
  function RowId(index: nat): nat { index + 1 }

  predicate Terminal(status: ProcessStatus) { status.Finished? || status.Aborted? }

  predicate Idle(status: StepStatus) { status.Pending? || status.Ready? || status.InProgress? }

  /** There is at least one step, and every step is completed. */
  predicate AllDone(steps: seq<Step>, p: nat) {
    && (exists s :: 0 <= s < |steps| && steps[s].process == p)
    && (forall s :: 0 <= s < |steps| && steps[s].process == p ==> steps[s].status.Completed?)
  }

  predicate ChildOf(proc: Process, step: nat) {
    proc.link.Some? && proc.link.value.step == step
  }

  predicate HasChild(procs: seq<Process>, step: nat) {
    exists c :: 0 <= c < |procs| && ChildOf(procs[c], step)
  }

  /** Foreign keys that every transaction relies on. */
  predicate Refs(procs: seq<Process>, steps: seq<Step>) {
    && (forall s :: 0 <= s < |steps| ==> steps[s].process < |procs|)
    && (forall c :: 0 <= c < |procs| && procs[c].link.Some? ==>
          procs[c].link.value.parent < |procs| && procs[c].link.value.step < |steps|)
  }

  predicate ValidRefs(db: Db) { Refs(db.procs, db.steps) }
}
