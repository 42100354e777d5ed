/** The project host: kanban columns and process-controlled tasks mirroring step states. */
module ProjectHost {
  import opened Basics
  import opened Tables

  datatype HostData = HostData(projectId: int, statusIdByName: map<string, nat>)

  const ENGINE_STATES: seq<StepStatus> := [Pending, Ready, InProgress, Completed, Blocked, Canceled]

  function ColumnName(status: StepStatus): string {
    match status
    case Pending => "To Do"
    case Ready => "Ready"
    case InProgress => "In Progress"
    case Completed => "Done"
    case Blocked => "Blocked"
    case Canceled => "Done"
  }

  function StatusId(host: HostData, status: StepStatus): nat {
    var name := ColumnName(status);
    if name in host.statusIdByName then host.statusIdByName[name] else 0
  }

  // ----- process start -----

  /** INSERT IGNORE of one mapping row. */
  function SeedColumn(columns: map<(int, StepStatus), nat>, host: HostData, status: StepStatus): map<(int, StepStatus), nat> {
    var key := (host.projectId, status);
    if key in columns then columns else columns[key := StatusId(host, status)]
  }

  /** One mapping per engine state; a status name without an id aborts the start. */
  function SeedColumns(columns: map<(int, StepStatus), nat>, host: HostData, states: seq<StepStatus>)
    : (r: Outcome<map<(int, StepStatus), nat>>)
    ensures r.Ok? ==> forall k :: k in columns ==> k in r.value && r.value[k] == columns[k]
    ensures r.Ok? ==> forall st :: st in states ==> (host.projectId, st) in r.value
    decreases |states|
  {
    if states == [] then Ok(columns)
    else if StatusId(host, states[0]) == 0 then Thrown(MissingTaskStatus)
    else SeedColumns(SeedColumn(columns, host, states[0]), host, states[1..])
  }

  function SeedAll(columns: map<(int, StepStatus), nat>, host: HostData): (r: Outcome<map<(int, StepStatus), nat>>)
    ensures r.Ok? ==> forall k :: k in columns ==> k in r.value && r.value[k] == columns[k]
    ensures r.Ok? ==> forall st :: st in ENGINE_STATES ==> (host.projectId, st) in r.value
  {
    SeedColumns(columns, host, ENGINE_STATES)
  }

  /** Steps of process `p`, ORDER BY step_order. */
  function StepsOf(steps: seq<Step>, p: nat): (rows: seq<nat>)
    ensures forall s: nat :: s in rows <==> s < |steps| && steps[s].process == p
    ensures forall k :: 0 <= k < |rows| ==> rows[k] < |steps|
    ensures forall j, k :: 0 <= j < k < |rows| ==> steps[rows[j]].order <= steps[rows[k]].order
  {
    var key := StepKey(steps);
    var rows := SortBy(Select(|steps|, (s: nat) => s < |steps| && steps[s].process == p), key);
    assert forall k :: 0 <= k < |rows| ==> rows[k] in rows;
    assert forall j, k :: 0 <= j < k < |rows| ==> key(rows[j]) <= key(rows[k]);
    rows
  }

  function StepKey(steps: seq<Step>): nat -> int {
    (s: nat) => if s < |steps| then steps[s].order else 0
  }

  lemma StepsOfDistinct(steps: seq<Step>, p: nat)
    ensures Distinct(StepsOf(steps, p))
  {
    var ids := Select(|steps|, (s: nat) => s < |steps| && steps[s].process == p);
    IncreasingIsDistinct(ids);
    SortKeepsDistinct(ids, StepKey(steps));
  }

  function NewTask(db: Db, host: HostData, s: nat): Task
    requires s < |db.steps|
  {
    var key := (host.projectId, db.steps[s].status);
    Task(host.projectId, s, ProcessControl,
         if key in db.columns then db.columns[key] else StatusId(host, Pending))
  }

  function NewTasks(db: Db, host: HostData, rows: seq<nat>): (tasks: seq<Task>)
    requires forall k :: 0 <= k < |rows| ==> rows[k] < |db.steps|
    ensures |tasks| == |rows|
    ensures forall k :: 0 <= k < |rows| ==> tasks[k] == NewTask(db, host, rows[k])
  {
    seq(|rows|, k requires 0 <= k < |rows| => NewTask(db, host, rows[k]))
  }

  function ProcessStarted(db: Db, p: nat, host: Option<HostData>): (r: Outcome<Db>)
    ensures r.Ok? ==> r.value == db.(columns := r.value.columns, tasks := r.value.tasks)
  {
    if host.None? || host.value.projectId == 0 then Thrown(HostDataMissing)
    else
      var columns :- SeedAll(db.columns, host.value);
      var seeded := db.(columns := columns);
      Ok(seeded.(tasks := db.tasks + NewTasks(seeded, host.value, StepsOf(db.steps, p))))
  }

  // ----- step state changes -----

  function TaskOf(tasks: seq<Task>, s: nat): (t: Option<nat>)
    ensures t.Some? ==> t.value < |tasks| && tasks[t.value].step == s && forall i :: 0 <= i < t.value ==> tasks[i].step != s
    ensures t.None? ==> forall i :: 0 <= i < |tasks| ==> tasks[i].step != s
  {
    var at := (i: nat) => i < |tasks| && tasks[i].step == s;
    assert forall i: nat :: i < |tasks| && !at(i) ==> tasks[i].step != s;
    FirstWhere(|tasks|, at)
  }

  function SyncTaskColumn(tasks: seq<Task>, columns: map<(int, StepStatus), nat>, s: nat, status: StepStatus): (r: seq<Task>)
    ensures |r| == |tasks|
  {
    var t := TaskOf(tasks, s);
    if t.None? then tasks
    else
      var task := tasks[t.value];
      if task.control.ManualControl? || (task.project, status) !in columns then tasks
      else tasks[t.value := task.(column := columns[(task.project, status)])]
  }

  /** The first task of the step moves to the column mapped for the status, if its status is
      controlled by the process, wholly or in part, and the column is mapped; no other task moves. */
  lemma SyncDecides(tasks: seq<Task>, columns: map<(int, StepStatus), nat>, s: nat, status: StepStatus, k: nat)
    requires k < |tasks|
    ensures var key := (tasks[k].project, status);
      SyncTaskColumn(tasks, columns, s, status)[k] ==
        if tasks[k].step == s && (forall j :: 0 <= j < k ==> tasks[j].step != s)
           && tasks[k].control != ManualControl && key in columns
        then tasks[k].(column := columns[key]) else tasks[k]
  {
    var t := TaskOf(tasks, s);
    if t.Some? && tasks[k].step == s { assert t.value <= k; }
  }

  /** dispatchStepStateChanged: only the project host reacts inside the engine's tables. */
  function Dispatch(db: Db, s: nat, status: StepStatus): (r: Db)
    requires s < |db.steps| && db.steps[s].process < |db.procs|
    ensures r == db.(tasks := r.tasks)
  {
    if db.procs[db.steps[s].process].subjectType.Project?
    then db.(tasks := SyncTaskColumn(db.tasks, db.columns, s, status))
    else db
  }
}
