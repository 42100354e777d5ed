/** What never goes back: statuses climb, links and tenants are fixed, context keys and
    provisioned instances are kept; and the two invariants on binding rows and on the kanban
    mirror. Every transaction respects both. */
module Evolution {
  import opened Basics
  import opened Json
  import opened Tables
  import opened StepObjects
  import opened Instantiation
  import opened ProjectHost
  import opened ChildProcess
  import opened Completion
  import opened Orchestrator
  import Protocol
  import P = Preservation

  // ----- the order -----

  /** pending < ready < in_progress < completed, pending < blocked < completed or canceled. */
  predicate StatusLeq(a: StepStatus, b: StepStatus) {
    a == b ||
    match a
    case Pending => true
    case Ready => b.InProgress? || b.Completed?
    case InProgress => b.Completed?
    case Blocked => b.Completed? || b.Canceled?
    case Completed => false
    case Canceled => false
  }

  ghost predicate StepEvolves(a: Step, b: Step) {
    b == a.(status := b.status, reason := b.reason) && StatusLeq(a.status, b.status)
  }

  ghost predicate KeysKept(a: Option<Record>, b: Option<Record>) {
    RecordOrEmpty(a).Keys <= RecordOrEmpty(b).Keys
  }

  ghost predicate ProcessEvolves(a: Process, b: Process) {
    && b == a.(status := b.status, context := b.context)
    && (a.status == b.status || a.status.Active?)
    && KeysKept(a.context, b.context)
  }

  ghost predicate BindingEvolves(a: Binding, b: Binding) {
    && b == a.(status := b.status, instance := b.instance, snapshot := b.snapshot)
    && (a.instance.Some? ==> b.instance == a.instance)
    && (b.status.BindingPending? ==> a.status.BindingPending?)
  }

  ghost predicate ObjectEvolves(a: CustomObject, b: CustomObject) {
    a.tenant == b.tenant && a.configObject == b.configObject
  }

  ghost predicate TaskEvolves(a: Task, b: Task) {
    b == a.(column := b.column)
  }

  ghost predicate ProcsEvolve(a: seq<Process>, b: seq<Process>) {
    |a| <= |b| && forall i :: 0 <= i < |a| ==> ProcessEvolves(a[i], b[i])
  }

  ghost predicate StepsEvolve(a: seq<Step>, b: seq<Step>) {
    |a| <= |b| && forall i :: 0 <= i < |a| ==> StepEvolves(a[i], b[i])
  }

  ghost predicate BindingsEvolve(a: seq<Binding>, b: seq<Binding>) {
    |a| <= |b| && forall i :: 0 <= i < |a| ==> BindingEvolves(a[i], b[i])
  }

  ghost predicate ObjectsEvolve(a: seq<CustomObject>, b: seq<CustomObject>) {
    |a| <= |b| && forall i :: 0 <= i < |a| ==> ObjectEvolves(a[i], b[i])
  }

  ghost predicate TasksEvolve(a: seq<Task>, b: seq<Task>) {
    |a| <= |b| && forall i :: 0 <= i < |a| ==> TaskEvolves(a[i], b[i])
  }

  /** No step is ever added to an existing process. */
  ghost predicate NewStepsInNewProcesses(a: Db, b: Db) {
    forall x :: |a.steps| <= x < |b.steps| ==> b.steps[x].process >= |a.procs|
  }

  ghost predicate Evolves(a: Db, b: Db) {
    && ProcsEvolve(a.procs, b.procs)
    && StepsEvolve(a.steps, b.steps)
    && NewStepsInNewProcesses(a, b)
    && BindingsEvolve(a.bindings, b.bindings)
    && ObjectsEvolve(a.objects, b.objects)
    && TasksEvolve(a.tasks, b.tasks)
    && a.hooks <= b.hooks
  }

  /** Equal up to the `met` flag. */
  ghost predicate SameTrigger(a: Trigger, b: Trigger) {
    b == a.(met := b.met)
  }

  lemma EvolvesTrans(a: Db, b: Db, c: Db)
    requires Evolves(a, b) && Evolves(b, c)
    ensures Evolves(a, c)
  {
    forall i | 0 <= i < |a.procs| ensures ProcessEvolves(a.procs[i], c.procs[i]) {
      assert ProcessEvolves(a.procs[i], b.procs[i]) && ProcessEvolves(b.procs[i], c.procs[i]);
    }
    forall i | 0 <= i < |a.steps| ensures StepEvolves(a.steps[i], c.steps[i]) {
      assert StepEvolves(a.steps[i], b.steps[i]) && StepEvolves(b.steps[i], c.steps[i]);
    }
    forall x | |a.steps| <= x < |c.steps| ensures c.steps[x].process >= |a.procs| {
      assert x < |b.steps| ==> StepEvolves(b.steps[x], c.steps[x]);
    }
    forall i | 0 <= i < |a.bindings| ensures BindingEvolves(a.bindings[i], c.bindings[i]) {
      assert BindingEvolves(a.bindings[i], b.bindings[i]) && BindingEvolves(b.bindings[i], c.bindings[i]);
    }
    forall i | 0 <= i < |a.objects| ensures ObjectEvolves(a.objects[i], c.objects[i]) {
      assert ObjectEvolves(a.objects[i], b.objects[i]) && ObjectEvolves(b.objects[i], c.objects[i]);
    }
    forall i | 0 <= i < |a.tasks| ensures TaskEvolves(a.tasks[i], c.tasks[i]) {
      assert TaskEvolves(a.tasks[i], b.tasks[i]) && TaskEvolves(b.tasks[i], c.tasks[i]);
    }
  }

  // ----- binding rows -----

  ghost predicate BindingOk(procs: seq<Process>, steps: seq<Step>, objects: seq<CustomObject>, row: Binding) {
    && row.step < |steps| && steps[row.step].process < |procs|
    && row.binding.Some?
    && (row.status.BindingPending? ==> row.instance.None?)
    && (row.status.BindingActive? || row.status.BindingValid? ==> row.instance.Some?)
    && (row.instance.Some? ==>
          (row.instance.value < |objects| && objects[row.instance.value].tenant == procs[steps[row.step].process].tenant))
    && (row.snapshot.Some? <==> row.status.BindingValid?)
    && (row.snapshot.Some? ==> PayloadHasContent(row.snapshot.value))
  }

  ghost predicate Bind(procs: seq<Process>, steps: seq<Step>, bindings: seq<Binding>, objects: seq<CustomObject>) {
    && (forall i :: 0 <= i < |bindings| ==> BindingOk(procs, steps, objects, bindings[i]))
    && (forall i, j :: 0 <= i < |bindings| && 0 <= j < |bindings| && SharesObject(bindings[i], bindings[j]) ==> i == j)
  }

  ghost predicate SharesObject(a: Binding, b: Binding) {
    a.instance.Some? && b.instance == a.instance
  }

  ghost predicate BindInv(db: Db) { Bind(db.procs, db.steps, db.bindings, db.objects) }

  lemma BindFrame(db: Db, r: Db)
    requires BindInv(db)
    requires ProcsEvolve(db.procs, r.procs) && StepsEvolve(db.steps, r.steps) && ObjectsEvolve(db.objects, r.objects)
    requires r.bindings == db.bindings
    ensures BindInv(r)
  {
    forall i | 0 <= i < |r.bindings| ensures BindingOk(r.procs, r.steps, r.objects, r.bindings[i]) {
      var row := r.bindings[i];
      assert BindingOk(db.procs, db.steps, db.objects, row);
      assert StepEvolves(db.steps[row.step], r.steps[row.step]);
      assert ProcessEvolves(db.procs[db.steps[row.step].process], r.procs[db.steps[row.step].process]);
      if row.instance.Some? { assert ObjectEvolves(db.objects[row.instance.value], r.objects[row.instance.value]); }
    }
  }

  // ----- kanban mirror -----

  /** The status a step's task shows: a step that spawned a child keeps showing `pending`,
      because neither blocking nor the child's end is dispatched to the host. */
  ghost function Shown(procs: seq<Process>, steps: seq<Step>, s: nat): StepStatus
    requires s < |steps|
  {
    if HasChild(procs, s) then Pending else steps[s].status
  }

  ghost predicate TaskOk(procs: seq<Process>, steps: seq<Step>, columns: map<(int, StepStatus), nat>, task: Task) {
    && task.step < |steps| && steps[task.step].process < |procs|
    && procs[steps[task.step].process].subjectType.Project?
    && task.control.ProcessControl?
    && (forall st: StepStatus :: (task.project, st) in columns)
    && task.column == columns[(task.project, Shown(procs, steps, task.step))]
  }

  ghost predicate Mirror(procs: seq<Process>, steps: seq<Step>, tasks: seq<Task>, columns: map<(int, StepStatus), nat>) {
    && (forall t :: 0 <= t < |tasks| ==> TaskOk(procs, steps, columns, tasks[t]))
    && (forall t, u :: 0 <= t < |tasks| && 0 <= u < |tasks| && tasks[t].step == tasks[u].step ==> t == u)
  }

  ghost predicate TaskInv(db: Db) { Mirror(db.procs, db.steps, db.tasks, db.columns) }

  /** Both invariants; every move below keeps them. */
  ghost predicate Sound(db: Db) {
    ValidRefs(db) && BindInv(db) && TaskInv(db)
  }

  // ----- moves -----

  lemma {:induction false} ProvisionRowsSound(db: Db, rows: seq<nat>, s: nat)
    requires Sound(db) && s < |db.steps|
    requires Distinct(rows)
    requires forall k :: 0 <= k < |rows| ==>
      rows[k] < |db.bindings| && db.bindings[rows[k]].step == s && db.bindings[rows[k]].status.BindingPending?
    ensures var r := ProvisionRows(db, rows, db.procs[db.steps[s].process].tenant);
      Sound(r) && Evolves(db, r)
    decreases |rows|
  {
    var tenant := db.procs[db.steps[s].process].tenant;
    if rows != [] {
      var next := ProvisionRow(db, rows[0], tenant);
      ProvisionRowSound(db, rows[0], s);
      assert forall k :: 0 <= k < |rows[1..]| ==> rows[1..][k] == rows[k + 1] && rows[k + 1] != rows[0];
      ProvisionRowsSound(next, rows[1..], s);
      EvolvesTrans(db, next, ProvisionRows(next, rows[1..], tenant));
    }
  }

  lemma ProvisionRowOk(db: Db, i: nat, s: nat)
    requires Sound(db) && s < |db.steps|
    requires i < |db.bindings| && db.bindings[i].step == s && db.bindings[i].status.BindingPending?
    ensures var r := ProvisionRow(db, i, db.procs[db.steps[s].process].tenant);
      && |r.bindings| == |db.bindings|
      && forall j :: 0 <= j < |r.bindings| ==> BindingOk(r.procs, r.steps, r.objects, r.bindings[j])
  {
    var r := ProvisionRow(db, i, db.procs[db.steps[s].process].tenant);
    forall j | 0 <= j < |r.bindings| ensures BindingOk(r.procs, r.steps, r.objects, r.bindings[j]) {
      assert BindingOk(db.procs, db.steps, db.objects, db.bindings[j]);
    }
  }

  lemma ProvisionRowSound(db: Db, i: nat, s: nat)
    requires Sound(db) && s < |db.steps|
    requires i < |db.bindings| && db.bindings[i].step == s && db.bindings[i].status.BindingPending?
    ensures var r := ProvisionRow(db, i, db.procs[db.steps[s].process].tenant);
      Sound(r) && Evolves(db, r)
  {
    var r := ProvisionRow(db, i, db.procs[db.steps[s].process].tenant);
    assert BindingOk(db.procs, db.steps, db.objects, db.bindings[i]);
    ProvisionRowOk(db, i, s);
    forall j, k | 0 <= j < |r.bindings| && 0 <= k < |r.bindings| && SharesObject(r.bindings[j], r.bindings[k]) ensures j == k {
      assert j != i ==> BindingOk(db.procs, db.steps, db.objects, db.bindings[j]);
      assert k != i ==> BindingOk(db.procs, db.steps, db.objects, db.bindings[k]);
      assert j != i && k != i ==> SharesObject(db.bindings[j], db.bindings[k]);
    }
  }

  lemma ProvisionSound(flags: Flags, db: Db, s: nat)
    requires Sound(db) && s < |db.steps|
    ensures var r := Provision(flags, db, s);
      Sound(r) && Evolves(db, r)
  {
    if flags.objectSteps {
      var rows := Provisionable(db, s);
      IncreasingIsDistinct(rows);
      assert forall k :: 0 <= k < |rows| ==> rows[k] in rows;
      ProvisionRowsSound(db, rows, s);
    }
  }

  lemma EvaluatedSound(db: Db, s: nat, now: int)
    requires Sound(db) && s < |db.steps|
    ensures Sound(Evaluated(db, s, now)) && Evolves(db, Evaluated(db, s, now))
  {}

  /** A dispatched status change of a childless step. */
  lemma MoveSound(db: Db, s: nat, status: StepStatus)
    requires Sound(db) && s < |db.steps|
    requires !HasChild(db.procs, s) && StatusLeq(db.steps[s].status, status)
    ensures Sound(Move(db, s, status)) && Evolves(db, Move(db, s, status))
  {
    var r := Move(db, s, status);
    BindFrame(db, r.(tasks := db.tasks));
    forall t | 0 <= t < |r.tasks| ensures TaskOk(r.procs, r.steps, r.columns, r.tasks[t]) {
      assert TaskOk(db.procs, db.steps, db.columns, db.tasks[t]);
    }
    assert forall t :: 0 <= t < |r.tasks| ==> r.tasks[t].step == db.tasks[t].step;
  }

  /** Tables that only grew at the end. */
  lemma AppendEvolves(db: Db, r: Db)
    requires db.procs <= r.procs && db.steps <= r.steps && db.bindings <= r.bindings
    requires r.objects == db.objects && r.tasks == db.tasks && r.hooks == db.hooks
    requires NewStepsInNewProcesses(db, r)
    ensures Evolves(db, r)
  {}

  lemma InstantiateRefs(db: Db, t: nat, seed: Seed)
    requires ValidRefs(db)
    requires seed.link.Some? ==> seed.link.value.parent < |db.procs| && seed.link.value.step < |db.steps|
    ensures var r := Instantiate(db, t, seed);
      && ValidRefs(r) && Evolves(db, r)
      && db.steps <= r.steps
      && forall x :: |db.steps| <= x < |r.steps| ==> r.steps[x].process == |db.procs|
  {
    var r := Instantiate(db, t, seed);
    var rows := OrderedSteps(db.catalog, t);
    AppendRefs(db.procs, db.steps, NewProcess(seed, t, |db.procs|), NewSteps(db.catalog, rows, |db.procs|));
    AppendEvolves(db, r);
  }

  lemma AppendRefs(procs: seq<Process>, steps: seq<Step>, child: Process, added: seq<Step>)
    requires Refs(procs, steps)
    requires child.link.Some? ==> child.link.value.parent < |procs| && child.link.value.step < |steps|
    requires forall k :: 0 <= k < |added| ==> added[k].process == |procs|
    ensures Refs(procs + [child], steps + added)
    ensures forall x :: |steps| <= x < |steps + added| ==> (steps + added)[x].process == |procs|
  {
    forall x | |steps| <= x < |steps + added| ensures (steps + added)[x].process == |procs| {
      assert (steps + added)[x] == added[x - |steps|];
    }
  }

  lemma InstantiateBind(db: Db, t: nat, seed: Seed)
    requires ValidRefs(db) && BindInv(db)
    ensures BindInv(Instantiate(db, t, seed))
  {
    var r := Instantiate(db, t, seed);
    BindingsFollowTheirStep(db, t, seed);
    StepsAreABijection(db, t, seed);
    var ids := BindingsIn(db.catalog, OrderedSteps(db.catalog, t));
    forall j | 0 <= j < |r.bindings| ensures BindingOk(r.procs, r.steps, r.objects, r.bindings[j])
                                    ensures j >= |db.bindings| ==> r.bindings[j].instance.None?
    {
      if j >= |db.bindings| {
        assert BindingPlaced(db, r, r.bindings[|db.bindings| + (j - |db.bindings|)], ids[j - |db.bindings|]);
        var at := r.bindings[j].step;
        assert CopyOf(db.catalog, r.steps[at], OrderedSteps(db.catalog, t)[at - |db.steps|], |db.procs|);
      } else {
        assert r.bindings[j] == r.bindings[..|db.bindings|][j] == db.bindings[j];
        assert BindingOk(db.procs, db.steps, db.objects, db.bindings[j]);
      }
    }
    forall i, j | 0 <= i < |r.bindings| && 0 <= j < |r.bindings| && SharesObject(r.bindings[i], r.bindings[j]) ensures i == j {
      assert SharesObject(db.bindings[i], db.bindings[j]);
    }
  }

  /** The tables grow by a new process; existing steps keep their place. */
  lemma InstantiateSound(db: Db, t: nat, seed: Seed)
    requires Sound(db)
    requires seed.link.Some? ==> seed.link.value.parent < |db.procs| && seed.link.value.step < |db.steps|
    requires seed.link.Some? ==> db.steps[seed.link.value.step].status.Pending?
    ensures var r := Instantiate(db, t, seed);
      Sound(r) && Evolves(db, r)
  {
    InstantiateRefs(db, t, seed);
    InstantiateBind(db, t, seed);
    GrownMirror(db, Instantiate(db, t, seed));
  }

  /** Tasks survive a new process, which may be the first child of a step still pending. */
  lemma GrownMirror(db: Db, r: Db)
    requires TaskInv(db)
    requires |r.procs| == |db.procs| + 1 && r.procs[..|db.procs|] == db.procs
    requires |r.steps| >= |db.steps| && r.steps[..|db.steps|] == db.steps
    requires r.procs[|db.procs|].link.Some? ==>
      r.procs[|db.procs|].link.value.step < |db.steps| && db.steps[r.procs[|db.procs|].link.value.step].status.Pending?
    requires r.tasks == db.tasks && r.columns == db.columns
    ensures TaskInv(r)
  {
    assert forall c :: 0 <= c < |db.procs| ==> r.procs[c] == db.procs[c];
    assert forall x :: 0 <= x < |db.steps| ==> r.steps[x] == db.steps[x];
    forall t | 0 <= t < |r.tasks| ensures TaskOk(r.procs, r.steps, r.columns, r.tasks[t]) {
      var s := r.tasks[t].step;
      assert TaskOk(db.procs, db.steps, db.columns, db.tasks[t]);
      if HasChild(db.procs, s) {
        var c :| 0 <= c < |db.procs| && ChildOf(db.procs[c], s);
        assert ChildOf(r.procs[c], s);
      } else if HasChild(r.procs, s) {
        var c :| 0 <= c < |r.procs| && ChildOf(r.procs[c], s);
        assert c == |db.procs|;
      }
    }
  }
}
