/** A three-level run, from empty tables, in which the innermost process is canceled: the
    concrete inputs behind the two losses that Stranding describes. */
module Scenario {
  import opened Basics
  import opened Json
  import opened Tables
  import opened StepObjects
  import opened Instantiation
  import opened ProjectHost
  import opened ChildProcess
  import opened Completion
  import opened Orchestrator
  import opened Runs
  import opened Stranding
  import opened Waking

  function Manual(t: nat): TplStep { TplStep(t, 1, TaskType.Manual, false, None, None, OwnWorkflow, None) }

  function Calls(t: nat, child: nat): TplStep { TplStep(t, 2, CallProcess, false, None, Some(child), OwnWorkflow, None) }

  /** Template 0 calls template 1 in its second step, and that calls template 2 in its own. */
  const CALLS := Catalog([Manual(0), Calls(0, 1), Manual(1), Calls(1, 2), Manual(2)], [], [], [], [])

  const FLAGS := Flags(true, false, false, false, true)

  /** Rows of template `t`: two for 0 and 1, one for 2. */
  lemma RowsOf(t: nat)
    requires t < 3
    ensures OrderedSteps(CALLS, t) == if t == 0 then [0, 1] else if t == 1 then [2, 3] else [4]
  {
    RowsByTemplate(CALLS, t);
  }

  lemma RowsByTemplate(catalog: Catalog, t: nat)
    requires |catalog.steps| == 5 && t < 3
    requires catalog.steps[0].template == catalog.steps[1].template == 0
    requires catalog.steps[2].template == catalog.steps[3].template == 1 && catalog.steps[4].template == 2
    requires catalog.steps[0].order <= catalog.steps[1].order && catalog.steps[2].order <= catalog.steps[3].order
    ensures OrderedSteps(catalog, t) == if t == 0 then [0, 1] else if t == 1 then [2, 3] else [4]
  {
    var f := (i: nat) => i < |catalog.steps| && catalog.steps[i].template == t;
    var ids := Select(|catalog.steps|, f);
    if t < 2 { OnlyTwoMembers(ids, 2 * t, 2 * t + 1); } else { OnlyMember(ids, 4); }
    SortBySorted(ids, StepOrder(catalog));
  }

  lemma OnlyTwoMembers(rows: seq<nat>, a: nat, b: nat)
    requires Increasing(rows) && a < b && forall i: nat :: i in rows <==> i == a || i == b
    ensures rows == [a, b]
  {
    assert a in rows && b in rows;
    if |rows| > 2 { ThreeMembers(rows); }
    assert |rows| == 2;
    assert rows[0] in rows && rows[1] in rows;
  }

  lemma ThreeMembers(rows: seq<nat>)
    requires Increasing(rows) && |rows| > 2
    ensures exists x, y, z :: x in rows && y in rows && z in rows && x < y < z
  {
    assert rows[0] in rows && rows[1] in rows && rows[2] in rows;
    assert rows[0] < rows[1] < rows[2];
  }

  lemma OnlyMember(rows: seq<nat>, x: nat)
    requires Increasing(rows) && forall i: nat :: i in rows <==> i == x
    ensures rows == [x]
  {
    assert x in rows;
    if |rows| > 1 { TwoMembers(rows); }
  }

  lemma TwoMembers(rows: seq<nat>)
    requires Increasing(rows) && |rows| > 1
    ensures exists a, b :: a in rows && b in rows && a != b
  {
    assert rows[0] in rows && rows[1] in rows && rows[0] < rows[1];
  }

  lemma SortBySorted(s: seq<nat>, key: nat -> int)
    requires 1 <= |s| <= 2 && (|s| == 2 ==> key(s[0]) <= key(s[1]))
    ensures SortBy(s, key) == s
  {
    assert SortBy(s[|s| - 1..], key) == s[|s| - 1..];
  }

  lemma NothingElse(rows: seq<nat>)
    ensures RequirementsIn(CALLS, rows) == [] && TriggersIn(CALLS, rows) == [] && BindingsIn(CALLS, rows) == []
  {}

  /** Tables in which nothing but processes, steps and notices matters. */
  ghost predicate Plain(db: Db) {
    db.catalog == CALLS && db.reqs == [] && db.trigs == [] && db.bindings == [] && db.tasks == [] && db.columns == map[]
  }

  ghost predicate IsStep(s: Step, p: nat, row: nat, status: StepStatus) {
    row < 5 && s.process == p && s.template == row && s.taskType == CALLS.steps[row].taskType
    && s.order == CALLS.steps[row].order && s.status == status
  }

  ghost predicate IsProcess(p: Process, link: Option<Link>, status: ProcessStatus, policy: FailurePolicy) {
    p.link == link && p.status == status && p.policy == policy && p.subjectType.Workflow?
  }

  lemma Instantiated(db: Db, t: nat, seed: Seed)
    requires Plain(db) && t < 3
    ensures Extended(db, Instantiate(db, t, seed), t, seed)
  {
    AddedSteps(t, |db.procs|);
    NothingElse(OrderedSteps(CALLS, t));
    var r, added := Instantiate(db, t, seed), NewSteps(CALLS, OrderedSteps(CALLS, t), |db.procs|);
    assert r.steps == db.steps + added;
    assert Plain(r) && r.procs == db.procs + [NewProcess(seed, t, |db.procs|)];
    Appended(db, r, t, seed, added);
  }

  lemma Appended(db: Db, r: Db, t: nat, seed: Seed, added: seq<Step>)
    requires Plain(r) && r.notices == db.notices && r.hooks == db.hooks && t < 3
    requires r.procs == db.procs + [NewProcess(seed, t, |db.procs|)] && r.steps == db.steps + added
    requires |added| == (if t == 2 then 1 else 2) && IsStep(added[0], |db.procs|, 2 * t, Ready)
    requires t < 2 ==> IsStep(added[1], |db.procs|, 2 * t + 1, Pending)
    ensures Extended(db, r, t, seed)
  {}

  lemma AddedSteps(t: nat, p: nat)
    requires t < 3
    ensures var added := NewSteps(CALLS, OrderedSteps(CALLS, t), p);
      && |added| == (if t == 2 then 1 else 2)
      && IsStep(added[0], p, 2 * t, Ready)
      && (t < 2 ==> IsStep(added[1], p, 2 * t + 1, Pending))
  {
    RowsOf(t);
    var rows := OrderedSteps(CALLS, t);
    var added := NewSteps(CALLS, rows, p);
    AddedStep(CALLS, rows, added, p, 0, 2 * t, Ready);
    if t < 2 { AddedStep(CALLS, rows, added, p, 1, 2 * t + 1, Pending); }
  }

  lemma AddedStep(catalog: Catalog, rows: seq<nat>, added: seq<Step>, p: nat, k: nat, row: nat, status: StepStatus)
    requires catalog == CALLS && row < 5 && k < |rows| == |added| && rows[k] == row
    requires added[k] == NewStep(catalog, row, p)
    requires status == if row % 2 == 0 then Ready else Pending
    ensures IsStep(added[k], p, row, status)
  {
    assert catalog.steps[row] == if row % 2 == 0 then Manual(row / 2) else Calls(row / 2, row / 2 + 1);
  }

  /** What instantiating template `t` adds. */
  ghost predicate Extended(db: Db, r: Db, t: nat, seed: Seed) {
    && Plain(r) && r.notices == db.notices && r.hooks == db.hooks
    && r.procs == db.procs + [NewProcess(seed, t, |db.procs|)]
    && |r.steps| == |db.steps| + (if t == 2 then 1 else 2)
    && (forall x :: 0 <= x < |db.steps| ==> r.steps[x] == db.steps[x])
    && IsStep(r.steps[|db.steps|], |db.procs|, 2 * t, Ready)
    && (t < 2 ==> IsStep(r.steps[|db.steps| + 1], |db.procs|, 2 * t + 1, Pending))
  }

  // ----- completing a first step and calling a child -----

  /** The last process has its first step in `status` and its calling step pending. */
  ghost predicate AboutToCall(db: Db, t: nat, s: nat, status: StepStatus, policy: FailurePolicy) {
    && Plain(db) && ValidRefs(db) && t < 2
    && |db.steps| == s + 2 && |db.procs| > 0
    && IsStep(db.steps[s], |db.procs| - 1, 2 * t, status)
    && IsStep(db.steps[s + 1], |db.procs| - 1, 2 * t + 1, Pending)
    && (forall x :: 0 <= x < s ==> db.steps[x].process < |db.procs| - 1)
    && db.procs[|db.procs| - 1].status.Active? && db.procs[|db.procs| - 1].subjectType.Workflow?
    && db.procs[|db.procs| - 1].policy == policy
    && !HasChild(db.procs, s + 1)
  }

  /** The calling step is blocked on a child of its own, with fresh steps. */
  ghost predicate Called(db: Db, r: Db, t: nat, s: nat, policy: FailurePolicy)
    requires |db.steps| == s + 2 && |db.procs| > 0 && t < 2
  {
    var p := |db.procs| - 1;
    && Plain(r) && r.notices == db.notices && r.hooks == db.hooks
    && |r.procs| == |db.procs| + 1 && r.procs[..|db.procs|] == db.procs
    && IsProcess(r.procs[p + 1], Some(Link(p, s + 1)), Active, policy)
    && |r.steps| == s + 2 + (if t == 1 then 1 else 2)
    && (forall x :: 0 <= x <= s ==> r.steps[x] == db.steps[x])
    && IsStep(r.steps[s + 1], p, 2 * t + 1, Blocked)
    && IsStep(r.steps[s + 2], p + 1, 2 * t + 2, Ready)
    && (t == 0 ==> IsStep(r.steps[s + 3], p + 1, 2 * t + 3, Pending))
  }

  function SeedFor(db: Db, s: nat): Seed
    requires |db.procs| > 0
  {
    var p := |db.procs| - 1;
    Seed(db.procs[p].tenant, Workflow, 0, Some(Link(p, s + 1)), db.procs[p].policy, Some(ChildContext(db.procs[p], p, None)))
  }

  lemma SpawnIsInstantiateAndBlock(db: Db, t: nat, s: nat, status: StepStatus, policy: FailurePolicy)
    requires AboutToCall(db, t, s, status, policy)
    ensures var created := Instantiate(db, t + 1, SeedFor(db, s));
      && s + 1 < |created.steps|
      && Spawn(FLAGS, db, s + 1) == Ok(created.(steps := Block(created.steps, s + 1)))
  {
    CallSeed(db, t, s, status, policy);
    WorkflowStarts(db, t + 1, SeedFor(db, s));
    SpawnUnfolds(FLAGS, db, s + 1, t + 1, SeedFor(db, s));
  }

  lemma CallSeed(db: Db, t: nat, s: nat, status: StepStatus, policy: FailurePolicy)
    requires AboutToCall(db, t, s, status, policy)
    ensures db.steps[s + 1].template < |db.catalog.steps|
    ensures db.catalog.steps[db.steps[s + 1].template].childTemplate == Some(t + 1)
    ensures ChildSeed(db, s + 1, db.catalog.steps[db.steps[s + 1].template]) == Ok(SeedFor(db, s))
  {
    assert db.catalog.steps[2 * t + 1] == Calls(t, t + 1);
  }

  lemma SpawnUnfolds(flags: Flags, db: Db, s: nat, child: nat, seed: Seed)
    requires s < |db.steps| && ValidRefs(db) && !HasChild(db.procs, s)
    requires db.steps[s].template < |db.catalog.steps|
    requires db.catalog.steps[db.steps[s].template].childTemplate == Some(child)
    requires ChildSeed(db, s, db.catalog.steps[db.steps[s].template]) == Ok(seed)
    requires Start(flags, db, child, seed, None, true) == Ok(Instantiate(db, child, seed))
    ensures s < |Instantiate(db, child, seed).steps|
    ensures Spawn(flags, db, s) == Ok(Instantiate(db, child, seed).(steps := Block(Instantiate(db, child, seed).steps, s)))
  {}

  lemma WorkflowStarts(db: Db, t: nat, seed: Seed)
    requires seed.subjectType.Workflow?
    ensures Start(FLAGS, db, t, seed, None, true) == Ok(Instantiate(db, t, seed))
  {}

  lemma SpawnCalls(db: Db, t: nat, s: nat, status: StepStatus, policy: FailurePolicy)
    requires AboutToCall(db, t, s, status, policy)
    ensures Spawn(FLAGS, db, s + 1).Ok? && Called(db, Spawn(FLAGS, db, s + 1).value, t, s, policy)
  {
    SpawnIsInstantiateAndBlock(db, t, s, status, policy);
    Instantiated(db, t + 1, SeedFor(db, s));
    BlockIsCall(db, Instantiate(db, t + 1, SeedFor(db, s)), t, s, status, policy);
  }

  lemma BlockIsCall(db: Db, created: Db, t: nat, s: nat, status: StepStatus, policy: FailurePolicy)
    requires AboutToCall(db, t, s, status, policy) && Extended(db, created, t + 1, SeedFor(db, s))
    ensures Called(db, created.(steps := Block(created.steps, s + 1)), t, s, policy)
  {}

  lemma EnableCalls(db: Db, t: nat, s: nat, policy: FailurePolicy, now: int)
    requires AboutToCall(db, t, s, Completed, policy)
    ensures var r := EnableNext(FLAGS, db, s, now);
      r.Ok? && Called(db, r.value, t, s, policy)
  {
    CallIsNext(db, t, s, policy);
    CallIsEnabled(db, t, s, policy, now);
    SpawnCalls(db, t, s, Completed, policy);
    OneRow(db, s + 1, now);
  }

  lemma CallIsNext(db: Db, t: nat, s: nat, policy: FailurePolicy)
    requires AboutToCall(db, t, s, Completed, policy)
    ensures PendingAt(db.steps, db.steps[s].process, db.steps[s].order + 1) == [s + 1]
  {
    var rows := PendingAt(db.steps, db.steps[s].process, db.steps[s].order + 1);
    forall i: nat ensures i in rows <==> i == s + 1 {}
    OnlyMember(rows, s + 1);
  }

  lemma CallIsEnabled(db: Db, t: nat, s: nat, policy: FailurePolicy, now: int)
    requires AboutToCall(db, t, s, Completed, policy)
    ensures EnableStep(FLAGS, db, s + 1, now) == Spawn(FLAGS, db, s + 1)
  {
    assert Eligible(FLAGS, db, s + 1, now);
    assert Evaluated(db, s + 1, now) == db;
  }

  lemma OneRow(db: Db, row: nat, now: int)
    requires ValidRefs(db) && row < |db.steps| && EnableStep(FLAGS, db, row, now).Ok?
    ensures EnableSteps(FLAGS, db, [row], now) == EnableStep(FLAGS, db, row, now)
  {
    var next := EnableStep(FLAGS, db, row, now).value;
    assert [row][1..] == [];
    assert EnableSteps(FLAGS, next, [], now) == Ok(next);
  }

  lemma CompletesAndCalls(db: Db, t: nat, s: nat, policy: FailurePolicy, now: int)
    requires AboutToCall(db, t, s, Ready, policy)
    ensures var r := MarkCompleted(FLAGS, db, s, now);
      && r.Ok? && Called(Move(db, s, Completed), r.value, t, s, policy)
  {
    var done := Move(db, s, Completed);
    assert AboutToCall(done, t, s, Completed, policy);
    EnableCalls(done, t, s, policy, now);
    ConcludesOpen(done, s, EnableNext(FLAGS, done, s, now).value, now);
    assert MarkCompleted(FLAGS, db, s, now) == Conclude(FLAGS, done, s, now);
  }

  lemma ConcludesOpen(db: Db, s: nat, enabled: Db, now: int)
    requires ValidRefs(db) && s < |db.steps| && EnableNext(FLAGS, db, s, now) == Ok(enabled)
    requires db.steps[s].process < |enabled.procs| && s + 1 < |enabled.steps|
    requires enabled.steps[s + 1].process == db.steps[s].process && enabled.steps[s + 1].status.Blocked?
    ensures Conclude(FLAGS, db, s, now) == Ok(enabled)
  {
    StillOpen(enabled, db.steps[s].process, s + 1);
  }

  lemma StillOpen(db: Db, p: nat, s: nat)
    requires p < |db.procs| && s < |db.steps| && db.steps[s].process == p && db.steps[s].status.Blocked?
    ensures MaybeComplete(FLAGS, db, p) == (db, false)
  {
    assert !AllDone(db.steps, p) && !AllTerminal(db.steps, p);
  }

  // ----- the run -----

  function FirstActions(policy: FailurePolicy): seq<Action> {
    [EditCatalog(CALLS), StartProcess(0, 1, "workflow", 0, policy, None, None)]
  }

  /** Complete the first step of process 0, then of process 1; cancel process 2; report it. */
  function AllActions(policy: FailurePolicy): seq<Action> {
    FirstActions(policy) + [Complete(0, 1)] + [Complete(2, 2)] + [CancelProcess(2)] + [Deliver(0, 3)]
  }

  function Edited(catalog: Catalog): Db { Empty().(catalog := catalog) }

  lemma EditedFirst(flags: Flags, catalog: Catalog)
    ensures Reached(flags, [EditCatalog(catalog)]) == Edited(catalog)
  {
    EmptyIsGood(flags);
    var none: seq<Action> := [];
    RunSnoc(flags, Empty(), none, EditCatalog(catalog));
    assert none + [EditCatalog(catalog)] == [EditCatalog(catalog)];
  }

  function RootSeed(policy: FailurePolicy): Seed { Seed(1, Workflow, 0, None, policy, None) }

  lemma RootIsInstantiated(policy: FailurePolicy)
    ensures Reached(FLAGS, FirstActions(policy)) == Instantiate(Edited(CALLS), 0, RootSeed(policy))
  {
    EmptyIsGood(FLAGS);
    EditedFirst(FLAGS, CALLS);
    RootStarts(Edited(CALLS), policy);
    StartedNext(Edited(CALLS), policy);
  }

  lemma StartedNext(db: Db, policy: FailurePolicy)
    requires Good(FLAGS, Empty()) && Reached(FLAGS, [EditCatalog(CALLS)]) == db && ValidRefs(db)
    requires StartRoot(FLAGS, db, 0, 1, "workflow", 0, policy, None, None) == Ok(Instantiate(db, 0, RootSeed(policy)))
    ensures Reached(FLAGS, FirstActions(policy)) == Instantiate(db, 0, RootSeed(policy))
  {
    var start := StartProcess(0, 1, "workflow", 0, policy, None, None);
    RunSnoc(FLAGS, Empty(), [EditCatalog(CALLS)], start);
    assert [EditCatalog(CALLS)] + [start] == FirstActions(policy);
  }

  lemma Started(policy: FailurePolicy)
    ensures var db := Reached(FLAGS, FirstActions(policy));
      AboutToCall(db, 0, 0, Ready, policy) && db.notices == [] && |db.procs| == 1 && db.procs[0].link.None?
  {
    RootIsInstantiated(policy);
    Instantiated(Edited(CALLS), 0, RootSeed(policy));
    FirstIsAboutToCall(Edited(CALLS), Reached(FLAGS, FirstActions(policy)), RootSeed(policy));
  }

  lemma RootStarts(db: Db, policy: FailurePolicy)
    ensures StartRoot(FLAGS, db, 0, 1, "workflow", 0, policy, None, None)
         == Ok(Instantiate(db, 0, Seed(1, Workflow, 0, None, policy, None)))
  {
    assert |"workflow"| == 8 && |"project"| == 7 && |"scheduled_task"| == 14;
    assert |"config_custom_object_instance"| == 29;
    assert SubjectNamed("workflow") == Some(Workflow);
  }

  lemma FirstIsAboutToCall(db: Db, r: Db, seed: Seed)
    requires Extended(db, r, 0, seed) && db.procs == [] && db.steps == [] && seed.link.None? && seed.subjectType.Workflow?
    ensures AboutToCall(r, 0, 0, Ready, seed.policy)
  {}

  /** Three processes in a chain, the innermost with its only step ready. */
  ghost predicate Chain(db: Db, policy: FailurePolicy) {
    && Plain(db) && db.notices == []
    && |db.procs| == 3 && db.procs[0].link.None?
    && IsProcess(db.procs[1], Some(Link(0, 1)), Active, policy)
    && IsProcess(db.procs[2], Some(Link(1, 3)), Active, policy)
    && |db.steps| == 5
    && IsStep(db.steps[0], 0, 0, Completed) && IsStep(db.steps[1], 0, 1, Blocked)
    && IsStep(db.steps[2], 1, 2, Completed) && IsStep(db.steps[3], 1, 3, Blocked)
    && IsStep(db.steps[4], 2, 4, Ready)
  }

  lemma Chained(policy: FailurePolicy)
    ensures Chain(Reached(FLAGS, FirstActions(policy) + [Complete(0, 1)] + [Complete(2, 2)]), policy)
  {
    Started(policy);
    EmptyIsGood(FLAGS);
    var db := Reached(FLAGS, FirstActions(policy));
    RunSnoc(FLAGS, Empty(), FirstActions(policy), Complete(0, 1));
    RunSnoc(FLAGS, Empty(), FirstActions(policy) + [Complete(0, 1)], Complete(2, 2));
    BothComplete(db, policy);
  }

  lemma BothComplete(db: Db, policy: FailurePolicy)
    requires AboutToCall(db, 0, 0, Ready, policy) && db.notices == [] && |db.procs| == 1 && db.procs[0].link.None?
    ensures var next := Exec(FLAGS, db, Complete(0, 1));
      ValidRefs(next) && Chain(Exec(FLAGS, next, Complete(2, 2)), policy)
  {
    var next, done := Exec(FLAGS, db, Complete(0, 1)), Move(db, 0, Completed);
    FirstCompletes(db, policy);
    CompletesAndCalls(next, 1, 2, policy, 2);
    BothCalled(done, next, Exec(FLAGS, next, Complete(2, 2)), policy);
  }

  lemma FirstCompletes(db: Db, policy: FailurePolicy)
    requires AboutToCall(db, 0, 0, Ready, policy) && |db.procs| == 1 && db.procs[0].link.None?
    ensures var next, done := Exec(FLAGS, db, Complete(0, 1)), Move(db, 0, Completed);
      AboutToCall(done, 0, 0, Completed, policy) && Called(done, next, 0, 0, policy) && AboutToCall(next, 1, 2, Ready, policy)
  {
    CompletesAndCalls(db, 0, 0, policy, 1);
    ChildIsAboutToCall(Move(db, 0, Completed), Exec(FLAGS, db, Complete(0, 1)), policy);
  }

  lemma ChildIsAboutToCall(db: Db, r: Db, policy: FailurePolicy)
    requires AboutToCall(db, 0, 0, Completed, policy) && |db.procs| == 1 && Called(db, r, 0, 0, policy) && ValidRefs(r)
    requires db.procs[0].link.None?
    ensures AboutToCall(r, 1, 2, Ready, policy)
  {}

  lemma BothCalled(first: Db, second: Db, r: Db, policy: FailurePolicy)
    requires AboutToCall(first, 0, 0, Completed, policy) && |first.procs| == 1 && first.procs[0].link.None? && first.notices == []
    requires Called(first, second, 0, 0, policy) && AboutToCall(second, 1, 2, Ready, policy)
    requires Called(Move(second, 2, Completed), r, 1, 2, policy)
    ensures Chain(r, policy)
  {}

  lemma CanceledAndReported(db: Db, policy: FailurePolicy)
    requires Chain(db, policy) && ValidRefs(db)
    ensures var canceled := Exec(FLAGS, db, CancelProcess(2));
      && ValidRefs(canceled)
      && (policy.Ignore? ==> Stranded(Exec(FLAGS, canceled, Deliver(0, 3)), 1))
      && (policy.FailParent? ==> Silenced(Exec(FLAGS, canceled, Deliver(0, 3)), 1, 1))
  {
    var canceled := Exec(FLAGS, db, CancelProcess(2));
    assert canceled.notices == [ChildAborted(2)];
    var r := Exec(FLAGS, canceled, Deliver(0, 3));
    assert r.notices == [];
    if policy.Ignore? {
      assert r.steps[2].process == 1;
    }
  }

  /** The run happens: ignoring the cancellation of process 2 leaves process 1 active with all
      its steps completed, and failing process 1 leaves process 0 blocked on it; either way
      nobody is left to report it. */
  lemma CancellationLosesParents(policy: FailurePolicy)
    ensures policy.Ignore? ==>
      Stranded(Reached(FLAGS, AllActions(policy)), 1) && !Rescuable(FLAGS, Reached(FLAGS, AllActions(policy)), 1)
    ensures policy.FailParent? ==> Silenced(Reached(FLAGS, AllActions(policy)), 1, 1)
  {
    Chained(policy);
    EmptyIsGood(FLAGS);
    var before := FirstActions(policy) + [Complete(0, 1)] + [Complete(2, 2)];
    CanceledAndReported(Reached(FLAGS, before), policy);
    RunSnoc(FLAGS, Empty(), before, CancelProcess(2));
    RunSnoc(FLAGS, Empty(), before + [CancelProcess(2)], Deliver(0, 3));
    if policy.Ignore? { LostIffStranded(FLAGS, Reached(FLAGS, AllActions(policy)), 1); }
  }
}
