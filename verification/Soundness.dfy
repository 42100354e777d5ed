/** Every transaction moves statuses only upwards and keeps the binding and kanban
    invariants. */
module Soundness {
  import opened Basics
  import opened Json
  import opened Tables
  import opened StepObjects
  import opened Instantiation
  import opened ProjectHost
  import opened ChildProcess
  import opened Completion
  import opened Orchestrator
  import opened Protocol
  import opened Preservation
  import opened Evolution

  /** What a transaction body achieves. */
  ghost predicate Grows(db: Db, r: Db) {
    Sound(r) && Evolves(db, r)
  }

  lemma GrowsTrans(a: Db, b: Db, c: Db)
    requires Grows(a, b) && Grows(b, c)
    ensures Grows(a, c)
  {
    EvolvesTrans(a, b, c);
  }

  /** A call step changes status: its task does not move. */
  lemma CallStepGrows(db: Db, s: nat, status: StepStatus, reason: BlockedReason)
    requires Sound(db) && s < |db.steps| && HasChild(db.procs, s)
    requires StatusLeq(db.steps[s].status, status)
    ensures Grows(db, db.(steps := db.steps[s := db.steps[s].(status := status, reason := reason)]))
  {
    var r := db.(steps := db.steps[s := db.steps[s].(status := status, reason := reason)]);
    BindFrame(db, r);
    forall t | 0 <= t < |r.tasks| ensures TaskOk(r.procs, r.steps, r.columns, r.tasks[t]) {
      assert TaskOk(db.procs, db.steps, db.columns, db.tasks[t]);
    }
  }

  lemma ProcessGrows(db: Db, p: nat, proc: Process)
    requires Sound(db) && p < |db.procs| && ProcessEvolves(db.procs[p], proc)
    ensures Grows(db, db.(procs := db.procs[p := proc]))
  {
    var r := db.(procs := db.procs[p := proc]);
    BindFrame(db, r);
    forall s ensures HasChild(r.procs, s) <==> HasChild(db.procs, s) {
      if HasChild(db.procs, s) {
        var c :| 0 <= c < |db.procs| && ChildOf(db.procs[c], s);
        assert ChildOf(r.procs[c], s);
      }
      if HasChild(r.procs, s) {
        var c :| 0 <= c < |r.procs| && ChildOf(r.procs[c], s);
        assert ChildOf(db.procs[c], s);
      }
    }
    forall t | 0 <= t < |r.tasks| ensures TaskOk(r.procs, r.steps, r.columns, r.tasks[t]) {
      assert TaskOk(db.procs, db.steps, db.columns, db.tasks[t]);
    }
  }

  lemma NoticesGrow(db: Db, notices: seq<Notice>)
    requires Sound(db)
    ensures Grows(db, db.(notices := notices))
  {}

  lemma SpawnGrows(flags: Flags, db: Db, skip: int, s: nat)
    requires DbInv(db, skip) && Sound(db)
    requires s < |db.steps| && db.steps[s].status.Pending? && Spawns(flags, db.steps[s])
    ensures Spawn(flags, db, s).Ok? ==> Grows(db, Spawn(flags, db, s).value)
  {
    SpawnInv(flags, db, skip, s);
    if Spawn(flags, db, s).Ok? {
      var tpl := db.catalog.steps[db.steps[s].template];
      var seed := ChildSeed(db, s, tpl).value;
      var started := Instantiate(db, tpl.childTemplate.value, seed);
      InstantiateRefs(db, tpl.childTemplate.value, seed);
      InstantiateSound(db, tpl.childTemplate.value, seed);
      assert ChildOf(started.procs[|db.procs|], s);
      CallStepGrows(started, s, Blocked, WaitingChild);
      GrowsTrans(db, started, Spawn(flags, db, s).value);
    }
  }

  lemma PromoteGrows(flags: Flags, db: Db, skip: int, s: nat)
    requires DbInv(db, skip) && Sound(db)
    requires s < |db.steps| && db.steps[s].status.Pending?
    requires Promote(flags, db, s).Ok?
    ensures Grows(db, Promote(flags, db, s).value)
  {
    if Spawns(flags, db.steps[s]) {
      SpawnGrows(flags, db, skip, s);
    } else {
      IdleHasNoChild(db.procs, db.steps, db.notices, skip, s);
      MoveSound(db, s, Ready);
      var moved := Move(db, s, Ready);
      ProvisionSound(flags, moved, s);
      GrowsTrans(db, moved, Provision(flags, moved, s));
    }
  }

  lemma EnableStepGrows(flags: Flags, db: Db, skip: int, s: nat, now: int)
    requires DbInv(db, skip) && Sound(db)
    requires s < |db.steps| && db.steps[s].status.Pending?
    requires EnableStep(flags, db, s, now).Ok?
    ensures Grows(db, EnableStep(flags, db, s, now).value)
  {
    EvaluatedSound(db, s, now);
    var evaluated := Evaluated(db, s, now);
    if Eligible(flags, db, s, now) {
      PromoteGrows(flags, evaluated, skip, s);
      GrowsTrans(db, evaluated, Promote(flags, evaluated, s).value);
    }
  }

  lemma {:induction false} EnableStepsGrows(flags: Flags, db: Db, skip: int, rows: seq<nat>, now: int)
    requires DbInv(db, skip) && Sound(db) && AllPending(db.steps, rows)
    requires EnableSteps(flags, db, rows, now).Ok?
    ensures Grows(db, EnableSteps(flags, db, rows, now).value)
    decreases |rows|
  {
    if rows != [] {
      EnableStepGrows(flags, db, skip, rows[0], now);
      EnableStepInv(flags, db, skip, rows[0], now);
      var next := EnableStep(flags, db, rows[0], now).value;
      RestStaysPending(flags, db, next, rows);
      EnableStepsGrows(flags, next, skip, rows[1..], now);
      GrowsTrans(db, next, EnableSteps(flags, next, rows[1..], now).value);
    }
  }

  lemma EnableNextGrows(flags: Flags, db: Db, skip: int, s: nat, now: int)
    requires DbInv(db, skip) && Sound(db)
    requires s < |db.steps| && EnableNext(flags, db, s, now).Ok?
    ensures Grows(db, EnableNext(flags, db, s, now).value)
  {
    var rows := NextRows(flags, db, s, now);
    EnableStepsGrows(flags, db, skip, rows, now);
  }

  lemma MaybeCompleteGrows(flags: Flags, db: Db, p: nat, notices: seq<Notice>)
    requires Sound(db) && p < |db.procs|
    ensures var (r, terminal) := MaybeComplete(flags, db, p);
      Grows(db, r) && Grows(db, r.(notices := notices))
  {
    if db.procs[p].status.Active? {
      ProcessGrows(db, p, db.procs[p].(status := Finished));
    }
  }

  lemma ConcludeGrows(flags: Flags, db: Db, s: nat, now: int)
    requires s < |db.steps| && DbInv(db, db.steps[s].process) && Sound(db)
    requires Conclude(flags, db, s, now).Ok?
    ensures Grows(db, Conclude(flags, db, s, now).value)
  {
    var p := db.steps[s].process;
    EnableNextGrows(flags, db, p, s, now);
    var enabled := EnableNext(flags, db, s, now).value;
    var (done, terminal) := MaybeComplete(flags, enabled, p);
    MaybeCompleteGrows(flags, enabled, p, done.notices + [ChildFinished(p)]);
    GrowsTrans(db, enabled, Conclude(flags, db, s, now).value);
  }

  lemma AdvanceHeadGrows(flags: Flags, db: Db, skip: int, s: nat, now: int)
    requires DbInv(db, skip) && Sound(db)
    requires s < |db.steps| && Idle(db.steps[s].status)
    requires AdvanceHead(flags, db, s, now).Ok?
    ensures Grows(db, AdvanceHead(flags, db, s, now).value)
  {
    var entered := if db.steps[s].status.Ready? then Provision(flags, db, s) else db;
    if db.steps[s].status.Ready? { ProvisionSound(flags, db, s); } else { NoticesGrow(db, db.notices); }
    EvaluatedSound(entered, s, now);
    var checked := Evaluated(entered, s, now);
    GrowsTrans(db, entered, checked);
    if db.steps[s].status.Pending? && Eligible(flags, entered, s, now) {
      PromoteGrows(flags, checked, skip, s);
      GrowsTrans(db, checked, Promote(flags, checked, s).value);
    }
  }

  lemma AttemptAdvanceGrows(flags: Flags, db: Db, s: nat, now: int)
    requires DbInv(db, -1) && Sound(db)
    ensures Grows(db, Committed(db, AttemptAdvance(flags, db, s, now)))
  {
    NoticesGrow(db, db.notices);
    if s < |db.steps| && Idle(db.steps[s].status) && AttemptAdvance(flags, db, s, now).Ok? {
      AdvanceHeadInv(flags, db, -1, s, now);
      AdvanceHeadGrows(flags, db, -1, s, now);
      var head := AdvanceHead(flags, db, s, now).value;
      if head.steps[s].taskType.Automated? && head.steps[s].status.Ready? && AdvanceOpen(flags, db, s, now) {
        RunAutomatedGrows(flags, head, s, now);
        GrowsTrans(db, head, AttemptAdvance(flags, db, s, now).value);
      }
    }
  }

  /** The automated tail: in progress, completed, concluded, in one commit. */
  lemma RunAutomatedGrows(flags: Flags, head: Db, s: nat, now: int)
    requires DbInv(head, -1) && Sound(head)
    requires s < |head.steps| && head.steps[s].status.Ready?
    requires Conclude(flags, Move(Move(head, s, InProgress), s, Completed), s, now).Ok?
    ensures Grows(head, Conclude(flags, Move(Move(head, s, InProgress), s, Completed), s, now).value)
  {
    IdleHasNoChild(head.procs, head.steps, head.notices, -1, s);
    MoveKeepsInv(head.procs, head.steps, head.notices, -1, s, InProgress);
    MoveSound(head, s, InProgress);
    var started := Move(head, s, InProgress);
    MoveKeepsInv(started.procs, started.steps, started.notices, -1, s, Completed);
    MoveSound(started, s, Completed);
    var done := Move(started, s, Completed);
    GrowsTrans(head, started, done);
    ConcludeGrows(flags, done, s, now);
    GrowsTrans(head, done, Conclude(flags, done, s, now).value);
  }

  lemma MarkCompletedGrows(flags: Flags, db: Db, s: nat, now: int)
    requires DbInv(db, -1) && Sound(db)
    ensures Grows(db, Committed(db, MarkCompleted(flags, db, s, now)))
  {
    NoticesGrow(db, db.notices);
    if s < |db.steps| && (db.steps[s].status.Ready? || db.steps[s].status.InProgress?) {
      IdleHasNoChild(db.procs, db.steps, db.notices, -1, s);
      MoveKeepsInv(db.procs, db.steps, db.notices, -1, s, Completed);
      MoveSound(db, s, Completed);
      var done := Move(db, s, Completed);
      if Conclude(flags, done, s, now).Ok? {
        ConcludeGrows(flags, done, s, now);
        GrowsTrans(db, done, Conclude(flags, done, s, now).value);
      }
    }
  }

  lemma ResumeParentGrows(flags: Flags, db: Db, s: nat, now: int)
    requires DbInv(db, -1) && Sound(db)
    ensures Grows(db, Committed(db, ResumeParent(flags, db, s, now)))
  {
    NoticesGrow(db, db.notices);
    if s < |db.steps| && db.steps[s].status.Completed? && ResumeParent(flags, db, s, now).Ok? {
      ConcludeGrows(flags, db, s, now);
    }
  }

  // ----- starting -----

  lemma EveryStateSeeded(columns: map<(int, StepStatus), nat>, host: HostData, st: StepStatus)
    requires SeedColumns(columns, host, ENGINE_STATES).Ok?
    ensures (host.projectId, st) in SeedColumns(columns, host, ENGINE_STATES).value
  {
    var i := match st case Pending => 0 case Ready => 1 case InProgress => 2
             case Completed => 3 case Blocked => 4 case Canceled => 5;
    assert ENGINE_STATES[i] == st;
  }

  /** Every new task starts in the column of its step's status. */
  lemma NewTaskOk(seeded: Db, host: HostData, p: nat, s: nat)
    requires s < |seeded.steps| && seeded.steps[s].process == p < |seeded.procs|
    requires seeded.procs[p].subjectType.Project? && !HasChild(seeded.procs, s)
    requires forall st: StepStatus :: (host.projectId, st) in seeded.columns
    ensures TaskOk(seeded.procs, seeded.steps, seeded.columns, NewTask(seeded, host, s))
  {}

  lemma ProcessStartedGrows(db: Db, p: nat, host: Option<HostData>)
    requires Sound(db) && p < |db.procs| && db.procs[p].subjectType.Project?
    requires forall t :: 0 <= t < |db.tasks| ==> db.tasks[t].step < |db.steps| && db.steps[db.tasks[t].step].process != p
    requires forall s :: 0 <= s < |db.steps| && db.steps[s].process == p ==> !HasChild(db.procs, s)
    ensures ProcessStarted(db, p, host).Ok? ==> Grows(db, ProcessStarted(db, p, host).value)
  {
    if ProcessStarted(db, p, host).Ok? { SeededGrows(db, p, host); }
  }

  lemma SeededGrows(db: Db, p: nat, host: Option<HostData>)
    requires Sound(db) && p < |db.procs| && db.procs[p].subjectType.Project?
    requires forall t :: 0 <= t < |db.tasks| ==> db.tasks[t].step < |db.steps| && db.steps[db.tasks[t].step].process != p
    requires forall s :: 0 <= s < |db.steps| && db.steps[s].process == p ==> !HasChild(db.procs, s)
    requires host.Some? && host.value.projectId != 0 && SeedAll(db.columns, host.value).Ok?
    ensures Grows(db, ProcessStarted(db, p, host).value)
  {
    var columns := SeedColumns(db.columns, host.value, ENGINE_STATES).value;
    var seeded := db.(columns := columns);
    forall st ensures (host.value.projectId, st) in columns { EveryStateSeeded(db.columns, host.value, st); }
    var rows := StepsOf(db.steps, p);
    StepsOfDistinct(db.steps, p);
    var added := NewTasks(seeded, host.value, rows);
    forall k | 0 <= k < |rows|
      ensures added[k].step == rows[k] && db.steps[rows[k]].process == p && TaskOk(db.procs, db.steps, columns, added[k])
    {
      assert rows[k] in rows;
      NewTaskOk(seeded, host.value, p, rows[k]);
    }
    AppendMirror(db, columns, rows, added, p);
    TasksOnlyGrow(db, columns, added);
  }

  lemma TasksOnlyGrow(db: Db, columns: map<(int, StepStatus), nat>, added: seq<Task>)
    ensures Evolves(db, db.(columns := columns, tasks := db.tasks + added))
  {}

  lemma AppendMirror(db: Db, columns: map<(int, StepStatus), nat>, rows: seq<nat>, added: seq<Task>, p: nat)
    requires TaskInv(db)
    requires forall k :: k in db.columns ==> k in columns && columns[k] == db.columns[k]
    requires |added| == |rows| && Distinct(rows)
    requires forall t :: 0 <= t < |db.tasks| ==> db.tasks[t].step < |db.steps| && db.steps[db.tasks[t].step].process != p
    requires forall k :: 0 <= k < |rows| ==> rows[k] < |db.steps| && added[k].step == rows[k] && db.steps[rows[k]].process == p
    requires forall k :: 0 <= k < |rows| ==> TaskOk(db.procs, db.steps, columns, added[k])
    ensures Mirror(db.procs, db.steps, db.tasks + added, columns)
  {
    var tasks := db.tasks + added;
    forall t | 0 <= t < |tasks| ensures TaskOk(db.procs, db.steps, columns, tasks[t]) {
      if t < |db.tasks| { assert TaskOk(db.procs, db.steps, db.columns, db.tasks[t]); }
    }
    assert forall t :: |db.tasks| <= t < |tasks| ==> tasks[t] == added[t - |db.tasks|];
  }

  lemma StartRootGrows(flags: Flags, db: Db, t: nat, tenant: int, subject: string, subjectId: int,
                       policy: FailurePolicy, context: Option<Record>, host: Option<HostData>)
    requires Sound(db)
    ensures Grows(db, Committed(db, StartRoot(flags, db, t, tenant, subject, subjectId, policy, context, host)))
  {
    NoticesGrow(db, db.notices);
    var outcome := StartRoot(flags, db, t, tenant, subject, subjectId, policy, context, host);
    if outcome.Ok? {
      var seed := Seed(tenant, SubjectNamed(subject).value, subjectId, None, policy, context);
      var created := Instantiate(db, t, seed);
      InstantiateSound(db, t, seed);
      if seed.subjectType.Project? {
        InstantiateRefs(db, t, seed);
        NewcomerUnused(db, created);
        ProcessStartedGrows(created, |db.procs|, host);
        GrowsTrans(db, created, outcome.value);
      }
    }
  }

  /** Nobody refers to the steps of a process that just appeared. */
  lemma NewcomerUnused(db: Db, r: Db)
    requires Sound(db)
    requires |r.procs| == |db.procs| + 1 && db.procs <= r.procs && r.procs[|db.procs|].link.None?
    requires db.steps <= r.steps && r.tasks == db.tasks
    requires forall x :: |db.steps| <= x < |r.steps| ==> r.steps[x].process == |db.procs|
    ensures forall t :: 0 <= t < |r.tasks| ==> r.tasks[t].step < |r.steps| && r.steps[r.tasks[t].step].process != |db.procs|
    ensures forall s :: 0 <= s < |r.steps| && r.steps[s].process == |db.procs| ==> !HasChild(r.procs, s)
  {
    forall t | 0 <= t < |r.tasks| ensures r.tasks[t].step < |r.steps| && r.steps[r.tasks[t].step].process != |db.procs| {
      assert TaskOk(db.procs, db.steps, db.columns, db.tasks[t]);
    }
    forall s | 0 <= s < |r.steps| && r.steps[s].process == |db.procs| ensures !HasChild(r.procs, s) {
      forall c | 0 <= c < |r.procs| ensures !ChildOf(r.procs[c], s) {
        assert c < |db.procs| ==> r.procs[c] == db.procs[c];
      }
    }
  }

  // ----- terminal children -----

  lemma HandleTerminalGrows(flags: Flags, db: Db, c: nat, aborted: bool, now: int)
    requires DbInv(db, -1) && Sound(db)
    requires c < |db.procs| && (if aborted then db.procs[c].status.Aborted? else db.procs[c].status.Finished?)
    ensures Grows(db, HandleTerminal(flags, db, c, aborted, now))
  {
    NoticesGrow(db, db.notices);
    if flags.callProcess && db.procs[c].link.Some? {
      var link := db.procs[c].link.value;
      var policy := db.procs[link.parent].policy;
      assert LinkOk(db.procs, db.steps, c) && CallStepOk(db.procs, db.steps, db.notices, c);
      assert ChildOf(db.procs[c], link.step);
      var merged := MergeIntoParent(db, link.parent, db.procs[c].context, now);
      ProcessGrows(db, link.parent, merged.procs[link.parent]);
      assert ChildOf(merged.procs[c], link.step);
      if aborted && policy.PauseParent? {
      } else if aborted && policy.FailParent? {
        FailParentKeepsInv(db.procs, db.steps, db.notices, c);
        ProcessGrows(merged, link.parent, merged.procs[link.parent].(status := Aborted));
        var failed := SetProcess(merged, link.parent, Aborted);
        assert ChildOf(failed.procs[c], link.step);
        CallStepGrows(failed, link.step, Canceled, ChildFailed);
        GrowsTrans(db, merged, failed);
        GrowsTrans(db, failed, HandleTerminal(flags, db, c, aborted, now));
      } else {
        CallStepGrows(merged, link.step, Completed, NoReason);
        var completed := merged.(steps := CompleteCallStep(db.steps, link.step));
        var r := HandleTerminal(flags, db, c, aborted, now);
        NoticesGrow(completed, r.notices);
        GrowsTrans(merged, completed, r);
        GrowsTrans(db, merged, r);
      }
    }
  }
}
