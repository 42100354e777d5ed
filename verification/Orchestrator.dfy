/** The orchestrator's transactions as functions on the tables. A thrown error means the
    transaction rolled back. */
module Orchestrator {
  import opened Basics
  import opened Json
  import opened Tables
  import opened StepObjects
  import opened Instantiation
  import opened ProjectHost
  import opened ChildProcess
  import opened Completion

  function SetState(steps: seq<Step>, s: nat, status: StepStatus): seq<Step>
    requires s < |steps|
  {
    steps[s := steps[s].(status := status)]
  }

  /** setState followed by dispatchStepStateChanged with the same state. */
  function Move(db: Db, s: nat, status: StepStatus): (r: Db)
    requires s < |db.steps| && ValidRefs(db)
    ensures r == db.(steps := SetState(db.steps, s, status), tasks := r.tasks)
    ensures ValidRefs(r)
  {
    Dispatch(db.(steps := SetState(db.steps, s, status)), s, status)
  }

  function Evaluated(db: Db, s: nat, now: int): Db
    requires s < |db.steps| && ValidRefs(db)
  {
    db.(trigs := MarkTriggers(db.trigs, s, ContextOf(db, s, now)))
  }

  predicate Eligible(flags: Flags, db: Db, s: nat, now: int)
    requires s < |db.steps| && ValidRefs(db)
  {
    GatesOpen(flags, db, s) && TriggersMet(db.trigs, s, ContextOf(db, s, now))
  }

  predicate Spawns(flags: Flags, step: Step) {
    flags.callProcess && step.taskType.CallProcess?
  }

  /** No row disappears, and the messages are untouched. */
  predicate Kept(db: Db, r: Db) {
    && ValidRefs(r)
    && |r.steps| >= |db.steps| && |r.procs| >= |db.procs|
    && r.notices == db.notices && r.hooks == db.hooks
  }

  lemma SpawnKeepsRefs(flags: Flags, db: Db, s: nat)
    requires s < |db.steps| && ValidRefs(db)
    ensures var r := Spawn(flags, db, s);
      r.Ok? ==> Kept(db, r.value)
  {}

  /** What becomes of an eligible pending step. */
  function Promote(flags: Flags, db: Db, s: nat): (r: Outcome<Db>)
    requires s < |db.steps| && ValidRefs(db)
    ensures r.Ok? ==> Kept(db, r.value)
  {
    if Spawns(flags, db.steps[s]) then
      SpawnKeepsRefs(flags, db, s);
      Spawn(flags, db, s)
    else Ok(Provision(flags, Move(db, s, Ready), s))
  }

  /** One row of enableNextSteps. */
  function EnableStep(flags: Flags, db: Db, s: nat, now: int): (r: Outcome<Db>)
    requires s < |db.steps| && ValidRefs(db)
    ensures r.Ok? ==> Kept(db, r.value)
  {
    if Eligible(flags, db, s, now) then Promote(flags, Evaluated(db, s, now), s)
    else Ok(Evaluated(db, s, now))
  }

  /** Pending steps of process `p` at step_order `order`. */
  function PendingAt(steps: seq<Step>, p: nat, order: int): (rows: seq<nat>)
    ensures forall s: nat :: s in rows <==>
      s < |steps| && steps[s].process == p && steps[s].order == order && steps[s].status.Pending?
    ensures Increasing(rows)
  {
    Select(|steps|, (s: nat) => s < |steps| && steps[s].process == p && steps[s].order == order && steps[s].status.Pending?)
  }

  predicate RowsIn(rows: seq<nat>, n: nat) {
    forall k :: 0 <= k < |rows| ==> rows[k] < n
  }

  function EnableSteps(flags: Flags, db: Db, rows: seq<nat>, now: int): (r: Outcome<Db>)
    requires ValidRefs(db) && RowsIn(rows, |db.steps|)
    ensures r.Ok? ==> Kept(db, r.value)
    decreases |rows|
  {
    if rows == [] then Ok(db)
    else
      var next :- EnableStep(flags, db, rows[0], now);
      EnableSteps(flags, next, rows[1..], now)
  }

  function EnableNext(flags: Flags, db: Db, s: nat, now: int): (r: Outcome<Db>)
    requires s < |db.steps| && ValidRefs(db)
    ensures r.Ok? ==> Kept(db, r.value)
  {
    var rows := PendingAt(db.steps, db.steps[s].process, db.steps[s].order + 1);
    assert forall k :: 0 <= k < |rows| ==> rows[k] in rows;
    EnableSteps(flags, db, rows, now)
  }

  /** UPDATE ... SET status = 'completed' WHERE status = 'active'. */
  function FinishIfActive(db: Db, p: nat): Db
    requires p < |db.procs|
  {
    if db.procs[p].status.Active? then SetProcess(db, p, Finished) else db
  }

  function FinishChild(db: Db, p: nat): Db
    requires p < |db.procs|
  {
    if db.procs[p].link.Some? && AllDone(db.steps, p) then FinishIfActive(db, p) else db
  }

  /** maybeCompleteJob: the new tables, and whether the terminal child id is returned. */
  function MaybeComplete(flags: Flags, db: Db, p: nat): (r: (Db, bool))
    requires p < |db.procs|
    ensures r.0.notices == db.notices
  {
    var allDone := AllDone(db.steps, p);
    var db1 := if allDone then FinishChild(db, p) else db;
    if allDone && db1.procs[p].link.Some? && db1.procs[p].status.Finished? then (db1, true)
    else if !CanComplete(flags, db1, p) || !AllDone(db1.steps, p) then (db1, false)
    else
      var db2 := if allDone then FinishIfActive(db1, p) else db1;
      (db2.(hooks := db2.hooks + [p]), false)
  }

  /** The shared tail of the three orchestrator transactions: unlock the next steps, try to
      complete the process, commit, and leave the terminal child id to be handled. */
  function Conclude(flags: Flags, db: Db, s: nat, now: int): (r: Outcome<Db>)
    requires s < |db.steps| && ValidRefs(db)
    ensures r.Ok? ==> db.notices <= r.value.notices
  {
    var p := db.steps[s].process;
    var enabled :- EnableNext(flags, db, s, now);
    var (done, terminal) := MaybeComplete(flags, enabled, p);
    Ok(if terminal then done.(notices := done.notices + [ChildFinished(p)]) else done)
  }

  /** Past the unlocking of next steps, only process rows, hooks and messages change. */
  lemma ConcludeTail(flags: Flags, db: Db, s: nat, now: int)
    requires s < |db.steps| && ValidRefs(db) && Conclude(flags, db, s, now).Ok?
    ensures EnableNext(flags, db, s, now).Ok?
    ensures var r := Conclude(flags, db, s, now).value;
      r == EnableNext(flags, db, s, now).value.(procs := r.procs, hooks := r.hooks, notices := r.notices)
  {
    MaybeCompleteTail(flags, EnableNext(flags, db, s, now).value, db.steps[s].process);
  }

  lemma MaybeCompleteTail(flags: Flags, db: Db, p: nat)
    requires p < |db.procs|
    ensures var r := MaybeComplete(flags, db, p).0; r == db.(procs := r.procs, hooks := r.hooks)
  {}

  /** The state in which the automated tail of attemptAdvance decides; `open` is the gate
      and trigger value computed before the promotion. */
  function AdvanceHead(flags: Flags, db: Db, s: nat, now: int): (r: Outcome<Db>)
    requires s < |db.steps| && ValidRefs(db)
    ensures r.Ok? ==> Kept(db, r.value)
  {
    var entered := if db.steps[s].status.Ready? then Provision(flags, db, s) else db;
    var checked := Evaluated(entered, s, now);
    if db.steps[s].status.Pending? && Eligible(flags, entered, s, now) then Promote(flags, checked, s)
    else Ok(checked)
  }

  predicate AdvanceOpen(flags: Flags, db: Db, s: nat, now: int)
    requires s < |db.steps| && ValidRefs(db)
  {
    Eligible(flags, if db.steps[s].status.Ready? then Provision(flags, db, s) else db, s, now)
  }

  function AttemptAdvance(flags: Flags, db: Db, s: nat, now: int): Outcome<Db>
    requires ValidRefs(db)
  {
    if s >= |db.steps| then Ok(db)
    else if db.steps[s].status.Completed? || db.steps[s].status.Canceled? || db.steps[s].status.Blocked? then Ok(db)
    else
      var head :- AdvanceHead(flags, db, s, now);
      if head.steps[s].taskType.Automated? && head.steps[s].status.Ready? && AdvanceOpen(flags, db, s, now)
      then Conclude(flags, Move(Move(head, s, InProgress), s, Completed), s, now)
      else Ok(head)
  }

  function MarkCompleted(flags: Flags, db: Db, s: nat, now: int): Outcome<Db>
    requires ValidRefs(db)
  {
    if s >= |db.steps| || !(db.steps[s].status.Ready? || db.steps[s].status.InProgress?) then Ok(db)
    else if !GatesOpen(flags, db, s) then Ok(db)
    else Conclude(flags, Move(db, s, Completed), s, now)
  }

  function ResumeParent(flags: Flags, db: Db, s: nat, now: int): (r: Outcome<Db>)
    requires ValidRefs(db)
    ensures r.Ok? ==> db.notices <= r.value.notices
  {
    if s >= |db.steps| || !db.steps[s].status.Completed? then Ok(db)
    else Conclude(flags, db, s, now)
  }

  /** A thrown error leaves the committed tables as they were. */
  function Committed(db: Db, outcome: Outcome<Db>): Db {
    if outcome.Ok? then outcome.value else db
  }
}
