/** How a binding row can become valid. */
module BindingHistory {
  import opened Basics
  import opened Json
  import opened Tables
  import opened StepObjects
  import opened Instantiation
  import opened ProjectHost
  import opened ChildProcess
  import opened Orchestrator
  import opened Protocol
  import opened Preservation
  import opened Evolution
  import opened Runs
  import CompletionRule

  /** Every valid row of `r` was there, as it is, in `db`. */
  ghost predicate NoNewValid(db: Db, r: Db) {
    forall b :: 0 <= b < |r.bindings| && r.bindings[b].status.BindingValid? ==>
      b < |db.bindings| && r.bindings[b] == db.bindings[b]
  }

  lemma {:induction false} ProvisionRowsAddNoValid(db: Db, rows: seq<nat>, tenant: int)
    requires forall i :: i in rows ==> i < |db.bindings|
    ensures NoNewValid(db, ProvisionRows(db, rows, tenant))
    decreases |rows|
  {
    if rows != [] {
      assert rows[0] in rows && forall i :: i in rows[1..] ==> i in rows;
      ProvisionRowsAddNoValid(ProvisionRow(db, rows[0], tenant), rows[1..], tenant);
    }
  }

  lemma ProvisionAddsNoValid(flags: Flags, db: Db, s: nat)
    requires s < |db.steps| && db.steps[s].process < |db.procs|
    ensures NoNewValid(db, Provision(flags, db, s))
  {
    if flags.objectSteps {
      ProvisionRowsAddNoValid(db, Provisionable(db, s), db.procs[db.steps[s].process].tenant);
    }
  }

  lemma InstantiateAddsNoValid(db: Db, t: nat, seed: Seed)
    ensures NoNewValid(db, Instantiate(db, t, seed))
  {
    AppendAddsNoValid(db, Instantiate(db, t, seed), CopyBindings(db.catalog, OrderedSteps(db.catalog, t), |db.steps|));
  }

  lemma AppendAddsNoValid(db: Db, r: Db, added: seq<Binding>)
    requires r.bindings == db.bindings + added
    requires forall k :: 0 <= k < |added| ==> added[k].status.BindingPending?
    ensures NoNewValid(db, r)
  {}

  lemma PromoteAddsNoValid(flags: Flags, db: Db, s: nat)
    requires s < |db.steps| && ValidRefs(db) && Promote(flags, db, s).Ok?
    ensures NoNewValid(db, Promote(flags, db, s).value)
  {
    if Spawns(flags, db.steps[s]) {
      SpawnAddsNoValid(flags, db, s);
    } else {
      ProvisionAddsNoValid(flags, Move(db, s, Ready), s);
    }
  }

  lemma SpawnAddsNoValid(flags: Flags, db: Db, s: nat)
    requires s < |db.steps| && ValidRefs(db) && Spawn(flags, db, s).Ok?
    ensures NoNewValid(db, Spawn(flags, db, s).value)
  {
    if !HasChild(db.procs, s) {
      var tpl := db.catalog.steps[db.steps[s].template];
      InstantiateAddsNoValid(db, tpl.childTemplate.value, ChildSeed(db, s, tpl).value);
    }
  }

  lemma {:induction false} EnableStepsAddNoValid(flags: Flags, db: Db, rows: seq<nat>, now: int)
    requires ValidRefs(db) && RowsIn(rows, |db.steps|) && EnableSteps(flags, db, rows, now).Ok?
    ensures NoNewValid(db, EnableSteps(flags, db, rows, now).value)
    decreases |rows|
  {
    if rows != [] {
      if Eligible(flags, db, rows[0], now) { PromoteAddsNoValid(flags, Evaluated(db, rows[0], now), rows[0]); }
      EnableStepsAddNoValid(flags, EnableStep(flags, db, rows[0], now).value, rows[1..], now);
    }
  }

  lemma ConcludeAddsNoValid(flags: Flags, db: Db, s: nat, now: int)
    requires s < |db.steps| && ValidRefs(db) && Conclude(flags, db, s, now).Ok?
    ensures NoNewValid(db, Conclude(flags, db, s, now).value)
  {
    var rows := NextRows(flags, db, s, now);
    ConcludeTail(flags, db, s, now);
    EnableStepsAddNoValid(flags, db, rows, now);
  }

  lemma HeadAddsNoValid(flags: Flags, db: Db, s: nat, now: int)
    requires s < |db.steps| && ValidRefs(db) && AdvanceHead(flags, db, s, now).Ok?
    ensures NoNewValid(db, AdvanceHead(flags, db, s, now).value)
  {
    ProvisionAddsNoValid(flags, db, s);
    var entered := if db.steps[s].status.Ready? then Provision(flags, db, s) else db;
    if db.steps[s].status.Pending? && Eligible(flags, entered, s, now) {
      PromoteAddsNoValid(flags, Evaluated(entered, s, now), s);
    }
  }

  lemma AdvanceAddsNoValid(flags: Flags, db: Db, s: nat, now: int)
    requires ValidRefs(db)
    ensures NoNewValid(db, Committed(db, AttemptAdvance(flags, db, s, now)))
  {
    if s < |db.steps| && Idle(db.steps[s].status) && AttemptAdvance(flags, db, s, now).Ok? {
      HeadAddsNoValid(flags, db, s, now);
      var head := AdvanceHead(flags, db, s, now).value;
      if head.steps[s].taskType.Automated? && head.steps[s].status.Ready? && AdvanceOpen(flags, db, s, now) {
        ConcludeAddsNoValid(flags, Move(Move(head, s, InProgress), s, Completed), s, now);
      }
    }
  }

  lemma CompleteAddsNoValid(flags: Flags, db: Db, s: nat, now: int)
    requires ValidRefs(db)
    ensures NoNewValid(db, Committed(db, MarkCompleted(flags, db, s, now)))
  {
    if s < |db.steps| && Idle(db.steps[s].status) && MarkCompleted(flags, db, s, now).Ok? {
      if !db.steps[s].status.Pending? && GatesOpen(flags, db, s) {
        ConcludeAddsNoValid(flags, Move(db, s, Completed), s, now);
      }
    }
  }

  lemma HandleAddsNoValid(flags: Flags, db: Db, n: Notice, now: int)
    requires ValidRefs(db)
    ensures NoNewValid(db, Handle(flags, db, n, now))
  {
    if n.ResumeStep? && flags.callProcess && n.step < |db.steps| && ResumeParent(flags, db, n.step, now).Ok? {
      if db.steps[n.step].status.Completed? { ConcludeAddsNoValid(flags, db, n.step, now); }
    }
  }

  lemma StartAddsNoValid(flags: Flags, db: Db, t: nat, tenant: int, subject: string, subjectId: int,
                         policy: FailurePolicy, context: Option<Record>, host: Option<HostData>)
    ensures NoNewValid(db, Committed(db, StartRoot(flags, db, t, tenant, subject, subjectId, policy, context, host)))
  {
    if SubjectNamed(subject).Some? {
      InstantiateAddsNoValid(db, t, Seed(tenant, SubjectNamed(subject).value, subjectId, None, policy, context));
    }
  }

  ghost predicate BecameValid(db: Db, r: Db, b: nat) {
    && b < |r.bindings| && r.bindings[b].status.BindingValid?
    && (b >= |db.bindings| || r.bindings[b] != db.bindings[b])
  }

  ghost predicate PassedItsRule(db: Db, r: Db, b: nat, o: nat) {
    && o < |db.objects| && b < |db.bindings| && b < |r.bindings|
    && r.bindings[b].instance == Some(o)
    && r.bindings[b].snapshot == Some(db.objects[o].payload)
    && CompletionRule.Satisfies(RuleOf(db.catalog, db.bindings[b]), db.objects[o].payload, db.objects[o].status)
  }

  lemma RecheckDecides(flags: Flags, db: Db, o: nat, b: nat)
    ensures BecameValid(db, Validate(flags, db, o), b) ==> PassedItsRule(db, Validate(flags, db, o), b, o)
  {}

  /** A row becomes valid, or takes a new snapshot, only when its object is re-checked and
      satisfies the row's completion rule; the snapshot is the payload that did. */
  lemma ValidOnlyThroughItsRule(flags: Flags, db: Db, a: Action, b: nat)
    requires Good(flags, db)
    ensures BecameValid(db, Exec(flags, db, a), b) ==> a.ValidateObject? && PassedItsRule(db, Exec(flags, db, a), b, a.instance)
  {
    match a
    case StartProcess(t, tenant, subject, subjectId, policy, context, host) =>
      StartAddsNoValid(flags, db, t, tenant, subject, subjectId, policy, context, host);
    case Advance(s, now) => AdvanceAddsNoValid(flags, db, s, now);
    case Complete(s, now) => CompleteAddsNoValid(flags, db, s, now);
    case Deliver(i, now) => if i < |db.notices| { HandleAddsNoValid(flags, db, db.notices[i], now); }
    case ValidateObject(o) => RecheckDecides(flags, db, o, b);
    case RecordMet(_) =>
    case CancelProcess(_) =>
    case ReviewRequirement(_, _) =>
    case AddObject(_) =>
    case EditObject(_, _, _) =>
    case EditCatalog(_) =>
  }
}
