/** The `met` flag of a trigger row is written but never read: recording events changes
    nothing else in any run. */
module Inertness {
  import opened Basics
  import opened Json
  import opened Tables
  import opened StepObjects
  import opened Instantiation
  import opened ProjectHost
  import opened ChildProcess
  import opened Completion
  import opened Orchestrator
  import opened Protocol
  import opened Preservation
  import opened Evolution
  import opened Runs

  ghost predicate SameTriggers(x: seq<Trigger>, y: seq<Trigger>) {
    |x| == |y| && forall i :: 0 <= i < |x| ==> SameTrigger(x[i], y[i])
  }

  /** Tables that agree on everything but `met` flags. */
  ghost predicate SameButMet(a: Db, b: Db) {
    b == a.(trigs := b.trigs) && SameTriggers(a.trigs, b.trigs)
  }

  ghost predicate SameOutcome(x: Outcome<Db>, y: Outcome<Db>) {
    if x.Ok? then y.Ok? && SameButMet(x.value, y.value) else y.Thrown? && y.error == x.error
  }

  lemma {:induction false} SelectSame(n: nat, f: nat -> bool, g: nat -> bool)
    requires forall i: nat :: i < n ==> f(i) == g(i)
    ensures Select(n, f) == Select(n, g)
  {
    if n > 0 { SelectSame(n - 1, f, g); }
  }

  lemma {:induction false} FirstWhereSame(n: nat, f: nat -> bool, g: nat -> bool)
    requires forall i: nat :: i < n ==> f(i) == g(i)
    ensures FirstWhere(n, f) == FirstWhere(n, g)
  {
    if n > 0 { FirstWhereSame(n - 1, f, g); }
  }

  lemma TriggersSame(x: seq<Trigger>, y: seq<Trigger>, s: nat, ctx: TriggerContext)
    requires SameTriggers(x, y)
    ensures TriggersMet(x, s, ctx) == TriggersMet(y, s, ctx)
    ensures SameTriggers(MarkTriggers(x, s, ctx), MarkTriggers(y, s, ctx))
  {
    forall i | 0 <= i < |x|
      ensures x[i].step == y[i].step && x[i].condition == y[i].condition
      ensures SameTrigger(Marked(x[i], s, ctx), Marked(y[i], s, ctx))
    {
      assert SameTrigger(x[i], y[i]);
    }
  }

  lemma {:induction false} ProvisionRowsSame(db: Db, trigs: seq<Trigger>, rows: seq<nat>, tenant: int)
    requires forall i :: i in rows ==> i < |db.bindings|
    ensures ProvisionRows(db.(trigs := trigs), rows, tenant) == ProvisionRows(db, rows, tenant).(trigs := trigs)
    decreases |rows|
  {
    if rows != [] {
      assert rows[0] in rows && forall i :: i in rows[1..] ==> i in rows;
      ProvisionRowsSame(ProvisionRow(db, rows[0], tenant), trigs, rows[1..], tenant);
    }
  }

  lemma ProvisionableSame(db: Db, trigs: seq<Trigger>, s: nat)
    ensures Provisionable(db.(trigs := trigs), s) == Provisionable(db, s)
  {
    var b := db.(trigs := trigs);
    SelectSame(|db.bindings|,
      (i: nat) => i < |db.bindings| && db.bindings[i].step == s && db.bindings[i].status.BindingPending?
        && CreatesOnEnter(db.catalog, db.bindings[i]) && db.bindings[i].configObject < |db.catalog.configObjects|,
      (i: nat) => i < |b.bindings| && b.bindings[i].step == s && b.bindings[i].status.BindingPending?
        && CreatesOnEnter(b.catalog, b.bindings[i]) && b.bindings[i].configObject < |b.catalog.configObjects|);
  }

  lemma ProvisionSame(flags: Flags, db: Db, trigs: seq<Trigger>, s: nat)
    requires s < |db.steps| && db.steps[s].process < |db.procs|
    ensures Provision(flags, db.(trigs := trigs), s) == Provision(flags, db, s).(trigs := trigs)
  {
    ProvisionableSame(db, trigs, s);
    if flags.objectSteps {
      ProvisionRowsSame(db, trigs, Provisionable(db, s), db.procs[db.steps[s].process].tenant);
    }
  }

  lemma InstantiateSame(a: Db, b: Db, t: nat, seed: Seed)
    requires SameButMet(a, b)
    ensures SameButMet(Instantiate(a, t, seed), Instantiate(b, t, seed))
  {
    AppendSame(a.trigs, b.trigs, CopyTriggers(a.catalog, OrderedSteps(a.catalog, t), |a.steps|));
  }

  lemma AppendSame(x: seq<Trigger>, y: seq<Trigger>, added: seq<Trigger>)
    requires SameTriggers(x, y)
    ensures SameTriggers(x + added, y + added)
  {}

  lemma StartSame(flags: Flags, a: Db, b: Db, t: nat, seed: Seed, host: Option<HostData>, skipHost: bool)
    requires SameButMet(a, b)
    ensures SameOutcome(Start(flags, a, t, seed, host, skipHost), Start(flags, b, t, seed, host, skipHost))
  {
    InstantiateSame(a, b, t, seed);
    var p, c := Instantiate(a, t, seed), Instantiate(b, t, seed);
    HostSame(p, c, |a.procs|, host);
  }

  lemma HostSame(a: Db, b: Db, p: nat, host: Option<HostData>)
    requires SameButMet(a, b)
    ensures SameOutcome(ProcessStarted(a, p, host), ProcessStarted(b, p, host))
  {
    if host.Some? && host.value.projectId != 0 && SeedAll(a.columns, host.value).Ok? {
      var columns := SeedAll(a.columns, host.value).value;
      TasksSame(a.(columns := columns), b.(columns := columns), host.value, StepsOf(a.steps, p));
    }
  }

  lemma TasksSame(a: Db, b: Db, host: HostData, rows: seq<nat>)
    requires a.steps == b.steps && a.columns == b.columns
    requires forall k :: 0 <= k < |rows| ==> rows[k] < |a.steps|
    ensures NewTasks(a, host, rows) == NewTasks(b, host, rows)
  {
    var x, y := NewTasks(a, host, rows), NewTasks(b, host, rows);
    assert forall k :: 0 <= k < |rows| ==> x[k] == y[k];
  }

  lemma SpawnSame(flags: Flags, a: Db, b: Db, s: nat)
    requires s < |a.steps| && ValidRefs(a) && SameButMet(a, b)
    ensures SameOutcome(Spawn(flags, a, s), Spawn(flags, b, s))
  {
    if !HasChild(a.procs, s) && a.steps[s].template < |a.catalog.steps|
      && a.catalog.steps[a.steps[s].template].childTemplate.Some?
    {
      var tpl := a.catalog.steps[a.steps[s].template];
      assert ChildSeed(a, s, tpl) == ChildSeed(b, s, tpl);
      if ChildSeed(a, s, tpl).Ok? {
        StartSame(flags, a, b, tpl.childTemplate.value, ChildSeed(a, s, tpl).value, None, true);
      }
    }
  }

  lemma PromoteSame(flags: Flags, a: Db, b: Db, s: nat)
    requires s < |a.steps| && ValidRefs(a) && SameButMet(a, b)
    ensures SameOutcome(Promote(flags, a, s), Promote(flags, b, s))
  {
    if Spawns(flags, a.steps[s]) {
      SpawnSame(flags, a, b, s);
    } else {
      assert Move(b, s, Ready) == Move(a, s, Ready).(trigs := b.trigs);
      ProvisionSame(flags, Move(a, s, Ready), b.trigs, s);
    }
  }

  lemma EvaluatedSame(flags: Flags, a: Db, b: Db, s: nat, now: int)
    requires s < |a.steps| && ValidRefs(a) && SameButMet(a, b)
    ensures SameButMet(Evaluated(a, s, now), Evaluated(b, s, now))
    ensures Eligible(flags, a, s, now) == Eligible(flags, b, s, now)
  {
    assert ContextOf(a, s, now) == ContextOf(b, s, now);
    TriggersSame(a.trigs, b.trigs, s, ContextOf(a, s, now));
  }

  lemma EnableStepSame(flags: Flags, a: Db, b: Db, s: nat, now: int)
    requires s < |a.steps| && ValidRefs(a) && SameButMet(a, b)
    ensures SameOutcome(EnableStep(flags, a, s, now), EnableStep(flags, b, s, now))
  {
    EvaluatedSame(flags, a, b, s, now);
    PromoteSame(flags, Evaluated(a, s, now), Evaluated(b, s, now), s);
  }

  lemma {:induction false} EnableStepsSame(flags: Flags, a: Db, b: Db, rows: seq<nat>, now: int)
    requires ValidRefs(a) && RowsIn(rows, |a.steps|) && SameButMet(a, b)
    ensures SameOutcome(EnableSteps(flags, a, rows, now), EnableSteps(flags, b, rows, now))
    decreases |rows|
  {
    if rows != [] {
      EnableStepSame(flags, a, b, rows[0], now);
      var x, y := EnableStep(flags, a, rows[0], now), EnableStep(flags, b, rows[0], now);
      if x.Ok? { EnableStepsSame(flags, x.value, y.value, rows[1..], now); }
    }
  }

  lemma EnableNextSame(flags: Flags, a: Db, b: Db, s: nat, now: int)
    requires s < |a.steps| && ValidRefs(a) && SameButMet(a, b)
    ensures SameOutcome(EnableNext(flags, a, s, now), EnableNext(flags, b, s, now))
  {
    var rows := NextRowsOfBoth(flags, a, b, s, now);
    EnableStepsSame(flags, a, b, rows, now);
  }

  lemma {:induction false} NextRowsOfBoth(flags: Flags, a: Db, b: Db, s: nat, now: int) returns (rows: seq<nat>)
    requires s < |a.steps| && ValidRefs(a) && b.steps == a.steps && b.procs == a.procs
    ensures RowsIn(rows, |a.steps|)
    ensures EnableNext(flags, a, s, now) == EnableSteps(flags, a, rows, now)
    ensures EnableNext(flags, b, s, now) == EnableSteps(flags, b, rows, now)
  {
    rows := NextRows(flags, a, s, now);
    EnablesRows(flags, b, s, rows, now);
  }

  lemma {:induction false} EnablesRows(flags: Flags, db: Db, s: nat, rows: seq<nat>, now: int)
    requires s < |db.steps| && ValidRefs(db) && RowsIn(rows, |db.steps|)
    requires rows == PendingAt(db.steps, db.steps[s].process, db.steps[s].order + 1)
    ensures EnableNext(flags, db, s, now) == EnableSteps(flags, db, rows, now)
  {}

  lemma CanCompleteSame(flags: Flags, a: Db, b: Db, p: nat)
    requires SameButMet(a, b)
    ensures CanComplete(flags, a, p) == CanComplete(flags, b, p)
  {
    assert forall s: nat :: BindingsValid(flags, a, s) == BindingsValid(flags, b, s);
  }

  lemma MaybeCompleteSame(flags: Flags, a: Db, b: Db, p: nat)
    requires p < |a.procs| && SameButMet(a, b)
    ensures SameButMet(MaybeComplete(flags, a, p).0, MaybeComplete(flags, b, p).0)
    ensures MaybeComplete(flags, a, p).1 == MaybeComplete(flags, b, p).1
  {
    CanCompleteSame(flags, a, b, p);
    CanCompleteSame(flags, FinishChild(a, p), FinishChild(b, p), p);
  }

  lemma ConcludeSame(flags: Flags, a: Db, b: Db, s: nat, now: int)
    requires s < |a.steps| && ValidRefs(a) && SameButMet(a, b)
    ensures SameOutcome(Conclude(flags, a, s, now), Conclude(flags, b, s, now))
  {
    EnableNextSame(flags, a, b, s, now);
    var x, y := EnableNext(flags, a, s, now), EnableNext(flags, b, s, now);
    if x.Ok? { MaybeCompleteSame(flags, x.value, y.value, a.steps[s].process); }
  }

  lemma EnteredSame(flags: Flags, a: Db, b: Db, s: nat)
    requires s < |a.steps| && ValidRefs(a) && SameButMet(a, b)
    ensures SameButMet(Provision(flags, a, s), Provision(flags, b, s))
  {
    ProvisionSame(flags, a, b.trigs, s);
    assert a.(trigs := b.trigs) == b;
  }

  lemma HeadSame(flags: Flags, a: Db, b: Db, s: nat, now: int)
    requires s < |a.steps| && ValidRefs(a) && SameButMet(a, b)
    ensures SameOutcome(AdvanceHead(flags, a, s, now), AdvanceHead(flags, b, s, now))
    ensures AdvanceOpen(flags, a, s, now) == AdvanceOpen(flags, b, s, now)
  {
    EnteredSame(flags, a, b, s);
    var x := if a.steps[s].status.Ready? then Provision(flags, a, s) else a;
    var y := if b.steps[s].status.Ready? then Provision(flags, b, s) else b;
    EvaluatedSame(flags, x, y, s, now);
    PromoteSame(flags, Evaluated(x, s, now), Evaluated(y, s, now), s);
  }

  lemma MoveSame(a: Db, b: Db, s: nat, status: StepStatus)
    requires s < |a.steps| && ValidRefs(a) && SameButMet(a, b)
    ensures SameButMet(Move(a, s, status), Move(b, s, status))
  {}

  lemma AdvanceSame(flags: Flags, a: Db, b: Db, s: nat, now: int)
    requires ValidRefs(a) && SameButMet(a, b)
    ensures SameOutcome(AttemptAdvance(flags, a, s, now), AttemptAdvance(flags, b, s, now))
  {
    if s < |a.steps| && Idle(a.steps[s].status) {
      HeadSame(flags, a, b, s, now);
      var x, y := AdvanceHead(flags, a, s, now), AdvanceHead(flags, b, s, now);
      if x.Ok? { RunSame(flags, x.value, y.value, s, now); }
    }
  }

  lemma RunSame(flags: Flags, a: Db, b: Db, s: nat, now: int)
    requires s < |a.steps| && ValidRefs(a) && SameButMet(a, b)
    ensures var x, y := Move(Move(a, s, InProgress), s, Completed), Move(Move(b, s, InProgress), s, Completed);
      ValidRefs(x) && SameOutcome(Conclude(flags, x, s, now), Conclude(flags, y, s, now))
  {
    MoveSame(a, b, s, InProgress);
    MoveSame(Move(a, s, InProgress), Move(b, s, InProgress), s, Completed);
    ConcludeSame(flags, Move(Move(a, s, InProgress), s, Completed), Move(Move(b, s, InProgress), s, Completed), s, now);
  }

  lemma CompleteSame(flags: Flags, a: Db, b: Db, s: nat, now: int)
    requires ValidRefs(a) && SameButMet(a, b)
    ensures SameOutcome(MarkCompleted(flags, a, s, now), MarkCompleted(flags, b, s, now))
  {
    if s < |a.steps| && GatesOpen(flags, a, s) {
      MoveSame(a, b, s, Completed);
      ConcludeSame(flags, Move(a, s, Completed), Move(b, s, Completed), s, now);
    }
  }

  lemma HandleSame(flags: Flags, a: Db, b: Db, n: Notice, now: int)
    requires ValidRefs(a) && SameButMet(a, b)
    ensures SameButMet(Handle(flags, a, n, now), Handle(flags, b, n, now))
  {
    if n.ResumeStep? && n.step < |a.steps| { ConcludeSame(flags, a, b, n.step, now); }
  }

  lemma ValidateSame(flags: Flags, a: Db, b: Db, o: nat)
    requires SameButMet(a, b)
    ensures SameButMet(Validate(flags, a, o), Validate(flags, b, o))
  {
    FirstWhereSame(|a.bindings|, (i: nat) => i < |a.bindings| && a.bindings[i].instance == Some(o),
                   (i: nat) => i < |b.bindings| && b.bindings[i].instance == Some(o));
    assert LinkedRow(a, o) == LinkedRow(b, o);
  }

  lemma ExecSame(flags: Flags, a: Db, b: Db, act: Action)
    requires ValidRefs(a) && SameButMet(a, b)
    ensures SameButMet(Exec(flags, a, act), Exec(flags, b, act))
  {
    match act
    case StartProcess(t, tenant, subject, subjectId, policy, context, host) =>
      if SubjectNamed(subject).Some? {
        StartSame(flags, a, b, t, Seed(tenant, SubjectNamed(subject).value, subjectId, None, policy, context), host, false);
      }
    case Advance(s, now) => AdvanceSame(flags, a, b, s, now);
    case Complete(s, now) => CompleteSame(flags, a, b, s, now);
    case Deliver(i, now) => if i < |a.notices| { HandleSame(flags, a, b, a.notices[i], now); }
    case ValidateObject(o) => ValidateSame(flags, a, b, o);
    case RecordMet(_) =>
    case CancelProcess(_) =>
    case ReviewRequirement(_, _) =>
    case AddObject(_) =>
    case EditObject(_, _, _) =>
    case EditCatalog(_) =>
  }

  lemma RecordingKeepsRest(flags: Flags, a: Db, b: Db, act: Action)
    requires ValidRefs(b) && SameButMet(a, b) && act.RecordMet?
    ensures SameButMet(a, Exec(flags, b, act))
  {}

  /** The run without its recordings of events. */
  ghost function Unrecorded(actions: seq<Action>): seq<Action> {
    if actions == [] then []
    else
      var init := Unrecorded(actions[..|actions| - 1]);
      if actions[|actions| - 1].RecordMet? then init else init + [actions[|actions| - 1]]
  }

  /** Recording events as met has no effect: dropping all of it from a run leads to tables
      that differ in the flags alone. */
  lemma {:induction false} RecordingIsInert(flags: Flags, db: Db, actions: seq<Action>)
    requires Good(flags, db)
    ensures SameButMet(Run(flags, db, Unrecorded(actions)), Run(flags, db, actions))
    decreases |actions|
  {
    if actions != [] {
      var init := actions[..|actions| - 1];
      var last := actions[|actions| - 1];
      RecordingIsInert(flags, db, init);
      var a, b := Run(flags, db, Unrecorded(init)), Run(flags, db, init);
      if last.RecordMet? {
        RecordingKeepsRest(flags, a, b, last);
      } else {
        ExecSame(flags, a, b, last);
        RunSnoc(flags, db, Unrecorded(init), last);
      }
    }
  }
}
