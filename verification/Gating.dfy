/** When steps may complete, and which steps can never start. */
module Gating {
  import opened Basics
  import opened Json
  import opened Tables
  import opened StepObjects
  import opened Instantiation
  import opened ProjectHost
  import opened ChildProcess
  import opened Completion
  import opened Orchestrator
  import opened Protocol
  import opened Preservation
  import opened Evolution
  import opened Soundness
  import opened Runs

  // ----- the gate value still holds when the step completes -----

  lemma GatesSurviveInstantiate(flags: Flags, db: Db, t: nat, seed: Seed, s: nat)
    requires s < |db.steps| && GatesOpen(flags, db, s)
    ensures GatesOpen(flags, Instantiate(db, t, seed), s)
  {
    var r := Instantiate(db, t, seed);
    RequirementsFollowTheirStep(db, t, seed);
    BindingsFollowTheirStep(db, t, seed);
    var rows := OrderedSteps(db.catalog, t);
    forall i | |db.reqs| <= i < |r.reqs| ensures r.reqs[i].step >= |db.steps| {
      assert RequirementPlaced(db, r, r.reqs[|db.reqs| + (i - |db.reqs|)], RequirementsIn(db.catalog, rows)[i - |db.reqs|]);
    }
    forall i | |db.bindings| <= i < |r.bindings| ensures r.bindings[i].step >= |db.steps| {
      assert BindingPlaced(db, r, r.bindings[|db.bindings| + (i - |db.bindings|)], BindingsIn(db.catalog, rows)[i - |db.bindings|]);
    }
  }

  lemma GatesSurvivePromote(flags: Flags, db: Db, t: nat, s: nat)
    requires t < |db.steps| && s < |db.steps| && ValidRefs(db)
    requires GatesOpen(flags, db, s) && Promote(flags, db, t).Ok?
    ensures GatesOpen(flags, Promote(flags, db, t).value, s)
  {
    if Spawns(flags, db.steps[t]) {
      if !HasChild(db.procs, t) {
        var tpl := db.catalog.steps[db.steps[t].template];
        GatesSurviveInstantiate(flags, db, tpl.childTemplate.value, ChildSeed(db, t, tpl).value, s);
      }
    } else {
      GatesSurviveProvision(flags, Move(db, t, Ready), s, t);
    }
  }

  lemma {:induction false} GatesSurviveEnableSteps(flags: Flags, db: Db, rows: seq<nat>, now: int, s: nat)
    requires ValidRefs(db) && RowsIn(rows, |db.steps|) && s < |db.steps|
    requires GatesOpen(flags, db, s) && EnableSteps(flags, db, rows, now).Ok?
    ensures GatesOpen(flags, EnableSteps(flags, db, rows, now).value, s)
    decreases |rows|
  {
    if rows != [] {
      var evaluated := Evaluated(db, rows[0], now);
      assert GatesOpen(flags, evaluated, s);
      if Eligible(flags, db, rows[0], now) { GatesSurvivePromote(flags, evaluated, rows[0], s); }
      GatesSurviveEnableSteps(flags, EnableStep(flags, db, rows[0], now).value, rows[1..], now, s);
    }
  }

  lemma SameGates(flags: Flags, db: Db, r: Db, s: nat)
    requires r.reqs == db.reqs && r.bindings == db.bindings && r.catalog == db.catalog
    requires GatesOpen(flags, db, s)
    ensures GatesOpen(flags, r, s)
  {}

  lemma GatesSurviveEnableNext(flags: Flags, db: Db, t: nat, now: int, s: nat)
    requires ValidRefs(db) && t < |db.steps| && s < |db.steps|
    requires GatesOpen(flags, db, s) && EnableNext(flags, db, t, now).Ok?
    ensures GatesOpen(flags, EnableNext(flags, db, t, now).value, s)
  {
    var rows := PendingAt(db.steps, db.steps[t].process, db.steps[t].order + 1);
    assert forall k :: 0 <= k < |rows| ==> rows[k] in rows;
    GatesSurviveEnableSteps(flags, db, rows, now, s);
  }

  lemma GatesSurviveConclude(flags: Flags, db: Db, t: nat, now: int, s: nat)
    requires ValidRefs(db) && t < |db.steps| && s < |db.steps|
    requires GatesOpen(flags, db, s) && Conclude(flags, db, t, now).Ok?
    ensures GatesOpen(flags, Conclude(flags, db, t, now).value, s)
  {
    ConcludeTail(flags, db, t, now);
    GatesSurviveEnableNext(flags, db, t, now, s);
    SameGates(flags, EnableNext(flags, db, t, now).value, Conclude(flags, db, t, now).value, s);
  }

  /** The gate computed at the top of attemptAdvance holds where the step is completed. */
  lemma HeadKeepsGates(flags: Flags, db: Db, s: nat, now: int)
    requires s < |db.steps| && ValidRefs(db)
    requires AdvanceOpen(flags, db, s, now) && AdvanceHead(flags, db, s, now).Ok?
    ensures GatesOpen(flags, AdvanceHead(flags, db, s, now).value, s)
  {
    var entered := if db.steps[s].status.Ready? then Provision(flags, db, s) else db;
    var checked := Evaluated(entered, s, now);
    assert GatesOpen(flags, checked, s);
    if db.steps[s].status.Pending? { GatesSurvivePromote(flags, checked, s, s); }
  }

  /** The last part of a transaction completes nobody. */
  lemma ConcludeCompletesNone(flags: Flags, db: Db, t: nat, now: int, s: nat)
    requires t < |db.steps| && s < |db.steps| && DbInv(db, db.steps[t].process)
    requires Conclude(flags, db, t, now).Ok?
    ensures s < |Conclude(flags, db, t, now).value.steps|
    ensures Conclude(flags, db, t, now).value.steps[s].status.Completed? ==> db.steps[s].status.Completed?
  {
    EnableNextInv(flags, db, db.steps[t].process, t, now);
    ConcludeTail(flags, db, t, now);
    assert Opened(db.steps[s], EnableNext(flags, db, t, now).value.steps[s]);
  }

  /** The automated tail completes its own step only, with the gates it was given. */
  lemma TailCompletesGated(flags: Flags, head: Db, t: nat, now: int, s: nat)
    requires DbInv(head, -1) && t < |head.steps| && s < |head.steps|
    requires head.steps[t].status.Ready? && !head.steps[s].status.Completed?
    requires GatesOpen(flags, head, t)
    requires Conclude(flags, Move(Move(head, t, InProgress), t, Completed), t, now).Ok?
    ensures var r := Conclude(flags, Move(Move(head, t, InProgress), t, Completed), t, now).value;
      && s < |r.steps|
      && (r.steps[s].status.Completed? ==> s == t)
      && GatesOpen(flags, r, t)
  {
    MoveKeepsInv(head.procs, head.steps, head.notices, -1, t, InProgress);
    var started := Move(head, t, InProgress);
    MoveKeepsInv(started.procs, started.steps, started.notices, -1, t, Completed);
    var done := Move(started, t, Completed);
    ConcludeCompletesNone(flags, done, t, now, s);
    SameGates(flags, head, done, t);
    GatesSurviveConclude(flags, done, t, now, t);
  }

  lemma AdvanceCompletesGated(flags: Flags, db: Db, t: nat, now: int, s: nat)
    requires Good(flags, db) && s < |db.steps| && !db.steps[s].status.Completed?
    requires var r := Committed(db, AttemptAdvance(flags, db, t, now)); s < |r.steps| && r.steps[s].status.Completed?
    ensures t == s && db.steps[s].taskType.Automated?
    ensures GatesOpen(flags, Committed(db, AttemptAdvance(flags, db, t, now)), s)
  {
    CompletedByRunning(flags, db, t, now, s);
    HeadKeepsGates(flags, db, t, now);
    AdvanceHeadInv(flags, db, -1, t, now);
    TailCompletesGated(flags, AdvanceHead(flags, db, t, now).value, t, now, s);
  }

  /** An advance completes something only where it runs an automated step. */
  lemma CompletedByRunning(flags: Flags, db: Db, t: nat, now: int, s: nat)
    requires Good(flags, db) && s < |db.steps| && !db.steps[s].status.Completed?
    requires var r := Committed(db, AttemptAdvance(flags, db, t, now)); s < |r.steps| && r.steps[s].status.Completed?
    ensures t < |db.steps| && AdvanceHead(flags, db, t, now).Ok? && AdvanceOpen(flags, db, t, now)
    ensures var head := AdvanceHead(flags, db, t, now).value;
      && t < |head.steps| && head.steps[t].status.Ready? && db.steps[t].taskType.Automated?
      && ValidRefs(head) && s < |head.steps| && !head.steps[s].status.Completed?
      && AttemptAdvance(flags, db, t, now) == Conclude(flags, Move(Move(head, t, InProgress), t, Completed), t, now)
  {
    AdvanceHeadInv(flags, db, -1, t, now);
    var head := AdvanceHead(flags, db, t, now).value;
    assert Opened(db.steps[s], head.steps[s]) && Opened(db.steps[t], head.steps[t]);
  }

  lemma CompleteCompletesGated(flags: Flags, db: Db, t: nat, now: int, s: nat)
    requires Good(flags, db) && s < |db.steps| && !db.steps[s].status.Completed?
    requires var r := Committed(db, MarkCompleted(flags, db, t, now)); s < |r.steps| && r.steps[s].status.Completed?
    ensures t == s && GatesOpen(flags, Committed(db, MarkCompleted(flags, db, t, now)), s)
  {
    MoveKeepsInv(db.procs, db.steps, db.notices, -1, t, Completed);
    var done := Move(db, t, Completed);
    ConcludeCompletesNone(flags, done, t, now, s);
    assert GatesOpen(flags, done, t);
    GatesSurviveConclude(flags, done, t, now, t);
  }

  /** A step without child completes only through its own advance (automated) or its own
      completion, and in the committed state its mandatory requirements are approved and its
      mandatory bindings valid. */
  lemma GatesHoldAtCompletion(flags: Flags, db: Db, a: Action, s: nat)
    requires Good(flags, db) && s < |db.steps| && !db.steps[s].status.Completed? && !HasChild(db.procs, s)
    requires s < |Exec(flags, db, a).steps| && Exec(flags, db, a).steps[s].status.Completed?
    ensures (a.Advance? && a.step == s && db.steps[s].taskType.Automated?) || (a.Complete? && a.step == s)
    ensures GatesOpen(flags, Exec(flags, db, a), s)
  {
    match a
    case Advance(t, now) => AdvanceCompletesGated(flags, db, t, now, s);
    case Complete(t, now) => CompleteCompletesGated(flags, db, t, now, s);
    case Deliver(i, now) => DeliveryCompletesCallSteps(flags, db, i, now, s);
    case StartProcess(_, _, _, _, _, _, _) =>
    case ValidateObject(_) =>
    case CancelProcess(_) =>
    case RecordMet(_) =>
    case ReviewRequirement(_, _) =>
    case AddObject(_) =>
    case EditObject(_, _, _) =>
    case EditCatalog(_) =>
  }

  lemma DeliveryCompletesCallSteps(flags: Flags, db: Db, i: nat, now: int, s: nat)
    requires Good(flags, db) && s < |db.steps| && !db.steps[s].status.Completed? && !HasChild(db.procs, s)
    ensures var r := Exec(flags, db, Deliver(i, now)); s < |r.steps| && !r.steps[s].status.Completed?
  {
    if i < |db.notices| {
      var n := db.notices[i];
      assert NoticeOk(db.procs, db.steps, n);
      match n
      case ResumeStep(t) => ResumptionCompletesNone(flags, db, t, now, s);
      case ChildFinished(c) => EndingCompletesOwnCallStep(flags, db, c, false, now, s);
      case ChildAborted(c) => EndingCompletesOwnCallStep(flags, db, c, true, now, s);
    }
  }

  lemma ResumptionCompletesNone(flags: Flags, db: Db, t: nat, now: int, s: nat)
    requires DbInv(db, -1) && t < |db.steps| && s < |db.steps| && !db.steps[s].status.Completed?
    ensures var r := Committed(db, ResumeParent(flags, db, t, now)); s < |r.steps| && !r.steps[s].status.Completed?
  {
    if db.steps[t].status.Completed? && ResumeParent(flags, db, t, now).Ok? {
      ConcludeCompletesNone(flags, db, t, now, s);
    }
  }

  lemma EndingCompletesOwnCallStep(flags: Flags, db: Db, c: nat, aborted: bool, now: int, s: nat)
    requires ValidRefs(db) && c < |db.procs| && s < |db.steps| && !db.steps[s].status.Completed? && !HasChild(db.procs, s)
    ensures var r := HandleTerminal(flags, db, c, aborted, now); s < |r.steps| && !r.steps[s].status.Completed?
  {
    assert !ChildOf(db.procs[c], s);
  }

  // ----- steps that can never start -----

  /** Event, time and unknown conditions are never met. */
  ghost predicate DeadTrigger(db: Db, s: nat) {
    exists i :: 0 <= i < |db.trigs| && db.trigs[i].step == s && !db.trigs[i].condition.JsonLogic?
  }

  /** A mandatory object that provisioning has not created yet. */
  ghost predicate AwaitsObject(flags: Flags, db: Db, s: nat) {
    flags.objectSteps &&
    exists b :: 0 <= b < |db.bindings| && Waits(db.catalog, db.bindings[b], s)
  }

  ghost predicate Waits(catalog: Catalog, row: Binding, s: nat) {
    row.step == s && Mandatory(catalog, row) && row.status.BindingPending?
  }

  ghost predicate Sealed(flags: Flags, db: Db, s: nat) {
    s < |db.steps| && db.steps[s].status.Pending? && (DeadTrigger(db, s) || AwaitsObject(flags, db, s))
  }

  lemma SealedIsIneligible(flags: Flags, db: Db, s: nat, now: int)
    requires ValidRefs(db) && Sealed(flags, db, s)
    ensures !Eligible(flags, db, s, now)
  {
    if DeadTrigger(db, s) {
      var i :| 0 <= i < |db.trigs| && db.trigs[i].step == s && !db.trigs[i].condition.JsonLogic?;
      assert !Holds(db.trigs[i].condition, ContextOf(db, s, now));
    } else {
      var b :| 0 <= b < |db.bindings| && Waits(db.catalog, db.bindings[b], s);
      assert !Settled(db.bindings[b]);
    }
  }

  /** Later tables that kept the step pending and its triggers and pending bindings in place. */
  ghost predicate Untouched(db: Db, r: Db, s: nat) {
    && s < |db.steps| && s < |r.steps| && r.steps[s] == db.steps[s]
    && r.catalog == db.catalog
    && |r.trigs| >= |db.trigs| && (forall i :: 0 <= i < |db.trigs| ==> SameTrigger(db.trigs[i], r.trigs[i]))
    && |r.bindings| >= |db.bindings|
    && (forall b :: 0 <= b < |db.bindings| ==> SamePending(db.bindings[b], r.bindings[b], s))
  }

  ghost predicate SamePending(a: Binding, b: Binding, s: nat) {
    a.step == s && a.status.BindingPending? ==> b == a
  }

  lemma UntouchedStaysSealed(flags: Flags, db: Db, r: Db, s: nat)
    requires Sealed(flags, db, s) && Untouched(db, r, s)
    ensures Sealed(flags, r, s)
  {
    if DeadTrigger(db, s) {
      var i :| 0 <= i < |db.trigs| && db.trigs[i].step == s && !db.trigs[i].condition.JsonLogic?;
      assert SameTrigger(db.trigs[i], r.trigs[i]);
    } else {
      var b :| 0 <= b < |db.bindings| && Waits(db.catalog, db.bindings[b], s);
      assert SamePending(db.bindings[b], r.bindings[b], s);
      assert Waits(r.catalog, r.bindings[b], s);
    }
  }

  lemma UntouchedTrans(a: Db, b: Db, c: Db, s: nat)
    requires Untouched(a, b, s) && Untouched(b, c, s)
    ensures Untouched(a, c, s)
  {
    forall i | 0 <= i < |a.trigs| ensures SameTrigger(a.trigs[i], c.trigs[i]) {
      assert SameTrigger(a.trigs[i], b.trigs[i]) && SameTrigger(b.trigs[i], c.trigs[i]);
    }
    forall i | 0 <= i < |a.bindings| ensures SamePending(a.bindings[i], c.bindings[i], s) {
      assert SamePending(a.bindings[i], b.bindings[i], s) && SamePending(b.bindings[i], c.bindings[i], s);
    }
  }

  lemma ProvisionLeavesOthers(flags: Flags, db: Db, t: nat, s: nat)
    requires t < |db.steps| && s < |db.steps| && ValidRefs(db) && s != t
    ensures Untouched(db, Provision(flags, db, t), s)
  {
    var r := Provision(flags, db, t);
    forall b | 0 <= b < |db.bindings| ensures SamePending(db.bindings[b], r.bindings[b], s) {
      if db.bindings[b].step == s { ProvisionFrame(flags, db, t, b); }
    }
  }

  lemma PromoteLeavesOthers(flags: Flags, db: Db, t: nat, s: nat)
    requires t < |db.steps| && s < |db.steps| && ValidRefs(db) && s != t
    requires Promote(flags, db, t).Ok?
    ensures Untouched(db, Promote(flags, db, t).value, s)
  {
    if Spawns(flags, db.steps[t]) {
      SpawnLeavesOthers(flags, db, t, s);
    } else {
      var moved := Move(db, t, Ready);
      assert Untouched(db, moved, s);
      ProvisionLeavesOthers(flags, moved, t, s);
      UntouchedTrans(db, moved, Provision(flags, moved, t), s);
    }
  }

  lemma SpawnLeavesOthers(flags: Flags, db: Db, t: nat, s: nat)
    requires t < |db.steps| && s < |db.steps| && ValidRefs(db) && s != t
    requires Spawn(flags, db, t).Ok?
    ensures Untouched(db, Spawn(flags, db, t).value, s)
  {
    if !HasChild(db.procs, t) {
      var tpl := db.catalog.steps[db.steps[t].template];
      InstantiateLeavesOthers(db, tpl.childTemplate.value, ChildSeed(db, t, tpl).value, s);
    }
  }

  lemma InstantiateLeavesOthers(db: Db, t: nat, seed: Seed, s: nat)
    requires s < |db.steps|
    ensures Untouched(db, Instantiate(db, t, seed), s)
  {}

  /** enableNextSteps and the rest of a transaction never promote a sealed step. */
  lemma EnableStepLeavesSealed(flags: Flags, db: Db, t: nat, now: int, s: nat)
    requires ValidRefs(db) && t < |db.steps| && Sealed(flags, db, s) && EnableStep(flags, db, t, now).Ok?
    ensures Untouched(db, EnableStep(flags, db, t, now).value, s)
  {
    var evaluated := Evaluated(db, t, now);
    assert Untouched(db, evaluated, s);
    if Eligible(flags, db, t, now) {
      if t == s { SealedIsIneligible(flags, db, s, now); }
      PromoteLeavesOthers(flags, evaluated, t, s);
      UntouchedTrans(db, evaluated, EnableStep(flags, db, t, now).value, s);
    }
  }

  lemma {:induction false} EnableStepsLeaveSealed(flags: Flags, db: Db, rows: seq<nat>, now: int, s: nat)
    requires ValidRefs(db) && RowsIn(rows, |db.steps|) && Sealed(flags, db, s)
    requires EnableSteps(flags, db, rows, now).Ok?
    ensures Untouched(db, EnableSteps(flags, db, rows, now).value, s)
    decreases |rows|
  {
    if rows != [] {
      var next := EnableStep(flags, db, rows[0], now).value;
      EnableStepLeavesSealed(flags, db, rows[0], now, s);
      UntouchedStaysSealed(flags, db, next, s);
      EnableStepsLeaveSealed(flags, next, rows[1..], now, s);
      UntouchedTrans(db, next, EnableSteps(flags, next, rows[1..], now).value, s);
    }
  }

  lemma ConcludeLeavesSealed(flags: Flags, db: Db, t: nat, now: int, s: nat)
    requires ValidRefs(db) && t < |db.steps| && Sealed(flags, db, s)
    requires Conclude(flags, db, t, now).Ok?
    ensures Untouched(db, Conclude(flags, db, t, now).value, s)
  {
    EnableNextLeavesSealed(flags, db, t, now, s);
    ConcludeTail(flags, db, t, now);
    SameRows(db, EnableNext(flags, db, t, now).value, Conclude(flags, db, t, now).value, s);
  }

  lemma EnableNextLeavesSealed(flags: Flags, db: Db, t: nat, now: int, s: nat)
    requires ValidRefs(db) && t < |db.steps| && Sealed(flags, db, s)
    requires EnableNext(flags, db, t, now).Ok?
    ensures Untouched(db, EnableNext(flags, db, t, now).value, s)
  {
    var rows := NextRows(flags, db, t, now);
    EnableStepsLeaveSealed(flags, db, rows, now, s);
  }

  lemma SameRows(db: Db, mid: Db, r: Db, s: nat)
    requires Untouched(db, mid, s)
    requires r.steps == mid.steps && r.trigs == mid.trigs && r.bindings == mid.bindings && r.catalog == mid.catalog
    ensures Untouched(db, r, s)
  {}

  lemma HeadLeavesSealed(flags: Flags, db: Db, t: nat, now: int, s: nat)
    requires ValidRefs(db) && Sealed(flags, db, s) && t < |db.steps| && AdvanceHead(flags, db, t, now).Ok?
    ensures Untouched(db, AdvanceHead(flags, db, t, now).value, s)
  {
    var entered := if db.steps[t].status.Ready? then Provision(flags, db, t) else db;
    if db.steps[t].status.Ready? { ProvisionLeavesOthers(flags, db, t, s); }
    var checked := Evaluated(entered, t, now);
    UntouchedTrans(db, entered, checked, s);
    if db.steps[t].status.Pending? && Eligible(flags, entered, t, now) {
      if t == s { SealedIsIneligible(flags, db, s, now); }
      PromoteLeavesOthers(flags, checked, t, s);
      UntouchedTrans(db, checked, AdvanceHead(flags, db, t, now).value, s);
    }
  }

  lemma AdvanceLeavesSealed(flags: Flags, db: Db, t: nat, now: int, s: nat)
    requires ValidRefs(db) && Sealed(flags, db, s)
    ensures Untouched(db, Committed(db, AttemptAdvance(flags, db, t, now)), s)
  {
    if t < |db.steps| && Idle(db.steps[t].status) && AttemptAdvance(flags, db, t, now).Ok? {
      HeadLeavesSealed(flags, db, t, now, s);
      var head := AdvanceHead(flags, db, t, now).value;
      UntouchedStaysSealed(flags, db, head, s);
      if head.steps[t].taskType.Automated? && head.steps[t].status.Ready? && AdvanceOpen(flags, db, t, now) {
        AutomatedLeavesSealed(flags, db, head, t, now, s);
      } else {
        assert AttemptAdvance(flags, db, t, now) == Ok(head);
      }
    }
  }

  lemma AutomatedLeavesSealed(flags: Flags, db: Db, head: Db, t: nat, now: int, s: nat)
    requires ValidRefs(head) && t < |head.steps| && t != s
    requires Untouched(db, head, s) && Sealed(flags, head, s)
    requires Conclude(flags, Move(Move(head, t, InProgress), t, Completed), t, now).Ok?
    ensures Untouched(db, Conclude(flags, Move(Move(head, t, InProgress), t, Completed), t, now).value, s)
  {
    var done := Move(Move(head, t, InProgress), t, Completed);
    assert Untouched(head, done, s);
    UntouchedStaysSealed(flags, head, done, s);
    ConcludeLeavesSealed(flags, done, t, now, s);
    UntouchedTrans(db, head, done, s);
    UntouchedTrans(db, done, Conclude(flags, done, t, now).value, s);
  }

  lemma CompleteLeavesSealed(flags: Flags, db: Db, t: nat, now: int, s: nat)
    requires ValidRefs(db) && Sealed(flags, db, s)
    ensures Untouched(db, Committed(db, MarkCompleted(flags, db, t, now)), s)
  {
    if t < |db.steps| && (db.steps[t].status.Ready? || db.steps[t].status.InProgress?) && MarkCompleted(flags, db, t, now).Ok? {
      var done := Move(db, t, Completed);
      assert Untouched(db, done, s);
      UntouchedStaysSealed(flags, db, done, s);
      if GatesOpen(flags, db, t) {
        ConcludeLeavesSealed(flags, done, t, now, s);
        UntouchedTrans(db, done, Conclude(flags, done, t, now).value, s);
      }
    }
  }

  lemma HandlingLeavesSealed(flags: Flags, db: Db, n: Notice, now: int, s: nat)
    requires Good(flags, db) && Sealed(flags, db, s) && n in db.notices
    ensures Untouched(db, Handle(flags, db, n, now), s)
  {
    assert NoticeOk(db.procs, db.steps, n);
    match n
    case ResumeStep(t) =>
      if flags.callProcess && db.steps[t].status.Completed? && ResumeParent(flags, db, t, now).Ok? {
        ConcludeLeavesSealed(flags, db, t, now, s);
      }
    case ChildFinished(c) => EndingLeavesSealed(flags, db, c, false, now, s);
    case ChildAborted(c) => EndingLeavesSealed(flags, db, c, true, now, s);
  }

  lemma EndingLeavesSealed(flags: Flags, db: Db, c: nat, aborted: bool, now: int, s: nat)
    requires Good(flags, db) && Sealed(flags, db, s) && c < |db.procs|
    ensures Untouched(db, HandleTerminal(flags, db, c, aborted, now), s)
  {
    if db.procs[c].link.Some? {
      assert LinkOk(db.procs, db.steps, c) && CallStepOk(db.procs, db.steps, db.notices, c);
      assert db.procs[c].link.value.step != s;
    }
  }

  lemma DeliveryLeavesSealed(flags: Flags, db: Db, i: nat, now: int, s: nat)
    requires Good(flags, db) && Sealed(flags, db, s)
    ensures Untouched(db, Exec(flags, db, Deliver(i, now)), s)
  {
    if i < |db.notices| {
      HandlingLeavesSealed(flags, db, db.notices[i], now, s);
      SameRows(db, Handle(flags, db, db.notices[i], now), Exec(flags, db, Deliver(i, now)), s);
    }
  }

  lemma StartLeavesSealed(flags: Flags, db: Db, t: nat, tenant: int, subject: string, subjectId: int,
                          policy: FailurePolicy, context: Option<Record>, host: Option<HostData>, s: nat)
    requires s < |db.steps|
    ensures Untouched(db, Committed(db, StartRoot(flags, db, t, tenant, subject, subjectId, policy, context, host)), s)
  {
    if StartRoot(flags, db, t, tenant, subject, subjectId, policy, context, host).Ok? {
      InstantiateLeavesOthers(db, t, Seed(tenant, SubjectNamed(subject).value, subjectId, None, policy, context), s);
    }
  }

  lemma ExecLeavesSealed(flags: Flags, db: Db, a: Action, s: nat)
    requires Good(flags, db) && Sealed(flags, db, s) && !a.EditCatalog?
    ensures Untouched(db, Exec(flags, db, a), s) && Sealed(flags, Exec(flags, db, a), s)
  {
    match a {
      case StartProcess(t, tenant, subject, subjectId, policy, context, host) =>
        StartLeavesSealed(flags, db, t, tenant, subject, subjectId, policy, context, host, s);
      case Advance(t, now) => AdvanceLeavesSealed(flags, db, t, now, s);
      case Complete(t, now) => CompleteLeavesSealed(flags, db, t, now, s);
      case Deliver(i, now) => DeliveryLeavesSealed(flags, db, i, now, s);
      case _ => EnvironmentLeavesSealed(flags, db, a, s);
    }
    UntouchedStaysSealed(flags, db, Exec(flags, db, a), s);
  }

  lemma EnvironmentLeavesSealed(flags: Flags, db: Db, a: Action, s: nat)
    requires Good(flags, db) && Sealed(flags, db, s) && Environmental(a) && !a.EditCatalog?
    ensures Untouched(db, Exec(flags, db, a), s)
  {
    if a.ValidateObject? { ValidationLeavesSealed(flags, db, a.instance, s); }
  }

  lemma ValidationLeavesSealed(flags: Flags, db: Db, o: nat, s: nat)
    requires Good(flags, db) && s < |db.steps|
    ensures Untouched(db, Validate(flags, db, o), s)
  {
    var link := LinkedRow(db, o);
    if link.Some? { assert BindingOk(db.procs, db.steps, db.objects, db.bindings[link.value]); }
  }

  /** A pending step with an event, time or unknown trigger, or with a mandatory object still
      to be provisioned, stays pending in every run that leaves the templates alone. */
  lemma {:induction false} SealedForever(flags: Flags, db: Db, actions: seq<Action>, s: nat)
    requires Good(flags, db) && Sealed(flags, db, s)
    requires forall i :: 0 <= i < |actions| ==> !actions[i].EditCatalog?
    ensures Sealed(flags, Run(flags, db, actions), s)
    decreases |actions|
  {
    if actions != [] {
      SealedForever(flags, db, actions[..|actions| - 1], s);
      ExecLeavesSealed(flags, Run(flags, db, actions[..|actions| - 1]), actions[|actions| - 1], s);
    }
  }

  lemma CopyOfBinding(db: Db, t: nat, seed: Seed, b: nat) returns (row: nat)
    requires b < |db.catalog.bindings| && db.catalog.bindings[b].step in OrderedSteps(db.catalog, t)
    ensures var r := Instantiate(db, t, seed);
      row < |r.bindings| && BindingPlaced(db, r, r.bindings[row], b)
  {
    var ids := BindingsIn(db.catalog, OrderedSteps(db.catalog, t));
    assert b in ids;
    var k :| 0 <= k < |ids| && ids[k] == b;
    BindingFollowsItsStep(db, t, seed, k);
    row := |db.bindings| + k;
  }

  lemma BornPending(db: Db, t: nat, seed: Seed, s: nat)
    ensures var r := Instantiate(db, t, seed);
      |db.steps| <= s < |r.steps| ==>
        && r.steps[s].template < |db.catalog.steps|
        && (db.catalog.steps[r.steps[s].template].order != 1 ==> r.steps[s].status.Pending?)
  {
    StepsAreABijection(db, t, seed);
    var r := Instantiate(db, t, seed);
    if |db.steps| <= s < |r.steps| {
      assert CopyOf(db.catalog, r.steps[s], OrderedSteps(db.catalog, t)[s - |db.steps|], |db.procs|);
    }
  }
}
