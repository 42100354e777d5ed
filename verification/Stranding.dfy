/** Where the protocol loses a step: the cancellation paths that tell nobody further up, when
    exactly they silence a blocked step, and that nothing the engine does later repairs it. */
module Stranding {
  import opened Basics
  import opened Json
  import opened Tables
  import opened StepObjects
  import opened Instantiation
  import opened ProjectHost
  import opened ChildProcess
  import opened Completion
  import opened Orchestrator
  import opened Protocol
  import opened Preservation
  import opened Evolution
  import opened Soundness
  import opened Runs

  // ----- a blocked step nobody will wake -----

  /** Step `s` is blocked on child `c`, which was canceled and is not to be reported. */
  ghost predicate Silenced(db: Db, s: nat, c: nat) {
    && s < |db.steps| && db.steps[s].status.Blocked?
    && c < |db.procs| && ChildOf(db.procs[c], s) && db.procs[c].status.Aborted?
    && ChildAborted(c) !in db.notices
  }

  lemma ConcludeNotices(flags: Flags, db: Db, s: nat, now: int)
    requires s < |db.steps| && ValidRefs(db) && Conclude(flags, db, s, now).Ok?
    ensures var r := Conclude(flags, db, s, now).value;
      r.notices == db.notices || r.notices == db.notices + [ChildFinished(db.steps[s].process)]
  {}

  /** The orchestrator's transactions neither touch a blocked step nor report a cancellation. */
  lemma ConcludeKeepsSilence(flags: Flags, db: Db, t: nat, now: int, s: nat, c: nat)
    requires t < |db.steps| && DbInv(db, db.steps[t].process) && Sound(db) && Silenced(db, s, c)
    requires Conclude(flags, db, t, now).Ok?
    ensures Silenced(Conclude(flags, db, t, now).value, s, c)
  {
    ConcludeNotices(flags, db, t, now);
    ConcludeGrows(flags, db, t, now);
    var r := Conclude(flags, db, t, now).value;
    EnableNextInv(flags, db, db.steps[t].process, t, now);
    ConcludeTail(flags, db, t, now);
    assert Opened(db.steps[s], EnableNext(flags, db, t, now).value.steps[s]);
    assert StepEvolves(db.steps[s], r.steps[s]) && ProcessEvolves(db.procs[c], r.procs[c]);
  }

  lemma AdvanceKeepsSilence(flags: Flags, db: Db, t: nat, now: int, s: nat, c: nat)
    requires Good(flags, db) && Silenced(db, s, c)
    ensures Silenced(Committed(db, AttemptAdvance(flags, db, t, now)), s, c)
  {
    if t < |db.steps| && Idle(db.steps[t].status) && AttemptAdvance(flags, db, t, now).Ok? {
      AdvanceHeadInv(flags, db, -1, t, now);
      AdvanceHeadGrows(flags, db, -1, t, now);
      var head := AdvanceHead(flags, db, t, now).value;
      assert Opened(db.steps[s], head.steps[s]) && StepEvolves(db.steps[s], head.steps[s]);
      assert ProcessEvolves(db.procs[c], head.procs[c]);
      if head.steps[t].taskType.Automated? && head.steps[t].status.Ready? && AdvanceOpen(flags, db, t, now) {
        AutomatedKeepsSilence(flags, head, t, now, s, c);
      }
    }
  }

  lemma AutomatedKeepsSilence(flags: Flags, head: Db, t: nat, now: int, s: nat, c: nat)
    requires DbInv(head, -1) && Sound(head) && Silenced(head, s, c)
    requires t < |head.steps| && head.steps[t].status.Ready?
    requires Conclude(flags, Move(Move(head, t, InProgress), t, Completed), t, now).Ok?
    ensures Silenced(Conclude(flags, Move(Move(head, t, InProgress), t, Completed), t, now).value, s, c)
  {
    IdleHasNoChild(head.procs, head.steps, head.notices, -1, t);
    MoveKeepsInv(head.procs, head.steps, head.notices, -1, t, InProgress);
    MoveSound(head, t, InProgress);
    var started := Move(head, t, InProgress);
    MoveKeepsInv(started.procs, started.steps, started.notices, -1, t, Completed);
    MoveSound(started, t, Completed);
    ConcludeKeepsSilence(flags, Move(started, t, Completed), t, now, s, c);
  }

  lemma CompleteKeepsSilence(flags: Flags, db: Db, t: nat, now: int, s: nat, c: nat)
    requires Good(flags, db) && Silenced(db, s, c)
    ensures Silenced(Committed(db, MarkCompleted(flags, db, t, now)), s, c)
  {
    if t < |db.steps| && (db.steps[t].status.Ready? || db.steps[t].status.InProgress?) && MarkCompleted(flags, db, t, now).Ok? {
      IdleHasNoChild(db.procs, db.steps, db.notices, -1, t);
      MoveKeepsInv(db.procs, db.steps, db.notices, -1, t, Completed);
      MoveSound(db, t, Completed);
      if GatesOpen(flags, db, t) { ConcludeKeepsSilence(flags, Move(db, t, Completed), t, now, s, c); }
    }
  }

  lemma DeliveryKeepsSilence(flags: Flags, db: Db, i: nat, now: int, s: nat, c: nat)
    requires Good(flags, db) && Silenced(db, s, c) && i < |db.notices|
    ensures Silenced(Exec(flags, db, Deliver(i, now)), s, c)
  {
    HandlingKeepsSilence(flags, db, db.notices[i], now, s, c);
    WithoutMembers(Handle(flags, db, db.notices[i], now).notices, i);
  }

  lemma HandlingKeepsSilence(flags: Flags, db: Db, n: Notice, now: int, s: nat, c: nat)
    requires Good(flags, db) && Silenced(db, s, c) && n in db.notices
    ensures Silenced(Handle(flags, db, n, now), s, c)
  {
    assert NoticeOk(db.procs, db.steps, n);
    match n
    case ResumeStep(t) =>
      if flags.callProcess && db.steps[t].status.Completed? && ResumeParent(flags, db, t, now).Ok? {
        ConcludeKeepsSilence(flags, db, t, now, s, c);
      }
    case ChildFinished(d) => EndingKeepsSilence(flags, db, d, false, now, s, c);
    case ChildAborted(d) => EndingKeepsSilence(flags, db, d, true, now, s, c);
  }

  /** Handling another child's ending. */
  lemma EndingKeepsSilence(flags: Flags, db: Db, d: nat, aborted: bool, now: int, s: nat, c: nat)
    requires Good(flags, db) && Silenced(db, s, c) && d < |db.procs| && d != c
    ensures Silenced(HandleTerminal(flags, db, d, aborted, now), s, c)
  {
    if db.procs[d].link.Some? {
      assert LinkOk(db.procs, db.steps, d) && !SameCallStep(db.procs[d], db.procs[c]);
    }
  }

  lemma StartKeepsSilence(flags: Flags, db: Db, t: nat, tenant: int, subject: string, subjectId: int,
                          policy: FailurePolicy, context: Option<Record>, host: Option<HostData>, s: nat, c: nat)
    requires Good(flags, db) && Silenced(db, s, c)
    ensures Silenced(Committed(db, StartRoot(flags, db, t, tenant, subject, subjectId, policy, context, host)), s, c)
  {}

  lemma ExecKeepsSilence(flags: Flags, db: Db, a: Action, s: nat, c: nat)
    requires Good(flags, db) && Silenced(db, s, c)
    ensures Silenced(Exec(flags, db, a), s, c)
  {
    match a
    case StartProcess(t, tenant, subject, subjectId, policy, context, host) =>
      StartKeepsSilence(flags, db, t, tenant, subject, subjectId, policy, context, host, s, c);
    case Advance(t, now) => AdvanceKeepsSilence(flags, db, t, now, s, c);
    case Complete(t, now) => CompleteKeepsSilence(flags, db, t, now, s, c);
    case Deliver(i, now) => if i < |db.notices| { DeliveryKeepsSilence(flags, db, i, now, s, c); }
    case ValidateObject(_) =>
    case CancelProcess(_) =>
    case RecordMet(_) =>
    case ReviewRequirement(_, _) =>
    case AddObject(_) =>
    case EditObject(_, _, _) =>
    case EditCatalog(_) =>
  }

  /** A step blocked on a canceled child whose report is gone stays blocked in every run. */
  lemma {:induction false} SilencedForever(flags: Flags, db: Db, actions: seq<Action>, s: nat, c: nat)
    requires Good(flags, db) && Silenced(db, s, c)
    ensures Silenced(Run(flags, db, actions), s, c)
    decreases |actions|
  {
    if actions != [] {
      SilencedForever(flags, db, actions[..|actions| - 1], s, c);
      ExecKeepsSilence(flags, Run(flags, db, actions[..|actions| - 1]), actions[|actions| - 1], s, c);
    }
  }

  /** When a report of a canceled child leaves its own call step silenced: exactly under
      pause_parent. */
  lemma ReportSilencesCallStepIff(flags: Flags, db: Db, i: nat, now: int, c: nat)
    requires Good(flags, db) && i < |db.notices| && db.notices[i] == ChildAborted(c)
    requires c < |db.procs| && db.procs[c].link.Some? && db.procs[c].link.value.step < |db.steps|
    requires db.steps[db.procs[c].link.value.step].status.Blocked?
    requires ChildAborted(c) !in Without(db.notices, i)
    ensures Silenced(Exec(flags, db, Deliver(i, now)), db.procs[c].link.value.step, c) <==> db.procs[c].policy.PauseParent?
  {
    assert NoticeOk(db.procs, db.steps, db.notices[i]);
    assert LinkOk(db.procs, db.steps, c);
    assert Handle(flags, db, db.notices[i], now).notices == db.notices;
  }

  /** fail_parent cancels the parent but reports it to nobody: if that parent was itself an
      active child, the step that waits for it is silenced. */
  lemma FailParentSilencesGrandparent(flags: Flags, db: Db, i: nat, now: int, c: nat)
    requires Good(flags, db) && i < |db.notices| && db.notices[i] == ChildAborted(c)
    requires c < |db.procs| && db.procs[c].link.Some? && db.procs[c].policy.FailParent?
    requires db.procs[c].link.value.parent < |db.procs| && db.procs[db.procs[c].link.value.parent].link.Some?
    ensures var p := db.procs[c].link.value.parent;
      var waiting := db.procs[p].link.value.step;
      Silenced(Exec(flags, db, Deliver(i, now)), waiting, p) <==>
        (db.procs[p].status.Active? || Silenced(db, waiting, p))
  {
    var p := db.procs[c].link.value.parent;
    var waiting := db.procs[p].link.value.step;
    assert NoticeOk(db.procs, db.steps, db.notices[i]);
    assert LinkOk(db.procs, db.steps, c) && LinkOk(db.procs, db.steps, p);
    assert CallStepOk(db.procs, db.steps, db.notices, p) && CallStepOk(db.procs, db.steps, db.notices, c);
    var handled := Handle(flags, db, db.notices[i], now);
    assert handled.notices == db.notices;
    WithoutMembers(db.notices, i);
    assert ChildAborted(p) in db.notices ==> NoticeOk(db.procs, db.steps, ChildAborted(p));
    assert db.steps[db.procs[c].link.value.step].process == p && p != db.procs[p].link.value.parent;
  }
}
