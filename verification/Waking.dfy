/** Processes whose steps are all completed: which of them some later run still completes, and
    which are left active for good. */
module Waking {
  import opened Basics
  import opened Json
  import opened Tables
  import opened StepObjects
  import opened Instantiation
  import opened ProjectHost
  import opened ChildProcess
  import opened Completion
  import opened Orchestrator
  import opened Protocol
  import opened Preservation
  import opened Evolution
  import opened Soundness
  import opened Runs
  import Effects

  // ----- what can still reach a process -----

  /** Process `c` is `p`, or a completed descendant of it through completed processes only. */
  predicate Feeds(procs: seq<Process>, c: nat, p: nat)
    decreases c
  {
    c == p ||
    (&& c < |procs| && procs[c].status.Finished? && procs[c].link.Some?
     && procs[c].link.value.parent < c && Feeds(procs, procs[c].link.value.parent, p))
  }

  /** A resumption inside that subtree, or the announced end of one of its processes. */
  predicate Stirs(procs: seq<Process>, steps: seq<Step>, n: Notice, p: nat) {
    match n
    case ResumeStep(s) => s < |steps| && Feeds(procs, steps[s].process, p)
    case ChildFinished(c) => Feeds(procs, c, p)
    case ChildAborted(_) => false
  }

  /** No outstanding notice stirs `p`. */
  predicate Still(procs: seq<Process>, steps: seq<Step>, notices: seq<Notice>, p: nat) {
    forall i :: 0 <= i < |notices| ==> !Stirs(procs, steps, notices[i], p)
  }

  /** Active, with all steps completed. */
  ghost predicate Overdue(db: Db, p: nat) {
    p < |db.procs| && db.procs[p].status.Active? && AllDone(db.steps, p)
  }

  /** Overdue, and nothing outstanding can reach it. */
  ghost predicate Stranded(db: Db, p: nat) {
    Overdue(db, p) && Still(db.procs, db.steps, db.notices, p)
  }

  lemma {:induction false} FeedsSame(procs: seq<Process>, procs': seq<Process>, c: nat, p: nat)
    requires |procs'| == |procs|
    requires forall x :: 0 <= x < |procs| ==> procs'[x].link == procs[x].link && procs'[x].status == procs[x].status
    ensures Feeds(procs', c, p) == Feeds(procs, c, p)
    decreases c
  {
    if c != p && c < |procs| && procs[c].link.Some? && procs[c].link.value.parent < c {
      FeedsSame(procs, procs', procs[c].link.value.parent, p);
    }
  }

  /** All steps of a process that feeds an overdue one are completed. */
  lemma FeederIsDone(db: Db, skip: int, c: nat, p: nat)
    requires DbInv(db, skip) && Overdue(db, p) && Feeds(db.procs, c, p)
    ensures c < |db.procs| && AllDone(db.steps, c)
  {}

  /** No process of these tables starts to feed an overdue one: the children of completed
      steps have already ended. */
  lemma {:induction false} FeedsBack(db: Db, skip: int, r: Db, c: nat, p: nat)
    requires DbInv(db, skip) && Overdue(db, p) && Evolves(db, r) && NewcomersActive(db, r)
    requires Feeds(r.procs, c, p)
    ensures Feeds(db.procs, c, p)
    decreases c
  {
    if c != p {
      var q := r.procs[c].link.value.parent;
      FeedsBack(db, skip, r, q, p);
      FeederIsDone(db, skip, q, p);
      assert ProcessEvolves(db.procs[c], r.procs[c]);
      assert LinkOk(db.procs, db.steps, c) && CallStepOk(db.procs, db.steps, db.notices, c);
    }
  }

  ghost predicate NewcomersActive(db: Db, r: Db) {
    forall c :: |db.procs| <= c < |r.procs| ==> r.procs[c].status.Active?
  }

  /** Later tables whose notices are old ones, or stir nothing, leave `p` stranded. */
  lemma StaysStranded(db: Db, skip: int, r: Db, p: nat)
    requires DbInv(db, skip) && Stranded(db, p) && Evolves(db, r) && NewcomersActive(db, r)
    requires r.procs[p].status.Active?
    requires forall n :: n in r.notices && n !in db.notices ==> !Stirs(r.procs, r.steps, n, p)
    ensures Stranded(r, p)
  {
    AllDoneAbsorbing(db, r, p);
    forall i | 0 <= i < |r.notices| ensures !Stirs(r.procs, r.steps, r.notices[i], p) {
      var n := r.notices[i];
      assert n in r.notices;
      if n in db.notices && Stirs(r.procs, r.steps, n, p) { OldNoticeStirs(db, skip, r, n, p); }
    }
  }

  lemma OldNoticeStirs(db: Db, skip: int, r: Db, n: Notice, p: nat)
    requires DbInv(db, skip) && Overdue(db, p) && Evolves(db, r) && NewcomersActive(db, r)
    requires n in db.notices && Stirs(r.procs, r.steps, n, p)
    ensures Stirs(db.procs, db.steps, n, p)
  {
    assert NoticeOk(db.procs, db.steps, n);
    if n.ResumeStep? {
      assert StepEvolves(db.steps[n.step], r.steps[n.step]);
      FeedsBack(db, skip, r, db.steps[n.step].process, p);
    } else {
      FeedsBack(db, skip, r, n.child, p);
    }
  }

  // ----- every action leaves it so -----

  lemma ConcludeLeavesStranded(flags: Flags, db: Db, t: nat, now: int, p: nat)
    requires t < |db.steps| && DbInv(db, db.steps[t].process) && Sound(db) && Stranded(db, p)
    requires !Feeds(db.procs, db.steps[t].process, p) && Conclude(flags, db, t, now).Ok?
    ensures Stranded(Conclude(flags, db, t, now).value, p)
  {
    var q := db.steps[t].process;
    var r := Conclude(flags, db, t, now).value;
    ConcludeGrows(flags, db, t, now);
    ConcludeShape(flags, db, t, now);
    assert q != p;
    if Feeds(r.procs, q, p) { FeedsBack(db, q, r, q, p); }
    StaysStranded(db, q, r, p);
  }

  /** The last part of a transaction ends at most its own process, and announces no other. */
  lemma ConcludeShape(flags: Flags, db: Db, t: nat, now: int)
    requires t < |db.steps| && DbInv(db, db.steps[t].process) && Conclude(flags, db, t, now).Ok?
    ensures var r := Conclude(flags, db, t, now).value;
      var q := db.steps[t].process;
      && |r.procs| >= |db.procs| && NewcomersActive(db, r)
      && (forall x :: 0 <= x < |db.procs| && x != q ==> r.procs[x] == db.procs[x])
      && (r.notices == db.notices || r.notices == db.notices + [ChildFinished(q)])
  {
    var q := db.steps[t].process;
    EnableNextInv(flags, db, q, t, now);
    TailShape(flags, EnableNext(flags, db, t, now).value, q);
  }

  lemma TailShape(flags: Flags, db: Db, q: nat)
    requires q < |db.procs|
    ensures var r := MaybeComplete(flags, db, q).0;
      |r.procs| == |db.procs| && forall x :: 0 <= x < |db.procs| && x != q ==> r.procs[x] == db.procs[x]
  {}

  /** A step still open belongs to no process that feeds `p`. */
  lemma OpenStepDoesNotFeed(db: Db, skip: int, t: nat, p: nat)
    requires DbInv(db, skip) && Overdue(db, p) && t < |db.steps| && !db.steps[t].status.Completed?
    ensures !Feeds(db.procs, db.steps[t].process, p)
  {
    if Feeds(db.procs, db.steps[t].process, p) { FeederIsDone(db, skip, db.steps[t].process, p); }
  }

  lemma AdvanceLeavesStranded(flags: Flags, db: Db, t: nat, now: int, p: nat)
    requires Good(flags, db) && Stranded(db, p)
    ensures Stranded(Committed(db, AttemptAdvance(flags, db, t, now)), p)
  {
    if t < |db.steps| && Idle(db.steps[t].status) && AttemptAdvance(flags, db, t, now).Ok? {
      AdvanceHeadInv(flags, db, -1, t, now);
      AdvanceHeadGrows(flags, db, -1, t, now);
      var head := AdvanceHead(flags, db, t, now).value;
      StaysStranded(db, -1, head, p);
      if head.steps[t].taskType.Automated? && head.steps[t].status.Ready? && AdvanceOpen(flags, db, t, now) {
        AutomatedLeavesStranded(flags, head, t, now, p);
      }
    }
  }

  lemma AutomatedLeavesStranded(flags: Flags, head: Db, t: nat, now: int, p: nat)
    requires DbInv(head, -1) && Sound(head) && Stranded(head, p)
    requires t < |head.steps| && head.steps[t].status.Ready?
    requires Conclude(flags, Move(Move(head, t, InProgress), t, Completed), t, now).Ok?
    ensures Stranded(Conclude(flags, Move(Move(head, t, InProgress), t, Completed), t, now).value, p)
  {
    OpenStepDoesNotFeed(head, -1, t, p);
    IdleHasNoChild(head.procs, head.steps, head.notices, -1, t);
    MoveKeepsInv(head.procs, head.steps, head.notices, -1, t, InProgress);
    MoveSound(head, t, InProgress);
    var started := Move(head, t, InProgress);
    MoveKeepsInv(started.procs, started.steps, started.notices, -1, t, Completed);
    MoveSound(started, t, Completed);
    var done := Move(started, t, Completed);
    EvolvesTrans(head, started, done);
    StaysStranded(head, -1, done, p);
    ConcludeLeavesStranded(flags, done, t, now, p);
  }

  lemma CompletionLeavesStranded(flags: Flags, db: Db, t: nat, now: int, p: nat)
    requires Good(flags, db) && Stranded(db, p)
    ensures Stranded(Committed(db, MarkCompleted(flags, db, t, now)), p)
  {
    if t < |db.steps| && (db.steps[t].status.Ready? || db.steps[t].status.InProgress?) && MarkCompleted(flags, db, t, now).Ok? {
      OpenStepDoesNotFeed(db, -1, t, p);
      IdleHasNoChild(db.procs, db.steps, db.notices, -1, t);
      MoveKeepsInv(db.procs, db.steps, db.notices, -1, t, Completed);
      MoveSound(db, t, Completed);
      StaysStranded(db, -1, Move(db, t, Completed), p);
      if GatesOpen(flags, db, t) { ConcludeLeavesStranded(flags, Move(db, t, Completed), t, now, p); }
    }
  }

  /** No notice under way ends `p`, and none that it produces could. */
  lemma HandlingLeavesStranded(flags: Flags, db: Db, i: nat, now: int, p: nat)
    requires Good(flags, db) && Stranded(db, p) && i < |db.notices|
    ensures Stranded(Handle(flags, db, db.notices[i], now), p)
  {
    var n := db.notices[i];
    assert NoticeOk(db.procs, db.steps, n) && !Stirs(db.procs, db.steps, n, p);
    HandleGood(flags, db, n, now);
    if n.ResumeStep? {
      if flags.callProcess && ResumeParent(flags, db, n.step, now).Ok? {
        ConcludeLeavesStranded(flags, db, n.step, now, p);
      }
    } else if db.procs[n.child].link.Some? {
      EndedChildLeavesStranded(flags, db, n, now, p);
    }
  }

  lemma EndedChildLeavesStranded(flags: Flags, db: Db, n: Notice, now: int, p: nat)
    requires Good(flags, db) && Stranded(db, p) && n in db.notices && !n.ResumeStep?
    requires !Stirs(db.procs, db.steps, n, p) && n.child < |db.procs| && db.procs[n.child].link.Some?
    requires Evolves(db, Handle(flags, db, n, now))
    ensures Stranded(Handle(flags, db, n, now), p)
  {
    var l := db.procs[n.child].link.value;
    var r := Handle(flags, db, n, now);
    assert NoticeOk(db.procs, db.steps, n);
    assert LinkOk(db.procs, db.steps, n.child) && CallStepOk(db.procs, db.steps, db.notices, n.child);
    EndingSends(flags, db, n, now);
    if Feeds(r.procs, l.parent, p) { FeedsBack(db, -1, r, l.parent, p); }
    EndingSparesOverdue(flags, db, n, now, p);
    StaysStranded(db, -1, r, p);
  }

  /** The handling of an ending sends at most the resumption of the call step. */
  lemma EndingSends(flags: Flags, db: Db, n: Notice, now: int)
    requires ValidRefs(db) && !n.ResumeStep? && n.child < |db.procs| && db.procs[n.child].link.Some?
    ensures var r, l := Handle(flags, db, n, now), db.procs[n.child].link.value;
      && |r.procs| == |db.procs| && |r.steps| == |db.steps| && r.steps[l.step].process == db.steps[l.step].process
      && (forall m :: m in r.notices && m !in db.notices ==> m == ResumeStep(l.step))
  {}

  /** It leaves an active process with all steps completed active: such a process has no call
      step that could fail. */
  lemma EndingSparesOverdue(flags: Flags, db: Db, n: Notice, now: int, p: nat)
    requires Good(flags, db) && Overdue(db, p) && n in db.notices && !n.ResumeStep?
    requires n.child < |db.procs| && db.procs[n.child].link.Some?
    ensures Handle(flags, db, n, now).procs[p].status.Active?
  {
    assert NoticeOk(db.procs, db.steps, n);
    assert LinkOk(db.procs, db.steps, n.child) && CallStepOk(db.procs, db.steps, db.notices, n.child);
  }

  lemma DeliveryLeavesStranded(flags: Flags, db: Db, i: nat, now: int, p: nat)
    requires Good(flags, db) && Stranded(db, p) && i < |db.notices|
    ensures Stranded(Exec(flags, db, Deliver(i, now)), p)
  {
    HandlingLeavesStranded(flags, db, i, now, p);
    var handled := Handle(flags, db, db.notices[i], now);
    var rest := Without(handled.notices, i);
    forall k | 0 <= k < |rest| ensures !Stirs(handled.procs, handled.steps, rest[k], p) {
      assert rest[k] == handled.notices[if k < i then k else k + 1];
    }
  }

  lemma ExecLeavesStranded(flags: Flags, db: Db, a: Action, p: nat)
    requires Good(flags, db) && Stranded(db, p) && a != CancelProcess(p)
    ensures Stranded(Exec(flags, db, a), p)
  {
    ExecGood(flags, db, a);
    match a
    case StartProcess(t, tenant, subject, subjectId, policy, context, host) =>
      StartLeavesStranded(flags, db, t, tenant, subject, subjectId, policy, context, host, p);
    case Advance(t, now) => AdvanceLeavesStranded(flags, db, t, now, p);
    case Complete(t, now) => CompletionLeavesStranded(flags, db, t, now, p);
    case Deliver(i, now) => if i < |db.notices| { DeliveryLeavesStranded(flags, db, i, now, p); }
    case CancelProcess(_) => StaysStranded(db, -1, Exec(flags, db, a), p);
    case ValidateObject(_) => StaysStranded(db, -1, Exec(flags, db, a), p);
    case RecordMet(_) =>
    case ReviewRequirement(_, _) =>
    case AddObject(_) =>
    case EditObject(_, _, _) =>
    case EditCatalog(_) =>
  }

  lemma StartLeavesStranded(flags: Flags, db: Db, t: nat, tenant: int, subject: string, subjectId: int,
                            policy: FailurePolicy, context: Option<Record>, host: Option<HostData>, p: nat)
    requires Good(flags, db) && Stranded(db, p)
    ensures Stranded(Committed(db, StartRoot(flags, db, t, tenant, subject, subjectId, policy, context, host)), p)
  {
    var outcome := StartRoot(flags, db, t, tenant, subject, subjectId, policy, context, host);
    StartRootGrows(flags, db, t, tenant, subject, subjectId, policy, context, host);
    if outcome.Ok? {
      StartedRows(flags, db, t, Seed(tenant, SubjectNamed(subject).value, subjectId, None, policy, context), host);
      QuietlyStaysStranded(db, outcome.value, p);
    }
  }

  /** A transaction that appends active processes and sends nothing. */
  lemma QuietlyStaysStranded(db: Db, r: Db, p: nat)
    requires DbInv(db, -1) && Stranded(db, p) && Evolves(db, r) && r.notices == db.notices
    requires |r.procs| == |db.procs| + 1 && r.procs[..|db.procs|] == db.procs && r.procs[|db.procs|].status.Active?
    ensures Stranded(r, p)
  {
    assert r.procs[p] == r.procs[..|db.procs|][p];
    StaysStranded(db, -1, r, p);
  }

  /** `actions` never cancels process `p`. */
  ghost predicate Sparing(actions: seq<Action>, p: nat) {
    forall i :: 0 <= i < |actions| ==> actions[i] != CancelProcess(p)
  }

  /** A stranded process stays stranded in every run in which nobody cancels it. */
  lemma {:induction false} StrandedForever(flags: Flags, db: Db, actions: seq<Action>, p: nat)
    requires Good(flags, db) && Stranded(db, p) && Sparing(actions, p)
    ensures Stranded(Run(flags, db, actions), p)
    decreases |actions|
  {
    if actions != [] {
      StrandedForever(flags, db, actions[..|actions| - 1], p);
      ExecLeavesStranded(flags, Run(flags, db, actions[..|actions| - 1]), actions[|actions| - 1], p);
    }
  }

  // ----- and anything that stirs a process does end it -----

  /** Nothing but the arrival of a resumption is missing. */
  ghost predicate Wakeable(flags: Flags, db: Db, p: nat) {
    Overdue(db, p) && (db.procs[p].link.Some? || AllBindingsValid(flags, db, p))
  }

  predicate OnlyDeliveries(actions: seq<Action>) {
    forall i :: 0 <= i < |actions| ==> actions[i].Deliver?
  }

  lemma FirstIsMember(rows: seq<nat>)
    ensures rows != [] ==> exists x :: x in rows
  {
    if rows != [] { assert rows[0] in rows; }
  }

  /** A process whose steps are all completed has no next steps and no active child. */
  lemma DoneHasNothingNext(flags: Flags, db: Db, s: nat, now: int)
    requires DbInv(db, -1) && s < |db.steps| && AllDone(db.steps, db.steps[s].process)
    ensures EnableNext(flags, db, s, now) == Ok(db)
    ensures NoActiveChild(db.procs, db.steps[s].process)
  {
    var p := db.steps[s].process;
    var rows := NextRows(flags, db, s, now);
    FirstIsMember(rows);
    forall c | 0 <= c < |db.procs| && db.procs[c].link.Some? && db.procs[c].link.value.parent == p
      ensures Terminal(db.procs[c].status)
    {
      assert LinkOk(db.procs, db.steps, c) && CallStepOk(db.procs, db.steps, db.notices, c);
    }
  }

  /** A resumption in `p` itself completes it. */
  lemma ResumptionEnds(flags: Flags, db: Db, i: nat, now: int, p: nat)
    requires Good(flags, db) && Wakeable(flags, db, p) && i < |db.notices|
    requires db.notices[i].ResumeStep? && db.notices[i].step < |db.steps| && db.steps[db.notices[i].step].process == p
    ensures var r := Exec(flags, db, Deliver(i, now)); p < |r.procs| && r.procs[p].status.Finished?
  {
    var s := db.notices[i].step;
    assert NoticeOk(db.procs, db.steps, db.notices[i]);
    DoneHasNothingNext(flags, db, s, now);
    assert HasSteps(db.steps, p) && AllTerminal(db.steps, p);
  }

  /** A resumption in a completed child is announced again. */
  lemma ResumptionRepeats(flags: Flags, db: Db, i: nat, now: int, q: nat)
    requires Good(flags, db) && i < |db.notices|
    requires db.notices[i].ResumeStep? && db.notices[i].step < |db.steps| && db.steps[db.notices[i].step].process == q
    requires q < |db.procs| && db.procs[q].status.Finished? && db.procs[q].link.Some?
    ensures Exec(flags, db, Deliver(i, now)) == db.(notices := Without(db.notices + [ChildFinished(q)], i))
  {
    assert NoticeOk(db.procs, db.steps, db.notices[i]);
    DoneHasNothingNext(flags, db, db.notices[i].step, now);
  }

  /** The announced end of a completed child of a finished call step only adds a resumption. */
  lemma EndIsPassedOn(flags: Flags, db: Db, i: nat, now: int, c: nat)
    requires Good(flags, db) && i < |db.notices| && db.notices[i] == ChildFinished(c)
    requires c < |db.procs| && db.procs[c].link.Some? && db.procs[c].link.value.step < |db.steps|
    requires db.steps[db.procs[c].link.value.step].status.Completed?
    ensures var r := Exec(flags, db, Deliver(i, now));
      && r == db.(procs := r.procs, notices := Without(db.notices + [ResumeStep(db.procs[c].link.value.step)], i))
      && |r.procs| == |db.procs|
      && forall x :: 0 <= x < |db.procs| ==> r.procs[x].link == db.procs[x].link && r.procs[x].status == db.procs[x].status
  {
    var l := db.procs[c].link.value;
    assert ReasonOk(db.steps[l.step]);
    assert CompleteCallStep(db.steps, l.step) == db.steps;
  }

  lemma LastSurvives(notices: seq<Notice>, i: nat, n: Notice)
    requires i < |notices|
    ensures n in Without(notices + [n], i)
  {
    var rest := Without(notices + [n], i);
    assert rest[|rest| - 1] == n;
  }

  lemma StaysWakeable(flags: Flags, db: Db, r: Db, p: nat)
    requires Wakeable(flags, db, p) && r == db.(procs := r.procs, notices := r.notices) && |r.procs| == |db.procs|
    requires forall x :: 0 <= x < |db.procs| ==> r.procs[x].link == db.procs[x].link && r.procs[x].status == db.procs[x].status
    ensures Wakeable(flags, r, p)
  {
    forall x: nat ensures BindingsValid(flags, r, x) == BindingsValid(flags, db, x) {}
  }

  /** A resumption in a completed child becomes the announced end of that child. */
  lemma ResumptionMovesUp(flags: Flags, db: Db, p: nat, i: nat, now: int, q: nat)
    requires Good(flags, db) && Wakeable(flags, db, p) && i < |db.notices|
    requires db.notices[i].ResumeStep? && db.notices[i].step < |db.steps| && db.steps[db.notices[i].step].process == q
    requires q != p && Feeds(db.procs, q, p)
    ensures var r := Exec(flags, db, Deliver(i, now));
      Wakeable(flags, r, p) && ChildFinished(q) in r.notices && Stirs(r.procs, r.steps, ChildFinished(q), p)
  {
    FeederIsDone(db, -1, q, p);
    ResumptionRepeats(flags, db, i, now, q);
    LastSurvives(db.notices, i, ChildFinished(q));
    StaysWakeable(flags, db, Exec(flags, db, Deliver(i, now)), p);
  }

  /** The announced end of a child becomes a resumption in its parent. */
  lemma EndMovesUp(flags: Flags, db: Db, p: nat, i: nat, now: int, c: nat)
    requires Good(flags, db) && Wakeable(flags, db, p) && i < |db.notices| && db.notices[i] == ChildFinished(c)
    requires Feeds(db.procs, c, p)
    ensures c < |db.procs| && db.procs[c].link.Some?
    ensures var r := Exec(flags, db, Deliver(i, now));
      var l := db.procs[c].link.value;
      && Wakeable(flags, r, p) && ResumeStep(l.step) in r.notices && Stirs(r.procs, r.steps, ResumeStep(l.step), p)
      && l.step < |r.steps| && r.steps[l.step].process < c
  {
    assert NoticeOk(db.procs, db.steps, db.notices[i]) && LinkOk(db.procs, db.steps, c);
    var l := db.procs[c].link.value;
    FeederIsDone(db, -1, l.parent, p);
    EndIsPassedOn(flags, db, i, now, c);
    LastSurvives(db.notices, i, ResumeStep(l.step));
    var r := Exec(flags, db, Deliver(i, now));
    FeedsSame(db.procs, r.procs, l.parent, p);
    StaysWakeable(flags, db, r, p);
  }

  /** After these actions `p` is completed. */
  ghost predicate Ends(flags: Flags, db: Db, actions: seq<Action>, p: nat)
    requires Good(flags, db)
  {
    p < |Run(flags, db, actions).procs| && Run(flags, db, actions).procs[p].status.Finished?
  }

  /** Some run of deliveries alone completes `p`. */
  ghost predicate DeliveriesEnd(flags: Flags, db: Db, p: nat)
    requires Good(flags, db)
  {
    exists actions :: OnlyDeliveries(actions) && Ends(flags, db, actions, p)
  }

  lemma EndsFirst(flags: Flags, db: Db, first: Action, r: Db, rest: seq<Action>, p: nat)
    requires Good(flags, db) && r == Exec(flags, db, first) && Good(flags, r) && Ends(flags, r, rest, p)
    ensures Ends(flags, db, [first] + rest, p)
  {
    RunFirst(flags, db, first, rest);
  }

  lemma FirstDelivery(first: Action, rest: seq<Action>, p: nat)
    requires OnlyDeliveries(rest) && !first.CancelProcess?
    ensures Sparing([first] + rest, p)
    ensures first.Deliver? ==> OnlyDeliveries([first] + rest)
  {}

  lemma EndedBy(flags: Flags, db: Db, actions: seq<Action>, p: nat)
    requires Good(flags, db) && OnlyDeliveries(actions) && Ends(flags, db, actions, p)
    ensures DeliveriesEnd(flags, db, p)
  {}

  lemma DeliverFirst(flags: Flags, db: Db, first: Action, r: Db, p: nat)
    requires Good(flags, db) && Good(flags, r) && r == Exec(flags, db, first) && first.Deliver?
    requires DeliveriesEnd(flags, r, p)
    ensures DeliveriesEnd(flags, db, p)
  {
    var rest :| OnlyDeliveries(rest) && Ends(flags, r, rest, p);
    EndsFirst(flags, db, first, r, rest, p);
    FirstDelivery(first, rest, p);
    EndedBy(flags, db, [first] + rest, p);
  }

  lemma AlreadyEnded(flags: Flags, db: Db, p: nat)
    requires Good(flags, db) && p < |db.procs| && db.procs[p].status.Finished?
    ensures DeliveriesEnd(flags, db, p)
  {
    var none: seq<Action> := [];
    assert OnlyDeliveries(none) && Ends(flags, db, none, p);
  }

  /** From a resumption in the subtree, deliveries alone complete `p`. */
  lemma WakeByResumption(flags: Flags, db: Db, p: nat, s: nat, now: int)
    requires Good(flags, db) && Wakeable(flags, db, p)
    requires ResumeStep(s) in db.notices && Stirs(db.procs, db.steps, ResumeStep(s), p)
    ensures DeliveriesEnd(flags, db, p)
    decreases if s < |db.steps| then db.steps[s].process else 0, 1
  {
    var i :| 0 <= i < |db.notices| && db.notices[i] == ResumeStep(s);
    var q := db.steps[s].process;
    ExecGood(flags, db, Deliver(i, now));
    if q == p {
      ResumptionEnds(flags, db, i, now, p);
      AlreadyEnded(flags, Exec(flags, db, Deliver(i, now)), p);
    } else {
      ResumptionMovesUp(flags, db, p, i, now, q);
      WakeByEnd(flags, Exec(flags, db, Deliver(i, now)), p, q, now);
    }
    DeliverFirst(flags, db, Deliver(i, now), Exec(flags, db, Deliver(i, now)), p);
  }

  lemma WakeByEnd(flags: Flags, db: Db, p: nat, c: nat, now: int)
    requires Good(flags, db) && Wakeable(flags, db, p)
    requires ChildFinished(c) in db.notices && Stirs(db.procs, db.steps, ChildFinished(c), p)
    ensures DeliveriesEnd(flags, db, p)
    decreases c, 0
  {
    var i :| 0 <= i < |db.notices| && db.notices[i] == ChildFinished(c);
    EndMovesUp(flags, db, p, i, now, c);
    ExecGood(flags, db, Deliver(i, now));
    WakeByResumption(flags, Exec(flags, db, Deliver(i, now)), p, db.procs[c].link.value.step, now);
    DeliverFirst(flags, db, Deliver(i, now), Exec(flags, db, Deliver(i, now)), p);
  }

  /** Delivering what is outstanding completes a wakeable process that anything stirs. */
  lemma DeliveriesWake(flags: Flags, db: Db, p: nat)
    requires Good(flags, db) && Wakeable(flags, db, p) && !Still(db.procs, db.steps, db.notices, p)
    ensures DeliveriesEnd(flags, db, p)
  {
    var i :| 0 <= i < |db.notices| && Stirs(db.procs, db.steps, db.notices[i], p);
    match db.notices[i]
    case ResumeStep(s) => WakeByResumption(flags, db, p, s, 0);
    case ChildFinished(c) => WakeByEnd(flags, db, p, c, 0);
  }

  // ----- exactly the stranded ones are lost -----

  /** Templates in which no binding is mandatory. */
  function Lenient(catalog: Catalog, n: nat): Catalog {
    catalog.(bindings := seq(n, i => TplBinding(0, 0, CreateOnEnter, false, None, 0)))
  }

  function AboveAll(bindings: seq<Binding>): (n: nat)
    ensures forall i :: 0 <= i < |bindings| && bindings[i].binding.Some? ==> bindings[i].binding.value < n
  {
    if bindings == [] then 0
    else
      var rest := AboveAll(bindings[..|bindings| - 1]);
      var last := bindings[|bindings| - 1].binding;
      if last.Some? && last.value >= rest then last.value + 1 else rest
  }

  /** A root also needs its mandatory bindings settled; relaxing the templates does that. */
  lemma LenientIsWakeable(flags: Flags, db: Db, p: nat)
    requires Good(flags, db) && Overdue(db, p)
    ensures Wakeable(flags, Exec(flags, db, EditCatalog(Lenient(db.catalog, AboveAll(db.bindings)))), p)
  {
    var r := Exec(flags, db, EditCatalog(Lenient(db.catalog, AboveAll(db.bindings))));
    forall i | 0 <= i < |r.bindings| ensures !Mandatory(r.catalog, r.bindings[i]) {
      assert BindingOk(db.procs, db.steps, db.objects, db.bindings[i]);
    }
  }

  lemma Woken(flags: Flags, db: Db, p: nat)
    requires Good(flags, db) && Overdue(db, p) && !Still(db.procs, db.steps, db.notices, p)
    ensures Rescuable(flags, db, p)
  {
    var relax := EditCatalog(Lenient(db.catalog, AboveAll(db.bindings)));
    LenientIsWakeable(flags, db, p);
    ExecGood(flags, db, relax);
    DeliveriesWake(flags, Exec(flags, db, relax), p);
    RescuedAfter(flags, db, relax, Exec(flags, db, relax), p);
  }

  lemma RescuedAfter(flags: Flags, db: Db, first: Action, r: Db, p: nat)
    requires Good(flags, db) && Good(flags, r) && r == Exec(flags, db, first) && first.EditCatalog?
    requires DeliveriesEnd(flags, r, p)
    ensures Rescuable(flags, db, p)
  {
    var rest :| OnlyDeliveries(rest) && Ends(flags, r, rest, p);
    EndsFirst(flags, db, first, r, rest, p);
    FirstDelivery(first, rest, p);
    RescuedBy(flags, db, [first] + rest, p);
  }

  lemma RescuedBy(flags: Flags, db: Db, actions: seq<Action>, p: nat)
    requires Good(flags, db) && Sparing(actions, p) && Ends(flags, db, actions, p)
    ensures Rescuable(flags, db, p)
  {}

  ghost predicate Rescuable(flags: Flags, db: Db, p: nat)
    requires Good(flags, db)
  {
    exists actions :: Sparing(actions, p) && Ends(flags, db, actions, p)
  }

  /** A process whose steps are all completed is lost, short of being canceled, exactly when it
      is stranded: some run completes it if and only if something outstanding stirs it. */
  lemma LostIffStranded(flags: Flags, db: Db, p: nat)
    requires Good(flags, db) && Overdue(db, p)
    ensures Stranded(db, p) <==> !Rescuable(flags, db, p)
  {
    if Stranded(db, p) {
      forall actions | Sparing(actions, p) ensures !Ends(flags, db, actions, p) {
        StrandedForever(flags, db, actions, p);
      }
    } else {
      Woken(flags, db, p);
    }
  }

  // ----- how processes get stranded -----

  /** All steps of `p` but `s` are completed. */
  predicate DoneExcept(steps: seq<Step>, p: nat, s: nat) {
    forall x :: 0 <= x < |steps| && steps[x].process == p && x != s ==> steps[x].status.Completed?
  }

  /** The report of a canceled child under the ignore policy leaves the parent with all steps
      completed and beyond rescue exactly when, before the report, the parent was active, the
      call step was its only open one, and nothing outstanding stirred it. */
  lemma IgnoredCancellationStrandsIff(flags: Flags, db: Db, i: nat, now: int, c: nat)
    requires Good(flags, db) && i < |db.notices| && db.notices[i] == ChildAborted(c)
    requires c < |db.procs| && db.procs[c].link.Some? && db.procs[c].policy.Ignore?
    ensures var r := Exec(flags, db, Deliver(i, now));
      var l := db.procs[c].link.value;
      && Good(flags, r)
      && ((Overdue(r, l.parent) && !Rescuable(flags, r, l.parent)) <==>
            (&& db.procs[l.parent].status.Active?
             && DoneExcept(db.steps, l.parent, l.step)
             && Still(db.procs, db.steps, db.notices, l.parent)))
  {
    ExecGood(flags, db, Deliver(i, now));
    var r, p := Exec(flags, db, Deliver(i, now)), db.procs[c].link.value.parent;
    IgnoredReport(flags, db, i, now, c);
    StillSame(db, r, i, p);
    if Overdue(r, p) { LostIffStranded(flags, r, p); }
  }

  /** What such a report does: the call step is completed, statuses and links stay, and the
      report is gone. */
  lemma IgnoredReport(flags: Flags, db: Db, i: nat, now: int, c: nat)
    requires Good(flags, db) && i < |db.notices| && db.notices[i] == ChildAborted(c)
    requires c < |db.procs| && db.procs[c].link.Some? && db.procs[c].policy.Ignore?
    ensures var r := Exec(flags, db, Deliver(i, now));
      var l := db.procs[c].link.value;
      && SameStatuses(db, r) && r.notices == Without(db.notices, i)
      && r.steps == CompleteCallStep(db.steps, l.step)
      && (Overdue(r, l.parent) <==> db.procs[l.parent].status.Active? && DoneExcept(db.steps, l.parent, l.step))
  {
    assert NoticeOk(db.procs, db.steps, db.notices[i]);
    assert LinkOk(db.procs, db.steps, c);
    var l := db.procs[c].link.value;
    var r := Exec(flags, db, Deliver(i, now));
    Effects.EndingDecides(flags, db, c, true, now);
    assert r.steps[l.step].process == l.parent;
  }

  ghost predicate SameStatuses(db: Db, r: Db) {
    && |r.procs| == |db.procs| && |r.steps| == |db.steps|
    && (forall x :: 0 <= x < |db.procs| ==> r.procs[x].link == db.procs[x].link && r.procs[x].status == db.procs[x].status)
    && (forall x :: 0 <= x < |db.steps| ==> r.steps[x].process == db.steps[x].process)
  }

  lemma StirsSame(db: Db, r: Db, n: Notice, p: nat)
    requires SameStatuses(db, r)
    ensures Stirs(r.procs, r.steps, n, p) == Stirs(db.procs, db.steps, n, p)
  {
    match n
    case ResumeStep(s) => if s < |db.steps| { FeedsSame(db.procs, r.procs, db.steps[s].process, p); }
    case ChildFinished(x) => FeedsSame(db.procs, r.procs, x, p);
    case ChildAborted(_) =>
  }

  /** Dropping a cancellation report neither calms nor stirs anything. */
  lemma StillSame(db: Db, r: Db, i: nat, p: nat)
    requires SameStatuses(db, r) && i < |db.notices| && db.notices[i].ChildAborted?
    requires r.notices == Without(db.notices, i)
    ensures Still(r.procs, r.steps, r.notices, p) <==> Still(db.procs, db.steps, db.notices, p)
  {
    forall n ensures Stirs(r.procs, r.steps, n, p) == Stirs(db.procs, db.steps, n, p) { StirsSame(db, r, n, p); }
    WithoutMembers(db.notices, i);
    if Still(r.procs, r.steps, r.notices, p) {
      forall k | 0 <= k < |db.notices| ensures !Stirs(db.procs, db.steps, db.notices[k], p) {
        if k != i { assert r.notices[if k < i then k else k - 1] == db.notices[k]; }
      }
    } else {
      var k :| 0 <= k < |r.notices| && Stirs(r.procs, r.steps, r.notices[k], p);
      assert db.notices[if k < i then k else k + 1] == r.notices[k];
    }
  }

  /** A child process is stranded only where the cancellation of a child of its own was ignored. */
  lemma StrandedNeedsIgnored(flags: Flags, db: Db, p: nat)
    requires Good(flags, db) && Stranded(db, p) && db.procs[p].link.Some?
    ensures exists c :: 0 <= c < |db.procs| && IgnoredChild(db.procs[c], p)
  {
    assert NotStuck(db.procs, db.steps, db.notices, p);
    var s :| 0 <= s < |db.steps| && db.steps[s].process == p && WillResume(db.procs, db.notices, s);
    StirringMember(db.procs, db.steps, db.notices, ResumeStep(s), p);
    var c :| 0 <= c < |db.procs| && AbortedChild(db.procs[c], s);
    assert LinkOk(db.procs, db.steps, c) && CallStepOk(db.procs, db.steps, db.notices, c);
    assert IgnoredChild(db.procs[c], p);
  }

  predicate IgnoredChild(proc: Process, p: nat) {
    proc.link.Some? && proc.link.value.parent == p && proc.status.Aborted? && proc.policy.Ignore?
  }

  lemma StirringMember(procs: seq<Process>, steps: seq<Step>, notices: seq<Notice>, n: Notice, p: nat)
    ensures n in notices && Stirs(procs, steps, n, p) ==> !Still(procs, steps, notices, p)
  {}
}
