/** What holds in every state the engine can reach. */
module EngineTheorems {
  import opened Basics
  import opened Json
  import opened Tables
  import opened StepObjects
  import opened Instantiation
  import opened ProjectHost
  import opened ChildProcess
  import opened Completion
  import opened Orchestrator
  import opened Protocol
  import opened Preservation
  import opened Evolution
  import opened Soundness
  import opened Runs

  // ----- no lost wake-up -----

  /** A blocked step waits for exactly one child. A completed child's notice is still under
      way; a canceled child leaves it waiting silently only under pause_parent, or when the
      child was itself canceled through fail_parent. */
  lemma NoLostWakeUp(flags: Flags, actions: seq<Action>)
    ensures var db := Reached(flags, actions);
      forall s :: 0 <= s < |db.steps| && db.steps[s].status.Blocked? ==> exists c :: WaitsFor(db, s, c)
  {
    var db := Reached(flags, actions);
    forall s | 0 <= s < |db.steps| && db.steps[s].status.Blocked? ensures exists c :: WaitsFor(db, s, c) {
      assert HasChild(db.procs, s);
      var c :| 0 <= c < |db.procs| && ChildOf(db.procs[c], s);
      assert CallStepOk(db.procs, db.steps, db.notices, c);
      forall d | 0 <= d < |db.procs| && ChildOf(db.procs[d], s) ensures d == c {
        assert SameCallStep(db.procs[d], db.procs[c]);
      }
      assert WaitsFor(db, s, c);
    }
  }

  /** `c` is the one child of step `s`, and the step will hear of its end, but for the two
      policies above. */
  ghost predicate WaitsFor(db: Db, s: nat, c: nat) {
    && c < |db.procs| && ChildOf(db.procs[c], s)
    && (forall d :: 0 <= d < |db.procs| && ChildOf(db.procs[d], s) ==> d == c)
    && (db.procs[c].status.Finished? ==> ChildFinished(c) in db.notices)
    && (db.procs[c].status.Aborted? ==>
          ChildAborted(c) in db.notices || db.procs[c].policy.PauseParent? || FailedByChild(db.steps, c))
  }

  /** The last part of the three orchestrator transactions changes at most its own process,
      to completed, and a child never completes without its notice. */
  lemma ConcludeLeavesNotice(flags: Flags, db: Db, s: nat, now: int, q: nat)
    requires s < |db.steps| && q < |db.procs| && DbInv(db, db.steps[s].process)
    requires Conclude(flags, db, s, now).Ok?
    ensures var r := Conclude(flags, db, s, now).value;
      && q < |r.procs|
      && (r.procs[q].status != db.procs[q].status ==>
            r.procs[q].status.Finished? && (db.procs[q].link.Some? ==> ChildFinished(q) in r.notices))
  {
    EnableNextInv(flags, db, db.steps[s].process, s, now);
    MaybeCompleteChanges(flags, EnableNext(flags, db, s, now).value, db.steps[s].process, q);
  }

  lemma MaybeCompleteChanges(flags: Flags, db: Db, p: nat, q: nat)
    requires p < |db.procs| && q < |db.procs|
    ensures var (r, terminal) := MaybeComplete(flags, db, p);
      && |r.procs| == |db.procs|
      && (r.procs[q].status != db.procs[q].status ==>
            q == p && r.procs[q].status.Finished? && (db.procs[q].link.Some? ==> terminal))
  {}

  lemma AdvanceProducesNotice(flags: Flags, db: Db, s: nat, now: int, c: nat)
    requires Good(flags, db) && c < |db.procs| && db.procs[c].link.Some? && db.procs[c].status.Active?
    ensures var r := Committed(db, AttemptAdvance(flags, db, s, now)); Announces(r, r, c)
  {
    if s < |db.steps| && Idle(db.steps[s].status) && AttemptAdvance(flags, db, s, now).Ok? {
      AdvanceHeadInv(flags, db, -1, s, now);
      var head := AdvanceHead(flags, db, s, now).value;
      if head.steps[s].taskType.Automated? && head.steps[s].status.Ready? && AdvanceOpen(flags, db, s, now) {
        AutomatedProducesNotice(flags, head, s, now, c);
      }
    }
  }

  lemma AutomatedProducesNotice(flags: Flags, head: Db, s: nat, now: int, c: nat)
    requires DbInv(head, -1) && s < |head.steps| && head.steps[s].status.Ready?
    requires c < |head.procs| && head.procs[c].link.Some? && head.procs[c].status.Active?
    requires Conclude(flags, Move(Move(head, s, InProgress), s, Completed), s, now).Ok?
    ensures var r := Conclude(flags, Move(Move(head, s, InProgress), s, Completed), s, now).value; Announces(r, r, c)
  {
    MoveKeepsInv(head.procs, head.steps, head.notices, -1, s, InProgress);
    var started := Move(head, s, InProgress);
    MoveKeepsInv(started.procs, started.steps, started.notices, -1, s, Completed);
    ConcludeLeavesNotice(flags, Move(started, s, Completed), s, now, c);
  }

  lemma DeliveryProducesNotice(flags: Flags, db: Db, i: nat, now: int, c: nat)
    requires Good(flags, db) && c < |db.procs| && db.procs[c].link.Some? && db.procs[c].status.Active?
    requires i < |db.notices|
    ensures Announces(Handle(flags, db, db.notices[i], now), Exec(flags, db, Deliver(i, now)), c)
  {
    var r := Handle(flags, db, db.notices[i], now);
    HandlingProducesNotice(flags, db, db.notices[i], now, c);
    WithoutMembers(r.notices, i);
    if ChildFinished(c) in r.notices { assert r.notices[i] == db.notices[i] != ChildFinished(c); }
  }

  lemma HandlingProducesNotice(flags: Flags, db: Db, n: Notice, now: int, c: nat)
    requires Good(flags, db) && c < |db.procs| && db.procs[c].link.Some? && db.procs[c].status.Active?
    requires n in db.notices
    ensures n != ChildFinished(c)
    ensures Announces(Handle(flags, db, n, now), Handle(flags, db, n, now), c)
  {
    assert NoticeOk(db.procs, db.steps, n);
    if n.ResumeStep? && flags.callProcess && db.steps[n.step].status.Completed? && ResumeParent(flags, db, n.step, now).Ok? {
      ConcludeLeavesNotice(flags, db, n.step, now, c);
    }
  }

  /** If child `c` is completed in `r`, its terminal notice is outstanding in `after`. */
  ghost predicate Announces(r: Db, after: Db, c: nat) {
    c < |r.procs| && r.procs[c].status.Finished? ==> ChildFinished(c) in after.notices
  }

  lemma ManualProducesNotice(flags: Flags, db: Db, s: nat, now: int, c: nat)
    requires Good(flags, db) && c < |db.procs| && db.procs[c].link.Some? && db.procs[c].status.Active?
    ensures var r := Committed(db, MarkCompleted(flags, db, s, now)); Announces(r, r, c)
  {
    var r := Committed(db, MarkCompleted(flags, db, s, now));
    if c < |r.procs| && r.procs[c].status.Finished? {
      MoveKeepsInv(db.procs, db.steps, db.notices, -1, s, Completed);
      ConcludeLeavesNotice(flags, Move(db, s, Completed), s, now, c);
    }
  }

  /** The commit that completes a child process always produces its terminal notice. */
  lemma CompletionProducesNotice(flags: Flags, db: Db, a: Action, c: nat)
    requires Good(flags, db) && c < |db.procs| && db.procs[c].link.Some? && db.procs[c].status.Active?
    ensures Announces(Exec(flags, db, a), Exec(flags, db, a), c)
  {
    match a
    case Advance(s, now) => AdvanceProducesNotice(flags, db, s, now, c);
    case Complete(s, now) => ManualProducesNotice(flags, db, s, now, c);
    case Deliver(i, now) => if i < |db.notices| { DeliveryProducesNotice(flags, db, i, now, c); }
    case StartProcess(_, _, _, _, _, _, _) =>
    case ValidateObject(_) =>
    case CancelProcess(_) =>
    case RecordMet(_) =>
    case ReviewRequirement(_, _) =>
    case AddObject(_) =>
    case EditObject(_, _, _) =>
    case EditCatalog(_) =>
  }

  // ----- what becomes of a call step -----

  /** Where the call step of child `c` stands once the child's ending, if any, was handled:
      blocked while the child runs, completed after a completed child, and after a canceled one
      as the failure policy says. A fail_parent step left blocked is that of a child which was
      itself canceled through fail_parent, and so never reported. */
  ghost predicate Fate(db: Db, c: nat)
    requires c < |db.procs| && db.procs[c].link.Some? && ValidRefs(db)
  {
    var l := db.procs[c].link.value;
    var step := db.steps[l.step];
    match db.procs[c].status
    case Active => step.status.Blocked? && step.reason.WaitingChild?
    case Finished => step.status.Completed? && step.reason.NoReason?
    case Aborted =>
      match db.procs[c].policy
      case Ignore => step.status.Completed? && step.reason.NoReason?
      case PauseParent => step.status.Blocked? && step.reason.WaitingChild?
      case FailParent =>
        || (step.status.Canceled? && step.reason.ChildFailed? && db.procs[l.parent].status.Aborted?)
        || (step.status.Blocked? && step.reason.WaitingChild? && FailedByChild(db.steps, c))
  }

  /** Over a child's whole life, in every run: its own status and the failure policy decide the
      step that started it, from the moment its ending has been handled. */
  lemma CallStepFate(flags: Flags, actions: seq<Action>, c: nat)
    requires var db := Reached(flags, actions);
      && c < |db.procs| && db.procs[c].link.Some?
      && ChildFinished(c) !in db.notices && ChildAborted(c) !in db.notices
    ensures Fate(Reached(flags, actions), c)
  {
    var db := Reached(flags, actions);
    assert LinkOk(db.procs, db.steps, c) && CallStepOk(db.procs, db.steps, db.notices, c);
    assert ReasonOk(db.steps[db.procs[c].link.value.step]);
    if FailedByChild(db.steps, c) { FailedOnlyByPolicy(flags, db, c); }
  }

  /** Only fail_parent cancels steps. */
  lemma FailedOnlyByPolicy(flags: Flags, db: Db, p: nat)
    requires Good(flags, db) && p < |db.procs| && FailedByChild(db.steps, p)
    ensures db.procs[p].policy.FailParent?
  {
    var w :| 0 <= w < |db.steps| && db.steps[w].process == p && db.steps[w].status.Canceled?;
    assert HasChild(db.procs, w);
    var d :| 0 <= d < |db.procs| && ChildOf(db.procs[d], w);
    assert LinkOk(db.procs, db.steps, d) && CallStepOk(db.procs, db.steps, db.notices, d);
  }

  // ----- quiescence -----

  /** With nothing left to deliver, every blocked step's child is still running, or was
      canceled under a policy that leaves the parent waiting; and a child process whose steps
      are all completed has ended, unless the cancellation of one of its own children was
      ignored. */
  lemma Quiescent(flags: Flags, actions: seq<Action>)
    requires Reached(flags, actions).notices == []
    ensures var db := Reached(flags, actions);
      && (forall c :: 0 <= c < |db.procs| && db.procs[c].link.Some? && db.steps[db.procs[c].link.value.step].status.Blocked? ==>
            (db.procs[c].status.Active?
             || (db.procs[c].status.Aborted? && (db.procs[c].policy.PauseParent? || FailedByChild(db.steps, c)))))
      && (forall p :: 0 <= p < |db.procs| && db.procs[p].link.Some? && AllDone(db.steps, p) ==>
            (Terminal(db.procs[p].status)
             || exists c :: 0 <= c < |db.procs| && IgnoredChildOf(db, c, p)))
  {
    var db := Reached(flags, actions);
    forall c | 0 <= c < |db.procs| && db.procs[c].link.Some? && db.steps[db.procs[c].link.value.step].status.Blocked?
      ensures db.procs[c].status.Active?
             || (db.procs[c].status.Aborted? && (db.procs[c].policy.PauseParent? || FailedByChild(db.steps, c)))
    {
      assert CallStepOk(db.procs, db.steps, db.notices, c);
    }
    forall p | 0 <= p < |db.procs| && db.procs[p].link.Some? && AllDone(db.steps, p) && !Terminal(db.procs[p].status)
      ensures exists c :: 0 <= c < |db.procs| && IgnoredChildOf(db, c, p)
    {
      assert NotStuck(db.procs, db.steps, db.notices, p);
      var s :| 0 <= s < |db.steps| && db.steps[s].process == p && WillResume(db.procs, db.notices, s);
      var c :| 0 <= c < |db.procs| && AbortedChild(db.procs[c], s);
      assert LinkOk(db.procs, db.steps, c) && CallStepOk(db.procs, db.steps, db.notices, c);
      assert IgnoredChildOf(db, c, p);
    }
  }

  /** `c` is a canceled child of process `p` whose cancellation was ignored. */
  ghost predicate IgnoredChildOf(db: Db, c: nat, p: nat)
    requires c < |db.procs|
  {
    db.procs[c].link.Some? && db.procs[c].link.value.parent == p && db.procs[c].status.Aborted? && db.procs[c].policy.Ignore?
  }

  // ----- statuses only climb -----

  /** Completed and canceled are absorbing, links and tenants are fixed, context keys stay,
      provisioned instances stay: between any two points of any run. */
  lemma NothingGoesBack(flags: Flags, before: seq<Action>, after: seq<Action>)
    ensures Evolves(Reached(flags, before), Reached(flags, before + after))
  {
    EmptyIsGood(flags);
    RunEvolves(flags, Empty(), before + after, |before|);
    assert (before + after)[..|before|] == before;
  }

  /** in_progress is only ever a state inside a transaction. */
  lemma InProgressIsNeverCommitted(flags: Flags, actions: seq<Action>)
    ensures forall s :: 0 <= s < |Reached(flags, actions).steps| ==> !Reached(flags, actions).steps[s].status.InProgress?
  {}

  function StatusAt(db: Db, s: nat): StepStatus
    requires s < |db.steps|
  {
    db.steps[s].status
  }

  /** How many of the actions change the status of step `s`. */
  ghost function Changes(flags: Flags, db: Db, actions: seq<Action>, s: nat): nat
    requires Good(flags, db) && s < |db.steps|
    decreases |actions|
  {
    if actions == [] then 0
    else
      var init := actions[..|actions| - 1];
      RunEvolves(flags, db, init, 0);
      RunEvolves(flags, db, actions, 0);
      Changes(flags, db, init, s)
        + (if StatusAt(Run(flags, db, actions), s) != StatusAt(Run(flags, db, init), s) then 1 else 0)
  }

  function Height(status: StepStatus): nat {
    match status
    case Pending => 0
    case Ready => 1
    case InProgress => 1
    case Blocked => 1
    case Completed => 2
    case Canceled => 2
  }

  /** A step changes its committed status at most twice in its life. */
  lemma {:induction false} AtMostTwoChanges(flags: Flags, db: Db, actions: seq<Action>, s: nat)
    requires Good(flags, db) && s < |db.steps|
    ensures s < |Run(flags, db, actions).steps|
    ensures Changes(flags, db, actions, s) + Height(StatusAt(db, s)) <= Height(StatusAt(Run(flags, db, actions), s)) <= 2
    decreases |actions|
  {
    if actions != [] {
      var init := actions[..|actions| - 1];
      AtMostTwoChanges(flags, db, init, s);
      var before := Run(flags, db, init);
      var r := Run(flags, db, actions);
      ExecGood(flags, before, actions[|actions| - 1]);
      assert StepEvolves(before.steps[s], r.steps[s]);
      assert !before.steps[s].status.InProgress? && !r.steps[s].status.InProgress?;
    }
  }

  // ----- completed processes -----

  /** A completed process has steps, all of them completed, and all its children ended. */
  lemma CompletedProcessIsDone(flags: Flags, actions: seq<Action>)
    ensures var db := Reached(flags, actions);
      forall p :: 0 <= p < |db.procs| && db.procs[p].status.Finished? ==>
        AllDone(db.steps, p) && NoActiveChild(db.procs, p)
  {
    var db := Reached(flags, actions);
    forall p | 0 <= p < |db.procs| && db.procs[p].status.Finished? ensures AllDone(db.steps, p) && NoActiveChild(db.procs, p) {
      forall c | 0 <= c < |db.procs| && db.procs[c].link.Some? && db.procs[c].link.value.parent == p
        ensures Terminal(db.procs[c].status)
      {
        assert LinkOk(db.procs, db.steps, c) && CallStepOk(db.procs, db.steps, db.notices, c);
      }
    }
  }

  /** Whenever the host completion hook and `process_completed` fired for `p`, all its steps
      are completed, it is no longer active, and it is a root or a canceled child. */
  lemma HooksFireForEndedProcesses(flags: Flags, actions: seq<Action>)
    ensures forall p :: p in Reached(flags, actions).hooks ==> HookOk(Reached(flags, actions), p)
  {}

  // ----- the forest -----

  /** The root of the tree that process `c` belongs to. */
  ghost function RootOf(procs: seq<Process>, steps: seq<Step>, c: nat): (root: nat)
    requires Forest(procs, steps) && c < |procs|
    ensures root <= c
    decreases c
  {
    if procs[c].link.None? then c
    else
      assert LinkOk(procs, steps, c);
      RootOf(procs, steps, procs[c].link.value.parent)
  }

  /** Tenant and failure policy are constant along every tree. */
  lemma TreesShareTenantAndPolicy(flags: Flags, actions: seq<Action>)
    ensures var db := Reached(flags, actions);
      forall c :: 0 <= c < |db.procs| ==> LikeItsRoot(db.procs, db.steps, c)
  {
    var db := Reached(flags, actions);
    forall c | 0 <= c < |db.procs| ensures LikeItsRoot(db.procs, db.steps, c) {
      ForestTreesShare(db.procs, db.steps, c);
    }
  }

  ghost predicate LikeItsRoot(procs: seq<Process>, steps: seq<Step>, c: nat)
    requires Forest(procs, steps) && c < |procs|
  {
    var root := procs[RootOf(procs, steps, c)];
    root.link.None? && root.tenant == procs[c].tenant && root.policy == procs[c].policy
  }

  lemma {:induction false} ForestTreesShare(procs: seq<Process>, steps: seq<Step>, c: nat)
    requires Forest(procs, steps) && c < |procs|
    ensures LikeItsRoot(procs, steps, c)
    decreases c
  {
    if procs[c].link.Some? {
      assert LinkOk(procs, steps, c);
      ForestTreesShare(procs, steps, procs[c].link.value.parent);
    }
  }

  /** A child is younger than its parent, hangs off a call_process step of that parent, and
      no step has two children. */
  lemma ProcessesFormAForest(flags: Flags, actions: seq<Action>)
    ensures var db := Reached(flags, actions);
      forall c :: 0 <= c < |db.procs| && db.procs[c].link.Some? ==> HangsOff(db, c)
  {
    var db := Reached(flags, actions);
    forall c | 0 <= c < |db.procs| && db.procs[c].link.Some? ensures HangsOff(db, c) {
      assert LinkOk(db.procs, db.steps, c);
      forall d | 0 <= d < |db.procs| && ChildOf(db.procs[d], db.procs[c].link.value.step) ensures d == c {
        assert SameCallStep(db.procs[d], db.procs[c]);
      }
    }
  }

  ghost predicate HangsOff(db: Db, c: nat)
    requires c < |db.procs| && db.procs[c].link.Some?
  {
    var l := db.procs[c].link.value;
    && l.parent < c
    && l.step < |db.steps| && db.steps[l.step].process == l.parent && db.steps[l.step].taskType.CallProcess?
    && forall d :: 0 <= d < |db.procs| && ChildOf(db.procs[d], l.step) ==> d == c
  }

  // ----- the upward cascade terminates -----

  /** Process ids bound how long a notice can keep the cascade going. */
  function NoticeWeight(steps: seq<Step>, n: Notice): nat {
    match n
    case ChildFinished(c) => 2 * c + 1
    case ChildAborted(_) => 1
    case ResumeStep(s) => if s < |steps| then 2 * steps[s].process + 2 else 1
  }

  function Weight(steps: seq<Step>, notices: seq<Notice>): nat {
    if notices == [] then 0 else NoticeWeight(steps, notices[0]) + Weight(steps, notices[1..])
  }

  lemma {:induction false} WeightAppends(steps: seq<Step>, a: seq<Notice>, b: seq<Notice>)
    ensures Weight(steps, a + b) == Weight(steps, a) + Weight(steps, b)
    decreases |a|
  {
    if a == [] {
      assert a + b == b;
    } else {
      WeightAppends(steps, a[1..], b);
      assert (a + b)[1..] == a[1..] + b;
    }
  }

  lemma {:induction false} WeightStable(steps: seq<Step>, steps': seq<Step>, notices: seq<Notice>)
    requires StepsEvolve(steps, steps')
    requires forall n :: n in notices && n.ResumeStep? ==> n.step < |steps|
    ensures Weight(steps', notices) == Weight(steps, notices)
    decreases |notices|
  {
    if notices != [] {
      assert notices[0] in notices && forall n :: n in notices[1..] ==> n in notices;
      assert notices[0].ResumeStep? ==> StepEvolves(steps[notices[0].step], steps'[notices[0].step]);
      WeightStable(steps, steps', notices[1..]);
    }
  }

  lemma WeightWithout(steps: seq<Step>, notices: seq<Notice>, i: nat)
    requires i < |notices|
    ensures Weight(steps, notices) == Weight(steps, Without(notices, i)) + NoticeWeight(steps, notices[i])
  {
    assert notices == notices[..i] + ([notices[i]] + notices[i + 1..]);
    WeightAppends(steps, notices[..i], [notices[i]] + notices[i + 1..]);
    WeightAppends(steps, [notices[i]], notices[i + 1..]);
    WeightAppends(steps, notices[..i], notices[i + 1..]);
  }

  /** Handling a notice produces at most one more, for an older process. */
  lemma HandlingAdds(flags: Flags, db: Db, n: Notice, now: int)
    requires Good(flags, db) && n in db.notices
    ensures var added := Handle(flags, db, n, now).notices[|db.notices|..];
      added == [] || (|added| == 1 && Follows(db, n, added[0]))
  {
    assert NoticeOk(db.procs, db.steps, n);
    if !n.ResumeStep? && db.procs[n.child].link.Some? { assert LinkOk(db.procs, db.steps, n.child); }
  }

  /** A completed child is followed by a resumption in its parent, and that by the end of the
      parent itself. */
  ghost predicate Follows(db: Db, n: Notice, next: Notice) {
    match n
    case ChildFinished(c) =>
      next.ResumeStep? && next.step < |db.steps| && db.steps[next.step].process < c
    case ChildAborted(_) => false
    case ResumeStep(s) => s < |db.steps| && next == ChildFinished(db.steps[s].process)
  }

  /** Every delivery lowers the weight of what is outstanding. */
  lemma DeliveryLowersWeight(flags: Flags, db: Db, i: nat, now: int)
    requires Good(flags, db) && i < |db.notices|
    ensures var r := Exec(flags, db, Deliver(i, now));
      Weight(r.steps, r.notices) < Weight(db.steps, db.notices)
  {
    var n := db.notices[i];
    HandlingEvolves(flags, db, n, now);
    HandlingAdds(flags, db, n, now);
    ResumptionsExist(db);
    HandledWeight(db, Handle(flags, db, n, now), i);
  }

  lemma HandlingEvolves(flags: Flags, db: Db, n: Notice, now: int)
    requires Good(flags, db) && n in db.notices
    ensures Evolves(db, Handle(flags, db, n, now))
  {
    HandleGood(flags, db, n, now);
  }

  lemma ResumptionsExist(db: Db)
    requires DbInv(db, -1)
    ensures forall m :: m in db.notices && m.ResumeStep? ==> m.step < |db.steps|
  {
    assert forall m :: m in db.notices ==> NoticeOk(db.procs, db.steps, m);
  }

  lemma HandledWeight(db: Db, handled: Db, i: nat)
    requires i < |db.notices| && Evolves(db, handled) && db.notices <= handled.notices
    requires forall m :: m in db.notices && m.ResumeStep? ==> m.step < |db.steps|
    requires var added := handled.notices[|db.notices|..];
      added == [] || (|added| == 1 && Follows(db, db.notices[i], added[0]))
    ensures Weight(handled.steps, Without(handled.notices, i)) < Weight(db.steps, db.notices)
  {
    var added := handled.notices[|db.notices|..];
    assert handled.notices == db.notices + added;
    WeightWithout(handled.steps, handled.notices, i);
    WeightAppends(handled.steps, db.notices, added);
    WeightStable(db.steps, handled.steps, db.notices);
    AddedWeight(db, handled, db.notices[i], added);
  }

  lemma AddedWeight(db: Db, handled: Db, n: Notice, added: seq<Notice>)
    requires Evolves(db, handled)
    requires added == [] || (|added| == 1 && Follows(db, n, added[0]))
    requires n.ResumeStep? ==> n.step < |db.steps|
    ensures Weight(handled.steps, added) < NoticeWeight(handled.steps, n)
  {
    if added != [] {
      assert added[1..] == [];
      if n.ResumeStep? { assert StepEvolves(db.steps[n.step], handled.steps[n.step]); }
      if added[0].ResumeStep? { assert StepEvolves(db.steps[added[0].step], handled.steps[added[0].step]); }
    }
  }

  /** Delivering notices alone comes to an end: a run of nothing but deliveries is no longer
      than the weight it starts with. */
  lemma {:induction false} CascadeTerminates(flags: Flags, db: Db, deliveries: seq<(nat, int)>)
    requires Good(flags, db) && AllDeliverable(flags, db, deliveries)
    ensures |deliveries| <= Weight(db.steps, db.notices)
    decreases |deliveries|
  {
    if deliveries != [] {
      var a := Deliver(deliveries[0].0, deliveries[0].1);
      ExecGood(flags, db, a);
      DeliveryLowersWeight(flags, db, deliveries[0].0, deliveries[0].1);
      CascadeTerminates(flags, Exec(flags, db, a), deliveries[1..]);
    }
  }

  /** Each delivery in turn names an outstanding notice. */
  ghost predicate AllDeliverable(flags: Flags, db: Db, deliveries: seq<(nat, int)>)
    requires Good(flags, db)
    decreases |deliveries|
  {
    deliveries == [] ||
    (deliveries[0].0 < |db.notices| &&
     (var a := Deliver(deliveries[0].0, deliveries[0].1);
      ExecGood(flags, db, a);
      AllDeliverable(flags, Exec(flags, db, a), deliveries[1..])))
  }

  // ----- binding rows and the kanban mirror -----

  /** pending: nothing provisioned; active or valid: an instance, of the process's tenant,
      shared with no other row; a snapshot exactly for a valid row, and never an empty one. */
  lemma BindingLifecycle(flags: Flags, actions: seq<Action>)
    ensures var db := Reached(flags, actions);
      && (forall b :: 0 <= b < |db.bindings| ==> BindingOk(db.procs, db.steps, db.objects, db.bindings[b]))
      && (forall i, j :: 0 <= i < |db.bindings| && 0 <= j < |db.bindings| && SharesObject(db.bindings[i], db.bindings[j]) ==> i == j)
  {}

  /** Every task of a project sits in the column mapped from its step's status; a step that
      spawned a child leaves its task in the column it had while pending. */
  lemma KanbanMirror(flags: Flags, actions: seq<Action>)
    ensures var db := Reached(flags, actions);
      forall t :: 0 <= t < |db.tasks| ==> Mirrors(db, db.tasks[t])
  {
    var db := Reached(flags, actions);
    forall t | 0 <= t < |db.tasks| ensures Mirrors(db, db.tasks[t]) {
      assert TaskOk(db.procs, db.steps, db.columns, db.tasks[t]);
    }
  }

  ghost predicate Mirrors(db: Db, task: Task) {
    && task.step < |db.steps|
    && var key := (task.project, Shown(db.procs, db.steps, task.step));
    && key in db.columns && task.column == db.columns[key]
  }

  // ----- contexts -----

  /** A spawned child's context extends its parent's, the template patch winning, and names
      the parent. */
  lemma ChildContextExtendsParent(flags: Flags, db: Db, s: nat)
    requires s < |db.steps| && ValidRefs(db) && !HasChild(db.procs, s)
    ensures Spawn(flags, db, s).Ok? ==>
      && db.steps[s].template < |db.catalog.steps|
      && var r := Spawn(flags, db, s).value;
      var parent := db.procs[db.steps[s].process];
      var patch := RecordOrEmpty(db.catalog.steps[db.steps[s].template].contextPatch);
      && |r.procs| == |db.procs| + 1 && r.procs[|db.procs|].context.Some?
      && var ctx := r.procs[|db.procs|].context.value;
      && PARENT_KEY in ctx && ctx[PARENT_KEY] == Num(RowId(db.steps[s].process))
      && (forall k :: k in RecordOrEmpty(parent.context) ==> k in ctx)
      && (forall k :: k in patch && k != PARENT_KEY ==> k in ctx && ctx[k] == patch[k])
      && (forall k :: k in RecordOrEmpty(parent.context) && k !in patch && k != PARENT_KEY ==>
            ctx[k] == RecordOrEmpty(parent.context)[k])
      && (forall k :: k in ctx ==> k == PARENT_KEY || k in patch || k in RecordOrEmpty(parent.context))
  {}

  /** Handling the same completed child twice in a row changes nothing but the merge stamp
      (and announces the resumption again). */
  lemma HandlingTwiceIsHandlingOnce(flags: Flags, db: Db, c: nat, now: int, later: int)
    requires Good(flags, db) && flags.callProcess
    requires c < |db.procs| && db.procs[c].link.Some? && db.procs[c].status.Finished?
    ensures var once := HandleTerminal(flags, db, c, false, now);
      var twice := HandleTerminal(flags, once, c, false, later);
      var p := db.procs[c].link.value.parent;
      && p < |once.procs| && once.procs[p].context.Some?
      && twice == once.(
           procs := once.procs[p := once.procs[p].(context := Some(once.procs[p].context.value[MERGED_KEY := Num(later)]))],
           notices := once.notices + [ResumeStep(db.procs[c].link.value.step)])
  {
    var l := db.procs[c].link.value;
    assert LinkOk(db.procs, db.steps, c);
    var once := HandleTerminal(flags, db, c, false, now);
    var child := RecordOrEmpty(db.procs[c].context);
    assert once.procs[c] == db.procs[c];
    assert MergedContext(once.procs[l.parent].context, db.procs[c].context, later)
        == once.procs[l.parent].context.value[MERGED_KEY := Num(later)];
    assert CompleteCallStep(once.steps, l.step) == once.steps;
  }
}
