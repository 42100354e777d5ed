/** What an advance, a completion and a resumption do, exactly, in terms of the rows before and
    after: which steps move and to what, which process ends, what is announced, and when the
    completion hook fires. */
module Conclusions {
  import opened Basics
  import opened Json
  import opened Tables
  import opened StepObjects
  import opened Instantiation
  import opened ProjectHost
  import opened ChildProcess
  import opened Completion
  import opened Orchestrator
  import opened Protocol
  import opened Preservation
  import opened Evolution
  import opened Soundness
  import opened Runs
  import opened Starting
  import opened Reference
  import opened Provisioning
  import Effects

  // ----- the end of a transaction -----

  /** Process `p` ends if it can, no other process changes, new ones are active, and the hook fires for `p` when all
      is settled and `p` is a root, or a child that was canceled. */
  ghost predicate Settles(flags: Flags, db: Db, r: Db, p: nat) {
    && p < |db.procs| <= |r.procs|
    && var proc := db.procs[p];
    && r.procs[p] == proc.(status :=
         if proc.status.Active? && EveryStepCompleted(r, p) && (proc.link.Some? || Finishable(flags, r, p))
         then Finished else proc.status)
    && (forall q :: 0 <= q < |db.procs| && q != p ==> r.procs[q] == db.procs[q])
    && (forall q :: |db.procs| <= q < |r.procs| ==> r.procs[q].status.Active?)
    && r.hooks == db.hooks + (if Finishable(flags, r, p) && (proc.link.None? || proc.status.Aborted?) then [p] else [])
  }

  /** The end of a child process is announced to its parent. */
  ghost function Announcement(r: Db, p: nat): seq<Notice>
    requires p < |r.procs|
  {
    if EveryStepCompleted(r, p) && r.procs[p].link.Some? && r.procs[p].status.Finished? then [ChildFinished(p)] else []
  }

  /** Ending process `p` itself does not change whether it can end. */
  lemma OwnStatusApart(flags: Flags, db: Db, r: Db, p: nat)
    requires p < |db.procs| && DbInv(db, p) && r == db.(procs := r.procs, hooks := r.hooks)
    requires |r.procs| == |db.procs| && r.procs[p].link == db.procs[p].link
    requires forall q :: 0 <= q < |db.procs| && q != p ==> r.procs[q] == db.procs[q]
    ensures EveryStepCompleted(r, p) == EveryStepCompleted(db, p)
    ensures Finishable(flags, r, p) == Finishable(flags, db, p)
  {
    assert NoChildActive(r, p) == NoChildActive(db, p) by {
      forall c | 0 <= c < |db.procs| && db.procs[c].link.Some? ensures db.procs[c].link.value.parent == p ==> c != p {
        assert LinkOk(db.procs, db.steps, c);
      }
    }
    assert forall s: nat :: ObjectsSettled(flags, r, s) == ObjectsSettled(flags, db, s);
  }

  lemma TailSettles(flags: Flags, db: Db, p: nat)
    requires p < |db.procs| && DbInv(db, p)
    ensures var (r, terminal) := MaybeComplete(flags, db, p);
      Settles(flags, db, r, p) && (terminal <==> Announcement(r, p) != []) && r == db.(procs := r.procs, hooks := r.hooks)
  {
    FinishableIff(flags, db, p);
    OwnStatusApart(flags, db, MaybeComplete(flags, db, p).0, p);
  }

  lemma ConcludeSettles(flags: Flags, db: Db, s: nat, now: int)
    requires s < |db.steps| && DbInv(db, db.steps[s].process) && Conclude(flags, db, s, now).Ok?
    ensures var r, p := Conclude(flags, db, s, now).value, db.steps[s].process;
      Settles(flags, db, r, p) && r.notices == db.notices + Announcement(r, p)
  {
    var p := db.steps[s].process;
    EnableNextInv(flags, db, p, s, now);
    var enabled := EnableNext(flags, db, s, now).value;
    TailSettles(flags, enabled, p);
    var (r, terminal) := MaybeComplete(flags, enabled, p);
    SameRowsSettle(flags, r, Conclude(flags, db, s, now).value, p);
  }

  lemma SameRowsSettle(flags: Flags, r: Db, r': Db, p: nat)
    requires r' == r.(notices := r'.notices) && p < |r.procs|
    ensures Finishable(flags, r', p) == Finishable(flags, r, p)
    ensures EveryStepCompleted(r', p) == EveryStepCompleted(r, p)
    ensures Announcement(r', p) == Announcement(r, p)
  {
    assert forall s: nat :: ObjectsSettled(flags, r', s) == ObjectsSettled(flags, r, s);
  }

  // ----- the steps -----

  /** Tables that differ from `db` in the status of `s`, and in nothing another step is judged by. */
  ghost predicate Concluding(db: Db, done: Db, s: nat) {
    && ValidRefs(db) && ValidRefs(done)
    && s < |db.steps| && |done.steps| == |db.steps|
    && done.steps[s] == db.steps[s].(status := Completed)
    && forall x :: 0 <= x < |db.steps| && x != s ==> Effects.SameView(db, done, x) && SameSpawning(db, done, x)
  }

  /** What becomes of step `x` when step `s` is concluded. */
  function Concluded(flags: Flags, db: Db, s: nat, now: int, x: nat): Step
    requires ValidRefs(db) && s < |db.steps| && x < |db.steps|
  {
    if x == s then db.steps[s].(status := Completed)
    else if Follows(db, s, x) && MayGo(flags, db, x, now) then LetGo(flags, db.steps[x])
    else db.steps[x]
  }

  lemma ConcludeUnlocks(flags: Flags, db: Db, done: Db, s: nat, now: int, x: nat)
    requires Concluding(db, done, s) && x < |db.steps| && Conclude(flags, done, s, now).Ok?
    ensures var r := Conclude(flags, done, s, now).value;
      x < |r.steps| && r.steps[x] == Concluded(flags, db, s, now, x)
  {
    Effects.NextStepsAreUnlockedExactly(flags, done, s, now, x);
    ConcludeTail(flags, done, s, now);
    if x != s {
      Effects.SameEligibility(flags, db, done, x, now);
      MayGoIff(flags, db, x, now);
    }
  }

  lemma ConcludeFailsIff(flags: Flags, db: Db, done: Db, s: nat, now: int)
    requires Concluding(db, done, s)
    ensures Conclude(flags, done, s, now).Thrown? <==> NextStuck(flags, db, s, now)
  {
    SameNext(flags, db, done, s, now);
    EnableNextFailsIff(flags, done, s, now);
    ConcludeKeepsOwnStep(flags, done, s, now);
    NextStuckIff(flags, db, s, now);
  }

  /** All that a conclusion of step `s` leaves behind in the tables of steps, processes, hooks. */
  ghost predicate ConcludedAs(flags: Flags, db: Db, r: Db, s: nat, now: int)
    requires ValidRefs(db) && s < |db.steps|
  {
    && |r.steps| >= |db.steps|
    && (forall x :: 0 <= x < |db.steps| ==> r.steps[x] == Concluded(flags, db, s, now, x))
    && Settles(flags, db, r, db.steps[s].process)
  }

  lemma ConcludeDecides(flags: Flags, db: Db, done: Db, s: nat, now: int)
    requires Concluding(db, done, s) && DbInv(done, db.steps[s].process)
    requires done.procs == db.procs && done.hooks == db.hooks && done.notices == db.notices
    requires !NextStuck(flags, db, s, now)
    ensures Conclude(flags, done, s, now).Ok?
    ensures var r := Conclude(flags, done, s, now).value;
      ConcludedAs(flags, db, r, s, now) && r.notices == db.notices + Announcement(r, db.steps[s].process)
  {
    ConcludeFailsIff(flags, db, done, s, now);
    ConcludeSettles(flags, done, s, now);
    forall x | 0 <= x < |db.steps|
      ensures var r := Conclude(flags, done, s, now).value;
        x < |r.steps| && r.steps[x] == Concluded(flags, db, s, now, x)
    {
      ConcludeUnlocks(flags, db, done, s, now, x);
    }
    ConcludeTail(flags, done, s, now);
  }

  // ----- a completion -----

  lemma MovedIsConcluding(flags: Flags, db: Db, s: nat)
    requires Good(flags, db) && s < |db.steps| && db.steps[s].status.Ready?
    ensures Concluding(db, Move(db, s, Completed), s)
    ensures DbInv(Move(db, s, Completed), db.steps[s].process)
  {
    MoveKeepsInv(db.procs, db.steps, db.notices, -1, s, Completed);
    forall x | 0 <= x < |db.steps| && x != s
      ensures Effects.SameView(db, Move(db, s, Completed), x) && SameSpawning(db, Move(db, s, Completed), x)
    {
      MoveKeepsOthers(db, s, Completed, x);
    }
  }

  lemma CompletionDecides(flags: Flags, db: Db, s: nat, now: int)
    requires Good(flags, db) && s < |db.steps|
    ensures var r := Exec(flags, db, Complete(s, now));
      if db.steps[s].status.Ready? && Approved(db, s) && ObjectsSettled(flags, db, s) && !NextStuck(flags, db, s, now)
      then ConcludedAs(flags, db, r, s, now) && r.notices == db.notices + Announcement(r, db.steps[s].process)
      else r == db
  {
    MayGoIff(flags, db, s, now);
    if db.steps[s].status.Ready? && GatesOpen(flags, db, s) {
      MovedIsConcluding(flags, db, s);
      if NextStuck(flags, db, s, now) {
        ConcludeFailsIff(flags, db, Move(db, s, Completed), s, now);
      } else {
        ConcludeDecides(flags, db, Move(db, s, Completed), s, now);
      }
    }
  }

  // ----- a resumption -----

  lemma ResumptionDecides(flags: Flags, db: Db, s: nat, now: int)
    requires Good(flags, db) && s < |db.steps| && db.steps[s].status.Completed?
    ensures var r := Committed(db, ResumeParent(flags, db, s, now));
      if NextStuck(flags, db, s, now) then r == db
      else ConcludedAs(flags, db, r, s, now) && r.notices == db.notices + Announcement(r, db.steps[s].process)
  {
    assert Concluding(db, db, s);
    ConcludeFailsIff(flags, db, db, s, now);
    if !NextStuck(flags, db, s, now) { ConcludeDecides(flags, db, db, s, now); }
  }

  // ----- an advance -----

  /** The tables in which a step that may run at once is found ready. */
  ghost predicate Entered(flags: Flags, db: Db, head: Db, s: nat, now: int)
    requires ValidRefs(db) && s < |db.steps|
  {
    && AdvanceHead(flags, db, s, now) == Ok(head)
    && s < |head.steps| == |db.steps| && head.steps[s] == db.steps[s].(status := Ready)
    && head.procs == db.procs && head.hooks == db.hooks && head.notices == db.notices
    && forall x :: 0 <= x < |db.steps| && x != s ==> Effects.SameView(db, head, x) && SameSpawning(db, head, x)
  }

  lemma ReadyIsEntered(flags: Flags, db: Db, s: nat, now: int)
    requires ValidRefs(db) && s < |db.steps| && db.steps[s].status.Ready?
    ensures AdvanceOpen(flags, db, s, now) == MayGo(flags, db, s, now)
    ensures Entered(flags, db, AdvanceHead(flags, db, s, now).value, s, now)
  {
    var entered := Provision(flags, db, s);
    var head := Evaluated(entered, s, now);
    ProvisionSettlesNone(flags, db, s, s);
    assert ContextOf(entered, s, now) == ContextOf(db, s, now);
    MayGoIff(flags, db, s, now);
    forall x | 0 <= x < |db.steps| && x != s ensures Effects.SameView(db, head, x) && SameSpawning(db, head, x) {
      Effects.ProvisionKeepsView(flags, db, s, x);
      Effects.EvaluatedKeepsView(entered, s, now, x);
      Effects.SameViewTrans(db, entered, head, x);
    }
  }

  lemma PendingIsEntered(flags: Flags, db: Db, s: nat, now: int)
    requires ValidRefs(db) && s < |db.steps| && db.steps[s].status.Pending?
    requires MayGo(flags, db, s, now) && !Calls(flags, db.steps[s])
    ensures AdvanceOpen(flags, db, s, now) && AdvanceHead(flags, db, s, now).Ok?
    ensures Entered(flags, db, AdvanceHead(flags, db, s, now).value, s, now)
  {
    MayGoIff(flags, db, s, now);
    var checked := Evaluated(db, s, now);
    var head := Promote(flags, checked, s).value;
    forall x | 0 <= x < |db.steps| && x != s ensures Effects.SameView(db, head, x) && SameSpawning(db, head, x) {
      Effects.EvaluatedKeepsView(db, s, now, x);
      Effects.PromoteKeepsView(flags, checked, s, x);
      SpawnKeepsOthers(flags, checked, s, x);
      Effects.SameViewTrans(db, checked, head, x);
    }
  }

  lemma RunIsConcluding(flags: Flags, db: Db, head: Db, s: nat, now: int)
    requires Good(flags, db) && s < |db.steps| && Idle(db.steps[s].status) && Entered(flags, db, head, s, now)
    ensures ValidRefs(head)
    ensures var done := Move(Move(head, s, InProgress), s, Completed);
      && Concluding(db, done, s) && DbInv(done, db.steps[s].process)
      && done.procs == db.procs && done.hooks == db.hooks && done.notices == db.notices
  {
    AdvanceHeadInv(flags, db, -1, s, now);
    MoveKeepsInv(head.procs, head.steps, head.notices, -1, s, InProgress);
    var started := Move(head, s, InProgress);
    MoveKeepsInv(started.procs, started.steps, started.notices, -1, s, Completed);
    var done := Move(started, s, Completed);
    forall x | 0 <= x < |db.steps| && x != s ensures Effects.SameView(db, done, x) && SameSpawning(db, done, x) {
      MovesKeepOthers(head, s, x);
      Effects.SameViewTrans(db, head, done, x);
    }
  }

  /** An advance that runs its step is a conclusion of it. */
  lemma RunShape(flags: Flags, db: Db, s: nat, now: int) returns (head: Db, done: Db)
    requires Good(flags, db) && s < |db.steps| && db.steps[s].taskType.Automated?
    requires (db.steps[s].status.Pending? || db.steps[s].status.Ready?) && MayGo(flags, db, s, now)
    ensures Entered(flags, db, head, s, now) && ValidRefs(head) && done == Move(Move(head, s, InProgress), s, Completed)
    ensures Concluding(db, done, s) && DbInv(done, db.steps[s].process)
    ensures AttemptAdvance(flags, db, s, now) == Conclude(flags, done, s, now)
    ensures done.procs == db.procs && done.hooks == db.hooks && done.notices == db.notices
  {
    if db.steps[s].status.Ready? { ReadyIsEntered(flags, db, s, now); } else { PendingIsEntered(flags, db, s, now); }
    head := AdvanceHead(flags, db, s, now).value;
    RunIsConcluding(flags, db, head, s, now);
    done := Move(Move(head, s, InProgress), s, Completed);
  }

  /** An automated step that may go is run to its end, unless a step after it is stuck. */
  lemma AutomatedDecides(flags: Flags, db: Db, s: nat, now: int)
    requires Good(flags, db) && s < |db.steps| && db.steps[s].taskType.Automated?
    requires (db.steps[s].status.Pending? || db.steps[s].status.Ready?) && MayGo(flags, db, s, now)
    ensures AttemptAdvance(flags, db, s, now).Thrown? <==> NextStuck(flags, db, s, now)
    ensures var r := Exec(flags, db, Advance(s, now));
      if NextStuck(flags, db, s, now) then r == db
      else ConcludedAs(flags, db, r, s, now) && r.notices == db.notices + Announcement(r, db.steps[s].process)
  {
    RunDecides(flags, db, s, now, AttemptAdvance(flags, db, s, now));
  }

  lemma RunDecides(flags: Flags, db: Db, s: nat, now: int, outcome: Outcome<Db>)
    requires Good(flags, db) && s < |db.steps| && db.steps[s].taskType.Automated?
    requires (db.steps[s].status.Pending? || db.steps[s].status.Ready?) && MayGo(flags, db, s, now)
    requires outcome == AttemptAdvance(flags, db, s, now)
    ensures outcome.Thrown? <==> NextStuck(flags, db, s, now)
    ensures outcome.Ok? ==>
      && ConcludedAs(flags, db, outcome.value, s, now)
      && outcome.value.notices == db.notices + Announcement(outcome.value, db.steps[s].process)
  {
    var _, done := RunShape(flags, db, s, now);
    ConcludesOrFails(flags, db, done, s, now);
  }

  lemma ConcludesOrFails(flags: Flags, db: Db, done: Db, s: nat, now: int)
    requires Concluding(db, done, s) && DbInv(done, db.steps[s].process)
    requires done.procs == db.procs && done.hooks == db.hooks && done.notices == db.notices
    ensures var outcome := Conclude(flags, done, s, now);
      && (outcome.Thrown? <==> NextStuck(flags, db, s, now))
      && (outcome.Ok? ==>
            && ConcludedAs(flags, db, outcome.value, s, now)
            && outcome.value.notices == db.notices + Announcement(outcome.value, db.steps[s].process))
  {
    ConcludeFailsIff(flags, db, done, s, now);
    if !NextStuck(flags, db, s, now) { ConcludeDecides(flags, db, done, s, now); }
  }

  /** An advance that runs nothing to its end changes at most its own step. */
  ghost predicate MovesAlone(db: Db, r: Db, s: nat, step: Step) {
    && |r.steps| >= |db.steps| && s < |db.steps|
    && (forall x :: 0 <= x < |db.steps| && x != s ==> r.steps[x] == db.steps[x])
    && r.steps[s] == step
    && db.procs <= r.procs && (forall q :: |db.procs| <= q < |r.procs| ==> r.procs[q].status.Active?)
    && r.hooks == db.hooks && r.notices == db.notices
  }

  lemma ReadyWithoutRun(flags: Flags, db: Db, s: nat, now: int)
    requires Good(flags, db) && s < |db.steps| && db.steps[s].status.Ready?
    requires !(db.steps[s].taskType.Automated? && MayGo(flags, db, s, now))
    ensures MovesAlone(db, Exec(flags, db, Advance(s, now)), s, db.steps[s])
  {
    ReadyIsEntered(flags, db, s, now);
  }

  lemma PendingWithoutRun(flags: Flags, db: Db, s: nat, now: int)
    requires Good(flags, db) && s < |db.steps| && db.steps[s].status.Pending?
    requires !(db.steps[s].taskType.Automated? && MayGo(flags, db, s, now))
    ensures MovesAlone(db, Exec(flags, db, Advance(s, now)), s,
      if MayGo(flags, db, s, now) && !Stuck(flags, db, s) then LetGo(flags, db.steps[s]) else db.steps[s])
  {
    StandstillIsHead(flags, db, s, now);
    if AdvanceHead(flags, db, s, now).Ok? { PendingHead(flags, db, s, now); }
  }

  lemma PendingHead(flags: Flags, db: Db, s: nat, now: int)
    requires Good(flags, db) && s < |db.steps| && db.steps[s].status.Pending? && AdvanceHead(flags, db, s, now).Ok?
    ensures MovesAlone(db, AdvanceHead(flags, db, s, now).value, s,
      if MayGo(flags, db, s, now) then LetGo(flags, db.steps[s]) else db.steps[s])
  {
    MayGoIff(flags, db, s, now);
    Effects.EnableStepUnlocks(flags, db, s, now);
    AdvanceHeadInv(flags, db, -1, s, now);
  }

  lemma AdvanceWithoutRun(flags: Flags, db: Db, s: nat, now: int)
    requires Good(flags, db) && s < |db.steps|
    requires !(db.steps[s].taskType.Automated? && (db.steps[s].status.Pending? || db.steps[s].status.Ready?) && MayGo(flags, db, s, now))
    ensures MovesAlone(db, Exec(flags, db, Advance(s, now)), s,
      if db.steps[s].status.Pending? && MayGo(flags, db, s, now) && !Stuck(flags, db, s)
      then LetGo(flags, db.steps[s]) else db.steps[s])
  {
    if db.steps[s].status.Ready? {
      ReadyWithoutRun(flags, db, s, now);
    } else if db.steps[s].status.Pending? {
      PendingWithoutRun(flags, db, s, now);
    }
  }

  /** What one advance makes of its step. A ready step moves only if it is automated; then it
      is completed at once, unless a step that this would unlock is stuck. */
  lemma AdvanceDecides(flags: Flags, db: Db, s: nat, now: int)
    requires Good(flags, db) && s < |db.steps|
    ensures var r, step := Exec(flags, db, Advance(s, now)), db.steps[s];
      var runs := step.taskType.Automated? && MayGo(flags, db, s, now) && !NextStuck(flags, db, s, now);
      s < |r.steps| && r.steps[s] ==
        match step.status
        case Ready => if runs then step.(status := Completed) else step
        case Pending =>
          if step.taskType.Automated? then (if runs then step.(status := Completed) else step)
          else if MayGo(flags, db, s, now) && !Stuck(flags, db, s) then LetGo(flags, step)
          else step
        case InProgress => step
        case Blocked => step
        case Completed => step
        case Canceled => step
  {
    var step := db.steps[s];
    if step.taskType.Automated? && (step.status.Pending? || step.status.Ready?) && MayGo(flags, db, s, now) {
      AutomatedDecides(flags, db, s, now);
    } else {
      AdvanceWithoutRun(flags, db, s, now);
    }
  }

  // ----- when transactions fail -----

  /** The advanced step is to call a child and cannot, or it would run at once and a step that
      this unlocks cannot call its own. */
  predicate AdvanceFails(flags: Flags, db: Db, s: nat, now: int)
    requires ValidRefs(db)
  {
    && s < |db.steps| && (db.steps[s].status.Pending? || db.steps[s].status.Ready?) && MayGo(flags, db, s, now)
    && ((db.steps[s].status.Pending? && Stuck(flags, db, s))
        || (db.steps[s].taskType.Automated? && NextStuck(flags, db, s, now)))
  }

  lemma AdvanceFailsIff(flags: Flags, db: Db, s: nat, now: int)
    requires Good(flags, db)
    ensures AttemptAdvance(flags, db, s, now).Thrown? <==> AdvanceFails(flags, db, s, now)
  {
    if s < |db.steps| && (db.steps[s].status.Pending? || db.steps[s].status.Ready?) {
      if db.steps[s].taskType.Automated? && MayGo(flags, db, s, now) {
        AutomatedDecides(flags, db, s, now);
      } else {
        StandstillIsHead(flags, db, s, now);
      }
    }
  }

  /** Without a run, an advance ends with its first part; only a stuck call step fails in it. */
  lemma StandstillIsHead(flags: Flags, db: Db, s: nat, now: int)
    requires Good(flags, db) && s < |db.steps| && (db.steps[s].status.Pending? || db.steps[s].status.Ready?)
    requires !(db.steps[s].taskType.Automated? && MayGo(flags, db, s, now))
    ensures AttemptAdvance(flags, db, s, now) == AdvanceHead(flags, db, s, now)
    ensures AdvanceHead(flags, db, s, now).Thrown? <==>
      db.steps[s].status.Pending? && MayGo(flags, db, s, now) && Stuck(flags, db, s)
  {
    if db.steps[s].status.Ready? {
      ReadyIsEntered(flags, db, s, now);
    } else {
      PendingHeadFails(flags, db, s, now);
      PendingOpensIff(flags, db, s, now);
    }
  }

  lemma PendingOpensIff(flags: Flags, db: Db, s: nat, now: int)
    requires ValidRefs(db) && s < |db.steps| && db.steps[s].status.Pending?
    ensures AdvanceOpen(flags, db, s, now) == MayGo(flags, db, s, now)
    ensures AdvanceHead(flags, db, s, now).Ok? ==>
      && s < |AdvanceHead(flags, db, s, now).value.steps|
      && AdvanceHead(flags, db, s, now).value.steps[s].taskType == db.steps[s].taskType
  {
    MayGoIff(flags, db, s, now);
    if AdvanceHead(flags, db, s, now).Ok? { Effects.EnableStepUnlocks(flags, db, s, now); }
  }

  lemma PendingHeadFails(flags: Flags, db: Db, s: nat, now: int)
    requires ValidRefs(db) && s < |db.steps| && db.steps[s].status.Pending?
    ensures AdvanceHead(flags, db, s, now).Thrown? <==> MayGo(flags, db, s, now) && Stuck(flags, db, s)
  {
    MayGoIff(flags, db, s, now);
    StuckIff(flags, db, s);
    PromoteFailsIff(flags, Evaluated(db, s, now), s);
  }

  predicate CompletionFails(flags: Flags, db: Db, s: nat, now: int)
    requires ValidRefs(db)
  {
    && s < |db.steps| && db.steps[s].status.Ready? && Approved(db, s) && ObjectsSettled(flags, db, s)
    && NextStuck(flags, db, s, now)
  }

  lemma CompletionFailsIff(flags: Flags, db: Db, s: nat, now: int)
    requires Good(flags, db)
    ensures MarkCompleted(flags, db, s, now).Thrown? <==> CompletionFails(flags, db, s, now)
  {
    if s < |db.steps| && db.steps[s].status.Ready? {
      MayGoIff(flags, db, s, now);
      MovedIsConcluding(flags, db, s);
      ConcludeFailsIff(flags, db, Move(db, s, Completed), s, now);
    }
  }

  // ----- actions -----

  /** The action completes step `s`, or resumes the process after it, and commits. */
  ghost predicate Concludes(flags: Flags, db: Db, a: Action, s: nat)
    requires ValidRefs(db)
  {
    s < |db.steps| &&
    match a
    case Complete(t, now) =>
      && t == s && db.steps[s].status.Ready? && Approved(db, s) && ObjectsSettled(flags, db, s)
      && !NextStuck(flags, db, s, now)
    case Advance(t, now) =>
      && t == s && db.steps[s].taskType.Automated? && (db.steps[s].status.Pending? || db.steps[s].status.Ready?)
      && MayGo(flags, db, s, now) && !NextStuck(flags, db, s, now)
    case Deliver(i, now) =>
      i < |db.notices| && db.notices[i] == ResumeStep(s) && flags.callProcess && !NextStuck(flags, db, s, now)
    case _ => false
  }

  function Instant(a: Action): int {
    match a
    case Complete(_, now) => now
    case Advance(_, now) => now
    case Deliver(_, now) => now
    case _ => 0
  }

  /** The notices that were outstanding, without the one that was delivered. */
  function Outstanding(db: Db, a: Action): seq<Notice> {
    if a.Deliver? && a.notice < |db.notices| then db.notices[..a.notice] + db.notices[a.notice + 1..] else db.notices
  }

  /** Whichever action concludes a step completes it, lets go exactly the steps after it that
      may go, ends its process if that can end, and announces a child that ended. */
  lemma ConclusionsDecide(flags: Flags, db: Db, a: Action, s: nat)
    requires Good(flags, db) && Concludes(flags, db, a, s)
    ensures var r := Exec(flags, db, a);
      && ConcludedAs(flags, db, r, s, Instant(a))
      && r.notices == Outstanding(db, a) + Announcement(r, db.steps[s].process)
  {
    match a
    case Complete(_, now) => CompletionDecides(flags, db, s, now);
    case Advance(_, now) => AutomatedDecides(flags, db, s, now);
    case Deliver(i, now) => DeliveryConcludes(flags, db, i, s, now);
  }

  lemma DeliveryConcludes(flags: Flags, db: Db, i: nat, s: nat, now: int)
    requires Good(flags, db) && i < |db.notices| && db.notices[i] == ResumeStep(s) && flags.callProcess
    requires s < |db.steps| && !NextStuck(flags, db, s, now)
    ensures var r := Exec(flags, db, Deliver(i, now));
      && ConcludedAs(flags, db, r, s, now)
      && r.notices == db.notices[..i] + db.notices[i + 1..] + Announcement(r, db.steps[s].process)
  {
    HandledResumption(flags, db, i, s, now);
    DroppedConcludes(flags, db, Handle(flags, db, db.notices[i], now), i, s, now);
  }

  lemma HandledResumption(flags: Flags, db: Db, i: nat, s: nat, now: int)
    requires Good(flags, db) && i < |db.notices| && db.notices[i] == ResumeStep(s) && flags.callProcess
    requires s < |db.steps| && !NextStuck(flags, db, s, now)
    ensures var handled := Handle(flags, db, db.notices[i], now);
      ConcludedAs(flags, db, handled, s, now) && handled.notices == db.notices + Announcement(handled, db.steps[s].process)
  {
    assert NoticeOk(db.procs, db.steps, db.notices[i]);
    ResumptionDecides(flags, db, s, now);
  }

  lemma DroppedConcludes(flags: Flags, db: Db, handled: Db, i: nat, s: nat, now: int)
    requires ValidRefs(db) && i < |db.notices| && s < |db.steps| && ConcludedAs(flags, db, handled, s, now)
    requires handled.notices == db.notices + Announcement(handled, db.steps[s].process)
    ensures ConcludedAs(flags, db, Drop(handled, i), s, now)
    ensures Drop(handled, i).notices == db.notices[..i] + db.notices[i + 1..] + Announcement(Drop(handled, i), db.steps[s].process)
  {
    var p := db.steps[s].process;
    SameRowsSettle(flags, handled, Drop(handled, i), p);
    Effects.AppendedThenDropped(db.notices, Announcement(handled, p), i);
  }

  ghost predicate EndsNothing(db: Db, r: Db) {
    && r.hooks == db.hooks && |r.procs| >= |db.procs|
    && forall q :: 0 <= q < |r.procs| && r.procs[q].status.Finished? ==> q < |db.procs| && db.procs[q].status.Finished?
  }

  /** An action that concludes nothing fires no hook and completes no process. */
  lemma OthersEndNothing(flags: Flags, db: Db, a: Action)
    requires Good(flags, db) && forall s: nat :: !Concludes(flags, db, a, s)
    ensures EndsNothing(db, Exec(flags, db, a))
  {
    match a
    case Complete(s, now) =>
      assert !Concludes(flags, db, a, s);
      if s < |db.steps| { CompletionDecides(flags, db, s, now); }
    case Advance(s, now) =>
      assert !Concludes(flags, db, a, s);
      if s < |db.steps| { AdvanceEndsNothing(flags, db, s, now); }
    case Deliver(i, now) =>
      if i < |db.notices| { DeliveryEndsNothing(flags, db, i, now); }
    case StartProcess(t, tenant, subject, subjectId, policy, context, host) =>
      if StartRoot(flags, db, t, tenant, subject, subjectId, policy, context, host).Ok? {
        StartedRows(flags, db, t, Seed(tenant, SubjectNamed(subject).value, subjectId, None, policy, context), host);
      }
    case _ =>
  }

  lemma AdvanceEndsNothing(flags: Flags, db: Db, s: nat, now: int)
    requires Good(flags, db) && s < |db.steps| && !Concludes(flags, db, Advance(s, now), s)
    ensures EndsNothing(db, Exec(flags, db, Advance(s, now)))
  {
    var step := db.steps[s];
    if step.taskType.Automated? && (step.status.Pending? || step.status.Ready?) && MayGo(flags, db, s, now) {
      AutomatedDecides(flags, db, s, now);
    } else {
      AdvanceWithoutRun(flags, db, s, now);
    }
  }

  lemma DeliveryEndsNothing(flags: Flags, db: Db, i: nat, now: int)
    requires Good(flags, db) && i < |db.notices| && forall s: nat :: !Concludes(flags, db, Deliver(i, now), s)
    ensures EndsNothing(db, Exec(flags, db, Deliver(i, now)))
  {
    var n := db.notices[i];
    assert NoticeOk(db.procs, db.steps, n);
    match n
    case ResumeStep(s) =>
      assert !Concludes(flags, db, Deliver(i, now), s);
      if flags.callProcess { ResumptionDecides(flags, db, s, now); }
    case ChildFinished(c) => EndingEndsNothing(flags, db, c, false, now);
    case ChildAborted(c) => EndingEndsNothing(flags, db, c, true, now);
  }

  lemma EndingEndsNothing(flags: Flags, db: Db, c: nat, aborted: bool, now: int)
    requires ValidRefs(db)
    ensures EndsNothing(db, HandleTerminal(flags, db, c, aborted, now))
  {}

  // ----- the completion hook -----

  /** The hook fires in an action exactly when the action concludes a step of a process that is
      then done in every respect, and that is a root or was canceled; it fires once. */
  lemma HookFiresIff(flags: Flags, db: Db, a: Action)
    requires Good(flags, db)
    ensures var r := Exec(flags, db, a);
      && |r.procs| >= |db.procs|
      && (forall s: nat :: Concludes(flags, db, a, s) ==>
            var p := db.steps[s].process;
            r.hooks == db.hooks +
              (if Finishable(flags, r, p) && (db.procs[p].link.None? || db.procs[p].status.Aborted?) then [p] else []))
      && ((forall s: nat :: !Concludes(flags, db, a, s)) ==> r.hooks == db.hooks)
  {
    forall s: nat | Concludes(flags, db, a, s)
      ensures ConcludedAs(flags, db, Exec(flags, db, a), s, Instant(a))
    {
      ConclusionsDecide(flags, db, a, s);
    }
    if forall s: nat :: !Concludes(flags, db, a, s) { OthersEndNothing(flags, db, a); }
  }

  /** The action that completes a root fires its hook. */
  lemma RootHookFires(flags: Flags, db: Db, a: Action, p: nat)
    requires Good(flags, db) && p < |db.procs| && db.procs[p].link.None? && !db.procs[p].status.Finished?
    ensures var r := Exec(flags, db, a);
      |r.procs| >= |db.procs| && (r.procs[p].status.Finished? ==> r.hooks == db.hooks + [p])
  {
    if s: nat :| Concludes(flags, db, a, s) {
      ConclusionsDecide(flags, db, a, s);
    } else {
      OthersEndNothing(flags, db, a);
    }
  }

  /** So in every run, the hook of every completed root has fired. */
  lemma CompletedRootsHaveFired(flags: Flags, actions: seq<Action>)
    ensures RootsHaveFired(Reached(flags, actions))
  {
    EmptyIsGood(flags);
    FiredForever(flags, Empty(), actions);
  }

  lemma {:induction false} FiredForever(flags: Flags, db: Db, actions: seq<Action>)
    requires Good(flags, db) && RootsHaveFired(db)
    ensures RootsHaveFired(Run(flags, db, actions))
    decreases |actions|
  {
    if actions != [] {
      FiredForever(flags, db, actions[..|actions| - 1]);
      FiredStays(flags, Run(flags, db, actions[..|actions| - 1]), actions[|actions| - 1]);
    }
  }

  ghost predicate RootsHaveFired(db: Db) {
    forall p :: 0 <= p < |db.procs| && db.procs[p].link.None? && db.procs[p].status.Finished? ==> p in db.hooks
  }

  lemma FiredStays(flags: Flags, db: Db, a: Action)
    requires Good(flags, db) && RootsHaveFired(db)
    ensures RootsHaveFired(Exec(flags, db, a))
  {
    var r := Exec(flags, db, a);
    ExecGood(flags, db, a);
    forall p | 0 <= p < |r.procs| && r.procs[p].link.None? && r.procs[p].status.Finished? ensures p in r.hooks {
      FinishedBeforeOrNow(flags, db, a, p);
      if p < |db.procs| {
        assert ProcessEvolves(db.procs[p], r.procs[p]);
        if !db.procs[p].status.Finished? { RootHookFires(flags, db, a, p); }
      }
    }
  }

  /** No process is born completed. */
  lemma FinishedBeforeOrNow(flags: Flags, db: Db, a: Action, p: nat)
    requires Good(flags, db)
    ensures p < |Exec(flags, db, a).procs| && Exec(flags, db, a).procs[p].status.Finished? ==> p < |db.procs|
  {
    if s: nat :| Concludes(flags, db, a, s) {
      ConclusionsDecide(flags, db, a, s);
    } else {
      OthersEndNothing(flags, db, a);
    }
  }

  /** The hook of a completed root fires once more exactly when a resumption of one of its call
      steps is delivered late, with all its mandatory objects still settled. */
  lemma FiresAgainIff(flags: Flags, db: Db, a: Action, p: nat)
    requires Good(flags, db) && p < |db.procs| && db.procs[p].link.None? && db.procs[p].status.Finished?
    ensures Exec(flags, db, a).hooks == db.hooks + [p] <==>
      && a.Deliver? && a.notice < |db.notices| && ResumesStepOf(db, db.notices[a.notice], p)
      && flags.callProcess && Finishable(flags, db, p)
  {
    if a.Deliver? && a.notice < |db.notices| && ResumesStepOf(db, db.notices[a.notice], p) {
      LateResumption(flags, db, a.notice, a.now, p);
    } else if Exec(flags, db, a).hooks == db.hooks + [p] {
      OnlyLateResumptionsFire(flags, db, a, p);
    }
  }

  predicate ResumesStepOf(db: Db, n: Notice, p: nat) {
    n.ResumeStep? && n.step < |db.steps| && db.steps[n.step].process == p
  }

  lemma LateResumption(flags: Flags, db: Db, i: nat, now: int, p: nat)
    requires Good(flags, db) && p < |db.procs| && db.procs[p].link.None? && db.procs[p].status.Finished?
    requires i < |db.notices| && ResumesStepOf(db, db.notices[i], p)
    ensures Exec(flags, db, Deliver(i, now)).hooks ==
      db.hooks + (if flags.callProcess && Finishable(flags, db, p) then [p] else [])
  {
    var s := db.notices[i].step;
    assert NoticeOk(db.procs, db.steps, db.notices[i]);
    FinishableIff(flags, db, p);
    NothingToUnlock(flags, db, s, now);
  }

  /** Nothing else concludes a step of a process that has completed. */
  lemma OnlyLateResumptionsFire(flags: Flags, db: Db, a: Action, p: nat)
    requires Good(flags, db) && p < |db.procs| && db.procs[p].status.Finished?
    requires Exec(flags, db, a).hooks == db.hooks + [p]
    ensures a.Deliver? && a.notice < |db.notices| && ResumesStepOf(db, db.notices[a.notice], p)
  {
    HookFiresIff(flags, db, a);
    assert |db.hooks + [p]| == |db.hooks| + 1;
    var s: nat :| Concludes(flags, db, a, s);
    assert (db.hooks + [p])[|db.hooks|] == p;
    assert db.steps[s].process == p;
    assert AllDone(db.steps, p) && db.steps[s].status.Completed?;
  }

  lemma NothingToUnlock(flags: Flags, db: Db, s: nat, now: int)
    requires ValidRefs(db) && s < |db.steps| && AllDone(db.steps, db.steps[s].process)
    ensures EnableNext(flags, db, s, now) == Ok(db)
  {
    var rows := NextRows(flags, db, s, now);
    assert forall k :: 0 <= k < |rows| ==> rows[k] in rows;
    assert rows == [];
  }
}
