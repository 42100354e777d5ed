/** Every transaction keeps the protocol invariant. */
module Preservation {
  import opened Basics
  import opened Json
  import opened Tables
  import opened StepObjects
  import opened Instantiation
  import opened ProjectHost
  import opened ChildProcess
  import opened Completion
  import opened Orchestrator
  import opened Protocol

  ghost predicate DbInv(db: Db, skip: int) {
    Inv(db.procs, db.steps, db.notices, skip)
  }

  /** A step is as it was, or became ready or blocked. */
  ghost predicate Opened(a: Step, b: Step) {
    b == a || (b == a.(status := b.status, reason := b.reason) && (b.status.Ready? || b.status.Blocked?))
  }

  /** Earlier rows as they were, except the steps in `touched`; new processes are active, and
      without call_process there are none. */
  ghost predicate Promoted(flags: Flags, db: Db, r: Db, touched: seq<nat>) {
    && db.procs <= r.procs
    && (flags.callProcess || r.procs == db.procs)
    && (forall c :: |db.procs| <= c < |r.procs| ==> r.procs[c].status.Active?)
    && |r.steps| >= |db.steps|
    && (forall x :: 0 <= x < |db.steps| && x !in touched ==> r.steps[x] == db.steps[x])
    && (forall x :: 0 <= x < |db.steps| ==> Opened(db.steps[x], r.steps[x]))
    && (forall x :: |db.steps| <= x < |r.steps| ==> !r.steps[x].status.InProgress?)
    && r.notices == db.notices
    && r.hooks == db.hooks
  }

  lemma FreshSteps(catalog: Catalog, rows: seq<nat>, p: nat)
    requires forall i :: i in rows ==> i < |catalog.steps|
    ensures forall k :: 0 <= k < |rows| ==>
      FreshStep(NewSteps(catalog, rows, p)[k], p) && !NewSteps(catalog, rows, p)[k].status.InProgress?
  {}

  /** What a successful spawn adds: one active process linked to the step, inheriting tenant
      and failure policy, with fresh steps of its own. */
  ghost predicate SpawnAdds(db: Db, r: Db, s: nat, child: Process, added: seq<Step>)
    requires s < |db.steps| && db.steps[s].process < |db.procs|
  {
    && r.procs == db.procs + [child]
    && r.steps == (db.steps + added)[s := db.steps[s].(status := Blocked, reason := WaitingChild)]
    && child.link == Some(Link(db.steps[s].process, s)) && child.status.Active?
    && child.tenant == db.procs[db.steps[s].process].tenant && child.policy == db.procs[db.steps[s].process].policy
    && (forall k :: 0 <= k < |added| ==> FreshStep(added[k], |db.procs|) && !added[k].status.InProgress?)
  }

  lemma SpawnResult(flags: Flags, db: Db, s: nat)
    requires s < |db.steps| && ValidRefs(db) && !HasChild(db.procs, s)
    ensures Spawn(flags, db, s).Ok? ==> exists child, added :: SpawnAdds(db, Spawn(flags, db, s).value, s, child, added)
  {
    if Spawn(flags, db, s).Ok? {
      var tpl := db.catalog.steps[db.steps[s].template];
      var t := tpl.childTemplate.value;
      var child := NewProcess(ChildSeed(db, s, tpl).value, t, |db.procs|);
      var added := NewSteps(db.catalog, OrderedSteps(db.catalog, t), |db.procs|);
      FreshSteps(db.catalog, OrderedSteps(db.catalog, t), |db.procs|);
      assert SpawnAdds(db, Spawn(flags, db, s).value, s, child, added);
    }
  }

  lemma SpawnInv(flags: Flags, db: Db, skip: int, s: nat)
    requires DbInv(db, skip)
    requires s < |db.steps| && db.steps[s].status.Pending? && Spawns(flags, db.steps[s])
    ensures !HasChild(db.procs, s)
    ensures Spawn(flags, db, s).Ok? ==>
      var r := Spawn(flags, db, s).value;
      DbInv(r, skip) && Promoted(flags, db, r, [s]) && r.steps[s].status.Blocked?
  {
    IdleHasNoChild(db.procs, db.steps, db.notices, skip, s);
    SpawnResult(flags, db, s);
    if Spawn(flags, db, s).Ok? {
      var child, added :| SpawnAdds(db, Spawn(flags, db, s).value, s, child, added);
      SpawnAdditionsInv(flags, db, Spawn(flags, db, s).value, skip, s, child, added);
    }
  }

  lemma SpawnAdditionsInv(flags: Flags, db: Db, r: Db, skip: int, s: nat, child: Process, added: seq<Step>)
    requires DbInv(db, skip) && s < |db.steps| && db.steps[s].status.Pending? && Spawns(flags, db.steps[s])
    requires SpawnAdds(db, r, s, child, added) && !HasChild(db.procs, s)
    requires r.notices == db.notices && r.hooks == db.hooks
    ensures DbInv(r, skip) && Promoted(flags, db, r, [s]) && r.steps[s].status.Blocked?
  {
    SpawnKeepsInv(db.procs, db.steps, db.notices, skip, s, child, added);
    forall x | |db.steps| <= x < |r.steps| ensures !r.steps[x].status.InProgress? {
      assert r.steps[x] == added[x - |db.steps|];
    }
  }

  lemma PromoteInv(flags: Flags, db: Db, skip: int, s: nat)
    requires DbInv(db, skip)
    requires s < |db.steps| && db.steps[s].status.Pending?
    requires Promote(flags, db, s).Ok?
    ensures var r := Promote(flags, db, s).value;
      DbInv(r, skip) && Promoted(flags, db, r, [s])
  {
    if Spawns(flags, db.steps[s]) {
      SpawnInv(flags, db, skip, s);
    } else {
      MoveKeepsInv(db.procs, db.steps, db.notices, skip, s, Ready);
    }
  }

  lemma EnableStepInv(flags: Flags, db: Db, skip: int, s: nat, now: int)
    requires DbInv(db, skip)
    requires s < |db.steps| && db.steps[s].status.Pending?
    requires EnableStep(flags, db, s, now).Ok?
    ensures var r := EnableStep(flags, db, s, now).value;
      DbInv(r, skip) && Promoted(flags, db, r, [s])
  {
    if Eligible(flags, db, s, now) {
      PromoteInv(flags, Evaluated(db, s, now), skip, s);
    }
  }

  ghost predicate AllPending(steps: seq<Step>, rows: seq<nat>) {
    && RowsIn(rows, |steps|)
    && Distinct(rows)
    && forall k :: 0 <= k < |rows| ==> steps[rows[k]].status.Pending?
  }

  lemma RestStaysPending(flags: Flags, db: Db, next: Db, rows: seq<nat>)
    requires rows != [] && AllPending(db.steps, rows) && Promoted(flags, db, next, [rows[0]])
    ensures AllPending(next.steps, rows[1..])
  {
    forall k | 0 <= k < |rows[1..]| ensures next.steps[rows[1..][k]].status.Pending? {
      assert rows[1..][k] == rows[k + 1] && rows[k + 1] != rows[0];
    }
  }

  lemma PromotedTrans(flags: Flags, db: Db, next: Db, r: Db, rows: seq<nat>)
    requires rows != [] && RowsIn(rows, |db.steps|) && Promoted(flags, db, next, [rows[0]]) && Promoted(flags, next, r, rows[1..])
    ensures Promoted(flags, db, r, rows)
  {
    forall x: nat | x < |db.steps| ensures Opened(db.steps[x], r.steps[x]) {
      assert Opened(db.steps[x], next.steps[x]) && Opened(next.steps[x], r.steps[x]);
    }
    forall x: nat | |db.steps| <= x < |r.steps| ensures !r.steps[x].status.InProgress? {
      assert x < |next.steps| ==> Opened(next.steps[x], r.steps[x]);
    }
    forall x: nat | x < |db.steps| ensures x in rows <==> x == rows[0] || x in rows[1..] {
      assert rows == [rows[0]] + rows[1..];
    }
  }

  lemma {:induction false} EnableStepsInv(flags: Flags, db: Db, skip: int, rows: seq<nat>, now: int)
    requires DbInv(db, skip) && AllPending(db.steps, rows)
    requires EnableSteps(flags, db, rows, now).Ok?
    ensures var r := EnableSteps(flags, db, rows, now).value;
      DbInv(r, skip) && Promoted(flags, db, r, rows)
    decreases |rows|
  {
    if rows != [] {
      EnableStepInv(flags, db, skip, rows[0], now);
      var next := EnableStep(flags, db, rows[0], now).value;
      RestStaysPending(flags, db, next, rows);
      EnableStepsInv(flags, next, skip, rows[1..], now);
      PromotedTrans(flags, db, next, EnableSteps(flags, next, rows[1..], now).value, rows);
    }
  }

  /** The rows that enableNextSteps goes through. */
  lemma NextRows(flags: Flags, db: Db, s: nat, now: int) returns (rows: seq<nat>)
    requires ValidRefs(db) && s < |db.steps|
    ensures rows == PendingAt(db.steps, db.steps[s].process, db.steps[s].order + 1)
    ensures Distinct(rows) && RowsIn(rows, |db.steps|)
    ensures EnableNext(flags, db, s, now) == EnableSteps(flags, db, rows, now)
  {
    rows := PendingAt(db.steps, db.steps[s].process, db.steps[s].order + 1);
    IncreasingIsDistinct(rows);
    assert forall k :: 0 <= k < |rows| ==> rows[k] in rows;
  }

  lemma EnableNextInv(flags: Flags, db: Db, skip: int, s: nat, now: int)
    requires DbInv(db, skip)
    requires s < |db.steps| && EnableNext(flags, db, s, now).Ok?
    ensures var r := EnableNext(flags, db, s, now).value;
      && DbInv(r, skip)
      && Promoted(flags, db, r, PendingAt(db.steps, db.steps[s].process, db.steps[s].order + 1))
  {
    var rows := NextRows(flags, db, s, now);
    EnableStepsInv(flags, db, skip, rows, now);
  }

  lemma MaybeCompleteInv(flags: Flags, db: Db, p: nat)
    requires p < |db.procs| && DbInv(db, p)
    ensures var (r, terminal) := MaybeComplete(flags, db, p);
      DbInv(if terminal then r.(notices := r.notices + [ChildFinished(p)]) else r, -1)
  {
    if AllDone(db.steps, p) && db.procs[p].status.Active? {
      FinishKeepsInv(db.procs, db.steps, db.notices, p);
    } else if AllDone(db.steps, p) && db.procs[p].link.Some? && db.procs[p].status.Finished? {
      NoticeKeepsInv(db.procs, db.steps, db.notices, -1, ChildFinished(p));
    }
  }

  lemma ConcludeInv(flags: Flags, db: Db, s: nat, now: int)
    requires s < |db.steps| && ValidRefs(db) && DbInv(db, db.steps[s].process)
    requires Conclude(flags, db, s, now).Ok?
    ensures DbInv(Conclude(flags, db, s, now).value, -1)
  {
    var p := db.steps[s].process;
    EnableNextInv(flags, db, p, s, now);
    MaybeCompleteInv(flags, EnableNext(flags, db, s, now).value, p);
  }

  lemma AdvanceHeadInv(flags: Flags, db: Db, skip: int, s: nat, now: int)
    requires DbInv(db, skip)
    requires s < |db.steps| && Idle(db.steps[s].status)
    requires AdvanceHead(flags, db, s, now).Ok?
    ensures var r := AdvanceHead(flags, db, s, now).value;
      && DbInv(r, skip)
      && Promoted(flags, db, r, [s])
  {
    var entered := if db.steps[s].status.Ready? then Provision(flags, db, s) else db;
    if db.steps[s].status.Pending? && Eligible(flags, entered, s, now) {
      PromoteInv(flags, Evaluated(entered, s, now), skip, s);
    }
  }

  lemma AttemptAdvanceInv(flags: Flags, db: Db, s: nat, now: int)
    requires DbInv(db, -1)
    ensures DbInv(Committed(db, AttemptAdvance(flags, db, s, now)), -1)
  {
    if s < |db.steps| && Idle(db.steps[s].status) && AttemptAdvance(flags, db, s, now).Ok? {
      AdvanceHeadInv(flags, db, -1, s, now);
      var head := AdvanceHead(flags, db, s, now).value;
      if head.steps[s].status.Ready? {
        MoveKeepsInv(head.procs, head.steps, head.notices, -1, s, InProgress);
        var started := Move(head, s, InProgress);
        MoveKeepsInv(started.procs, started.steps, started.notices, -1, s, Completed);
        var done := Move(started, s, Completed);
        if Conclude(flags, done, s, now).Ok? { ConcludeInv(flags, done, s, now); }
      }
    }
  }

  lemma MarkCompletedInv(flags: Flags, db: Db, s: nat, now: int)
    requires DbInv(db, -1)
    ensures DbInv(Committed(db, MarkCompleted(flags, db, s, now)), -1)
  {
    if s < |db.steps| && Idle(db.steps[s].status) {
      MoveKeepsInv(db.procs, db.steps, db.notices, -1, s, Completed);
      var done := Move(db, s, Completed);
      if Conclude(flags, done, s, now).Ok? { ConcludeInv(flags, done, s, now); }
    }
  }

  lemma ResumeParentInv(flags: Flags, db: Db, s: nat, now: int)
    requires DbInv(db, -1)
    ensures DbInv(Committed(db, ResumeParent(flags, db, s, now)), -1)
  {
    if s < |db.steps| && db.steps[s].status.Completed? && ResumeParent(flags, db, s, now).Ok? {
      ConcludeInv(flags, db, s, now);
    }
  }

  lemma StartRootInv(flags: Flags, db: Db, t: nat, tenant: int, subject: string, subjectId: int,
                     policy: FailurePolicy, context: Option<Record>, host: Option<HostData>)
    requires DbInv(db, -1)
    ensures DbInv(Committed(db, StartRoot(flags, db, t, tenant, subject, subjectId, policy, context, host)), -1)
  {
    if StartRoot(flags, db, t, tenant, subject, subjectId, policy, context, host).Ok? {
      var seed := Seed(tenant, SubjectNamed(subject).value, subjectId, None, policy, context);
      var rows := OrderedSteps(db.catalog, t);
      FreshSteps(db.catalog, rows, |db.procs|);
      RootKeepsInv(db.procs, db.steps, db.notices, -1, NewProcess(seed, t, |db.procs|), NewSteps(db.catalog, rows, |db.procs|));
    }
  }

  /** Handling a child that really reached the reported status. */
  lemma HandleTerminalInv(flags: Flags, db: Db, c: nat, aborted: bool, now: int)
    requires DbInv(db, -1)
    requires c < |db.procs| && (if aborted then db.procs[c].status.Aborted? else db.procs[c].status.Finished?)
    ensures DbInv(HandleTerminal(flags, db, c, aborted, now), -1)
  {
    if flags.callProcess && db.procs[c].link.Some? {
      var link := db.procs[c].link.value;
      assert LinkOk(db.procs, db.steps, c);
      var merged := MergeIntoParent(db, link.parent, db.procs[c].context, now);
      SkeletonKeepsInv(db.procs, merged.procs, db.steps, db.notices, -1);
      if aborted && db.procs[c].policy.PauseParent? {
      } else if aborted && db.procs[c].policy.FailParent? {
        FailParentKeepsInv(merged.procs, merged.steps, merged.notices, c);
      } else {
        CompleteCallKeepsInv(merged.procs, merged.steps, merged.notices, c);
      }
    }
  }
}
