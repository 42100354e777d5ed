/** Which pending steps can ever start: what the action that starts a step finds, the steps no
    run starts, and a run that starts any other. */
module Lifetimes {
  import opened Basics
  import opened Json
  import opened Tables
  import opened StepObjects
  import opened Instantiation
  import opened ProjectHost
  import opened ChildProcess
  import opened Completion
  import opened Orchestrator
  import opened Protocol
  import opened Preservation
  import opened Evolution
  import opened Runs
  import opened Gating
  import opened Starting
  import Effects

  // ----- what the action that starts a step finds -----

  ghost predicate Startable(flags: Flags, db: Db, s: nat, now: int)
    requires s < |db.steps| && ValidRefs(db)
  {
    Eligible(flags, db, s, now) && !CannotSpawn(flags, db, s)
  }

  /** Tables in which `s` is judged as in `db`. */
  ghost predicate SameJudgement(db: Db, r: Db, s: nat) {
    Effects.SameView(db, r, s) && SameSpawning(db, r, s)
  }

  lemma SameStartable(flags: Flags, db: Db, r: Db, s: nat, now: int)
    requires SameJudgement(db, r, s)
    ensures Startable(flags, r, s, now) == Startable(flags, db, s, now)
  {
    Effects.SameEligibility(flags, db, r, s, now);
  }

  lemma ConcludeStarts(flags: Flags, db: Db, t: nat, now: int, s: nat)
    requires ValidRefs(db) && t < |db.steps| && s < |db.steps| && Conclude(flags, db, t, now).Ok?
    ensures s < |Conclude(flags, db, t, now).value.steps|
    ensures Conclude(flags, db, t, now).value.steps[s] == db.steps[s] || Startable(flags, db, s, now)
  {
    Effects.NextStepsAreUnlockedExactly(flags, db, t, now, s);
    ConcludeTail(flags, db, t, now);
    EnableNextFailsIff(flags, db, t, now);
    if IsNext(db, t, s) && Eligible(flags, db, s, now) { assert !BlocksNext(flags, db, t, s, now); }
  }

  lemma EnteringKeepsJudgement(flags: Flags, db: Db, t: nat, s: nat)
    requires ValidRefs(db) && t < |db.steps| && s < |db.steps| && s != t
    ensures SameJudgement(db, Provision(flags, db, t), s)
  {
    Effects.ProvisionKeepsView(flags, db, t, s);
  }

  lemma EvaluationKeepsJudgement(db: Db, t: nat, now: int, s: nat)
    requires ValidRefs(db) && t < |db.steps| && s < |db.steps|
    ensures SameJudgement(db, Evaluated(db, t, now), s)
  {
    Effects.EvaluatedKeepsView(db, t, now, s);
  }

  lemma PromotionKeepsJudgement(flags: Flags, db: Db, t: nat, s: nat)
    requires ValidRefs(db) && t < |db.steps| && s < |db.steps| && s != t && Promote(flags, db, t).Ok?
    ensures SameJudgement(db, Promote(flags, db, t).value, s)
  {
    Effects.PromoteKeepsView(flags, db, t, s);
    SpawnKeepsOthers(flags, db, t, s);
  }

  lemma JudgementTrans(a: Db, b: Db, c: Db, s: nat)
    requires SameJudgement(a, b, s) && SameJudgement(b, c, s)
    ensures SameJudgement(a, c, s)
  {
    Effects.SameViewTrans(a, b, c, s);
  }

  lemma HeadKeepsJudgement(flags: Flags, db: Db, t: nat, now: int, s: nat)
    requires ValidRefs(db) && t < |db.steps| && s < |db.steps| && s != t && AdvanceHead(flags, db, t, now).Ok?
    ensures SameJudgement(db, AdvanceHead(flags, db, t, now).value, s)
  {
    var entered := if db.steps[t].status.Ready? then Provision(flags, db, t) else db;
    EnteringKeepsJudgement(flags, db, t, s);
    assert SameJudgement(db, entered, s);
    var checked := Evaluated(entered, t, now);
    EvaluationKeepsJudgement(entered, t, now, s);
    JudgementTrans(db, entered, checked, s);
    if db.steps[t].status.Pending? && Eligible(flags, entered, t, now) {
      PromotionKeepsJudgement(flags, checked, t, s);
      JudgementTrans(db, checked, AdvanceHead(flags, db, t, now).value, s);
    }
  }

  /** An automated step that runs at once unlocks only startable steps. */
  lemma RunStarts(flags: Flags, db: Db, head: Db, t: nat, now: int, s: nat)
    requires SameJudgement(db, head, s) && t < |head.steps| && s != t
    requires Conclude(flags, Move(Move(head, t, InProgress), t, Completed), t, now).Ok?
    ensures var r := Conclude(flags, Move(Move(head, t, InProgress), t, Completed), t, now).value;
      s < |r.steps| && (r.steps[s] == db.steps[s] || Startable(flags, db, s, now))
  {
    var done := Move(Move(head, t, InProgress), t, Completed);
    MovesKeepOthers(head, t, s);
    JudgementTrans(db, head, done, s);
    SameStartable(flags, db, done, s, now);
    ConcludeStarts(flags, done, t, now, s);
  }

  lemma AdvanceStarts(flags: Flags, db: Db, t: nat, now: int, s: nat)
    requires Good(flags, db) && s < |db.steps| && db.steps[s].status.Pending?
    ensures var r := Committed(db, AttemptAdvance(flags, db, t, now));
      s < |r.steps| && (r.steps[s].status.Pending? || Startable(flags, db, s, now))
  {
    if t == s {
      AdvanceStartsIff(flags, db, s, now);
    } else if t < |db.steps| && Idle(db.steps[t].status) && AttemptAdvance(flags, db, t, now).Ok? {
      HeadKeepsJudgement(flags, db, t, now, s);
      var head := AdvanceHead(flags, db, t, now).value;
      if head.steps[t].taskType.Automated? && head.steps[t].status.Ready? && AdvanceOpen(flags, db, t, now) {
        RunStarts(flags, db, head, t, now, s);
      }
    }
  }

  lemma CompletionStarts(flags: Flags, db: Db, t: nat, now: int, s: nat)
    requires Good(flags, db) && s < |db.steps| && db.steps[s].status.Pending?
    ensures var r := Committed(db, MarkCompleted(flags, db, t, now));
      s < |r.steps| && (r.steps[s].status.Pending? || Startable(flags, db, s, now))
  {
    if t < |db.steps| && t != s && MarkCompleted(flags, db, t, now).Ok? {
      var done := Move(db, t, Completed);
      MoveKeepsOthers(db, t, Completed, s);
      SameStartable(flags, db, done, s, now);
      if Conclude(flags, done, t, now).Ok? { ConcludeStarts(flags, done, t, now, s); }
    }
  }

  lemma EndingStartsNothing(flags: Flags, db: Db, c: nat, aborted: bool, now: int, s: nat)
    requires Good(flags, db) && c < |db.procs| && s < |db.steps| && db.steps[s].status.Pending?
    ensures var r := HandleTerminal(flags, db, c, aborted, now); s < |r.steps| && r.steps[s] == db.steps[s]
  {
    if db.procs[c].link.Some? {
      assert LinkOk(db.procs, db.steps, c) && CallStepOk(db.procs, db.steps, db.notices, c);
      assert db.procs[c].link.value.step != s;
    }
  }

  lemma DeliveryStarts(flags: Flags, db: Db, n: Notice, now: int, s: nat)
    requires Good(flags, db) && n in db.notices && s < |db.steps| && db.steps[s].status.Pending?
    ensures var r := Handle(flags, db, n, now);
      s < |r.steps| && (r.steps[s].status.Pending? || Startable(flags, db, s, now))
  {
    assert NoticeOk(db.procs, db.steps, n);
    match n
    case ResumeStep(t) =>
      if flags.callProcess && db.steps[t].status.Completed? && ResumeParent(flags, db, t, now).Ok? {
        ConcludeStarts(flags, db, t, now, s);
      }
    case ChildFinished(c) => EndingStartsNothing(flags, db, c, false, now, s);
    case ChildAborted(c) => EndingStartsNothing(flags, db, c, true, now, s);
  }

  /** Whichever action takes a step out of pending, the state before it had the step's gates
      open, its triggers met at that instant, and its child, if it calls one, startable. */
  lemma StartedOnlyIfStartable(flags: Flags, db: Db, a: Action, s: nat)
    requires Good(flags, db) && s < |db.steps| && db.steps[s].status.Pending?
    ensures var r := Exec(flags, db, a);
      s < |r.steps| && (!r.steps[s].status.Pending? ==> exists now :: Startable(flags, db, s, now))
  {
    match a
    case Advance(t, now) => AdvanceStarts(flags, db, t, now, s);
    case Complete(t, now) => CompletionStarts(flags, db, t, now, s);
    case Deliver(i, now) => if i < |db.notices| { DeliveryStarts(flags, db, db.notices[i], now, s); }
    case _ => OthersStartNothing(flags, db, a, s);
  }

  lemma OthersStartNothing(flags: Flags, db: Db, a: Action, s: nat)
    requires ValidRefs(db) && s < |db.steps| && !a.Advance? && !a.Complete? && !a.Deliver?
    ensures s < |Exec(flags, db, a).steps| && Exec(flags, db, a).steps[s] == db.steps[s]
  {}

  // ----- steps no run starts -----

  /** What the triggers of `s` see once every mandatory requirement is approved. */
  function ApprovedContext(db: Db, s: nat, now: int): TriggerContext
    requires s < |db.steps| && ValidRefs(db)
  {
    ContextOf(db, s, now).(allRequiredApproved := true)
  }

  /** At no instant do all triggers of the step hold together. */
  ghost predicate NeverMet(db: Db, s: nat)
    requires s < |db.steps| && ValidRefs(db)
  {
    forall now :: !TriggersMet(db.trigs, s, ApprovedContext(db, s, now))
  }

  /** A call step whose template names no child, or a child on a tier that is switched off. */
  predicate NeverSpawns(flags: Flags, db: Db, s: nat)
    requires s < |db.steps| && ValidRefs(db)
  {
    var step, parent := db.steps[s], db.procs[db.steps[s].process];
    && Spawns(flags, step)
    && (step.template >= |db.catalog.steps|
        || db.catalog.steps[step.template].childTemplate.None?
        || !TierEnabled(flags, ChildType(parent, db.catalog.steps[step.template].subjectPolicy)))
  }

  ghost predicate Hopeless(flags: Flags, db: Db, s: nat)
    requires s < |db.steps| && ValidRefs(db)
  {
    AwaitsObject(flags, db, s) || NeverMet(db, s) || NeverSpawns(flags, db, s)
  }

  lemma HopelessIsNotStartable(flags: Flags, db: Db, s: nat, now: int)
    requires Good(flags, db) && s < |db.steps| && db.steps[s].status.Pending? && Hopeless(flags, db, s)
    ensures !Startable(flags, db, s, now)
  {
    IdleHasNoChild(db.procs, db.steps, db.notices, -1, s);
    if AwaitsObject(flags, db, s) { SealedIsIneligible(flags, db, s, now); }
    if Eligible(flags, db, s, now) { assert ContextOf(db, s, now) == ApprovedContext(db, s, now); }
  }

  lemma StaysNeverMet(db: Db, r: Db, s: nat)
    requires ValidRefs(db) && ValidRefs(r) && s < |db.steps| && s < |r.steps| && r.steps[s] == db.steps[s]
    requires Evolves(db, r) && TriggersFit(db, r) && NeverMet(db, s)
    ensures NeverMet(r, s)
  {
    assert ProcessEvolves(db.procs[db.steps[s].process], r.procs[db.steps[s].process]);
    forall now ensures !TriggersMet(r.trigs, s, ApprovedContext(r, s, now)) {
      assert !TriggersMet(db.trigs, s, ApprovedContext(db, s, now));
      var i :| 0 <= i < |db.trigs| && db.trigs[i].step == s && !Holds(db.trigs[i].condition, ApprovedContext(db, s, now));
      assert SameTrigger(db.trigs[i], r.trigs[i]);
    }
  }

  lemma StaysNeverSpawning(flags: Flags, db: Db, r: Db, s: nat)
    requires ValidRefs(db) && ValidRefs(r) && s < |db.steps| && s < |r.steps| && r.steps[s] == db.steps[s]
    requires Evolves(db, r) && TriggersFit(db, r) && NeverSpawns(flags, db, s)
    ensures NeverSpawns(flags, r, s)
  {
    assert ProcessEvolves(db.procs[db.steps[s].process], r.procs[db.steps[s].process]);
  }

  ghost predicate SparesTemplates(actions: seq<Action>) {
    forall i :: 0 <= i < |actions| ==> !actions[i].EditCatalog?
  }

  /** A hopeless step stays pending, and hopeless, in every run that leaves the templates alone. */
  lemma {:induction false} HopelessForever(flags: Flags, db: Db, actions: seq<Action>, s: nat)
    requires Good(flags, db) && s < |db.steps| && db.steps[s].status.Pending? && Hopeless(flags, db, s)
    requires SparesTemplates(actions)
    ensures var r := Run(flags, db, actions);
      s < |r.steps| && r.steps[s].status.Pending? && Hopeless(flags, r, s)
    decreases |actions|
  {
    if actions != [] {
      var before, last := Run(flags, db, actions[..|actions| - 1]), actions[|actions| - 1];
      HopelessForever(flags, db, actions[..|actions| - 1], s);
      HopelessStays(flags, before, last, s);
    }
  }

  lemma HopelessStays(flags: Flags, db: Db, a: Action, s: nat)
    requires Good(flags, db) && s < |db.steps| && db.steps[s].status.Pending? && Hopeless(flags, db, s)
    requires !a.EditCatalog?
    ensures var r := Exec(flags, db, a);
      ValidRefs(r) && s < |r.steps| && r.steps[s].status.Pending? && Hopeless(flags, r, s)
  {
    var r := Exec(flags, db, a);
    ExecGood(flags, db, a);
    if AwaitsObject(flags, db, s) {
      SealedAwaiting(flags, db, a, s);
    } else {
      StartedOnlyIfStartable(flags, db, a, s);
      forall now ensures !Startable(flags, db, s, now) { HopelessIsNotStartable(flags, db, s, now); }
      ExecFits(flags, db, a);
      assert StepEvolves(db.steps[s], r.steps[s]);
      if NeverMet(db, s) { StaysNeverMet(db, r, s); } else { StaysNeverSpawning(flags, db, r, s); }
    }
  }

  lemma SealedAwaiting(flags: Flags, db: Db, a: Action, s: nat)
    requires Good(flags, db) && s < |db.steps| && db.steps[s].status.Pending? && AwaitsObject(flags, db, s)
    requires !a.EditCatalog?
    ensures var r := Exec(flags, db, a); s < |r.steps| && r.steps[s].status.Pending? && AwaitsObject(flags, r, s)
  {
    ExecLeavesSealed(flags, db, a, s);
    var r := Exec(flags, db, a);
    var b :| 0 <= b < |db.bindings| && Waits(db.catalog, db.bindings[b], s);
    assert SamePending(db.bindings[b], r.bindings[b], s);
    assert Waits(r.catalog, r.bindings[b], s);
  }

  // ----- a run that starts the others -----

  /** The requirements of step `s` among the first `n` rows are approved. */
  function Approved(db: Db, s: nat, n: nat): Db {
    db.(reqs := seq(|db.reqs|, i requires 0 <= i < |db.reqs| =>
      if i < n && db.reqs[i].step == s then db.reqs[i].(approved := true) else db.reqs[i]))
  }

  /** A run of approvals leads there. */
  lemma {:induction false} RunApprovals(flags: Flags, db: Db, s: nat, n: nat) returns (actions: seq<Action>)
    requires Good(flags, db) && n <= |db.reqs|
    ensures Approves(flags, db, s, n, actions) && SparesTemplates(actions)
  {
    if n == 0 {
      NothingApproved(flags, db, s);
      actions := [];
    } else {
      var earlier := RunApprovals(flags, db, s, n - 1);
      actions := RunApproval(flags, db, s, n, earlier);
    }
  }

  lemma NothingApproved(flags: Flags, db: Db, s: nat)
    requires Good(flags, db)
    ensures Approves(flags, db, s, 0, [])
  {
    assert Approved(db, s, 0).reqs == db.reqs;
  }

  ghost predicate Approves(flags: Flags, db: Db, s: nat, n: nat, actions: seq<Action>)
    requires Good(flags, db)
  {
    Run(flags, db, actions) == Approved(db, s, n)
  }

  lemma RunApproval(flags: Flags, db: Db, s: nat, n: nat, earlier: seq<Action>) returns (actions: seq<Action>)
    requires Good(flags, db) && 0 < n <= |db.reqs| && Approves(flags, db, s, n - 1, earlier) && SparesTemplates(earlier)
    ensures Approves(flags, db, s, n, actions) && SparesTemplates(actions)
  {
    ApprovedNext(flags, db, s, n);
    if db.reqs[n - 1].step == s {
      actions := earlier + [ReviewRequirement(n - 1, true)];
      ReviewedNext(flags, db, s, n, earlier);
    } else {
      actions := earlier;
    }
  }

  lemma ReviewedNext(flags: Flags, db: Db, s: nat, n: nat, earlier: seq<Action>)
    requires Good(flags, db) && 0 < n <= |db.reqs| && Approves(flags, db, s, n - 1, earlier)
    requires ValidRefs(Approved(db, s, n - 1))
    requires Approved(db, s, n) == Exec(flags, Approved(db, s, n - 1), ReviewRequirement(n - 1, true))
    ensures Approves(flags, db, s, n, earlier + [ReviewRequirement(n - 1, true)])
  {
    RunSnoc(flags, db, earlier, ReviewRequirement(n - 1, true));
  }

  lemma ApprovedNext(flags: Flags, db: Db, s: nat, n: nat)
    requires ValidRefs(db) && 0 < n <= |db.reqs|
    ensures var before := Approved(db, s, n - 1);
      && ValidRefs(before)
      && Approved(db, s, n) == if db.reqs[n - 1].step == s then Exec(flags, before, ReviewRequirement(n - 1, true)) else before
  {
    var before, after := Approved(db, s, n - 1), Approved(db, s, n);
    if db.reqs[n - 1].step == s {
      assert before.reqs[n - 1 := before.reqs[n - 1].(approved := true)] == after.reqs;
    } else {
      assert before.reqs == after.reqs;
    }
  }

  /** Step `s` can start at `now` as soon as its requirements are approved. */
  ghost predicate Awaits(flags: Flags, db: Db, s: nat, now: int)
    requires s < |db.steps| && ValidRefs(db)
  {
    && BindingsValid(flags, db, s) && TriggersMet(db.trigs, s, ApprovedContext(db, s, now)) && !CannotSpawn(flags, db, s)
    && (db.steps[s].taskType.Automated? ==> !NextCannotSpawn(flags, db, s, now))
  }

  /** Approval opens the gates of `s` and leaves the steps after it as they are judged. */
  lemma ApprovalOpens(flags: Flags, db: Db, s: nat, now: int)
    requires ValidRefs(db) && s < |db.steps| && Awaits(flags, db, s, now)
    ensures var r := Approved(db, s, |db.reqs|);
      && ValidRefs(r) && Startable(flags, r, s, now)
      && (db.steps[s].taskType.Automated? ==> !NextCannotSpawn(flags, r, s, now))
  {
    var r := Approved(db, s, |db.reqs|);
    assert RequirementsApproved(r, s);
    assert ContextOf(r, s, now) == ApprovedContext(db, s, now);
    forall x | 0 <= x < |db.steps| && BlocksNext(flags, r, s, x, now) ensures BlocksNext(flags, db, s, x, now) {
      OthersUnapproved(flags, db, s, x, now);
    }
  }

  lemma OthersUnapproved(flags: Flags, db: Db, s: nat, x: nat, now: int)
    requires ValidRefs(db) && x < |db.steps| && x != s
    ensures Eligible(flags, Approved(db, s, |db.reqs|), x, now) == Eligible(flags, db, x, now)
  {
    var r := Approved(db, s, |db.reqs|);
    assert RequirementsApproved(r, x) == RequirementsApproved(db, x) by {
      assert forall i :: 0 <= i < |db.reqs| && db.reqs[i].step == x ==> r.reqs[i] == db.reqs[i];
    }
    assert ContextOf(r, x, now) == ContextOf(db, x, now);
  }

  /** Approving its requirements and then advancing it takes such a step out of pending. */
  lemma StartsAfterApprovals(flags: Flags, db: Db, s: nat, now: int) returns (actions: seq<Action>)
    requires Good(flags, db) && s < |db.steps| && db.steps[s].status.Pending? && Awaits(flags, db, s, now)
    ensures SparesTemplates(actions) && StartsIn(flags, db, actions, s)
  {
    var approvals := RunApprovals(flags, db, s, |db.reqs|);
    ApprovalOpens(flags, db, s, now);
    AdvancesNext(flags, db, approvals, s, now);
    actions := approvals + [Advance(s, now)];
  }

  lemma AdvancesNext(flags: Flags, db: Db, actions: seq<Action>, s: nat, now: int)
    requires Good(flags, db)
    requires var r := Run(flags, db, actions);
      && s < |r.steps| && r.steps[s].status.Pending? && Startable(flags, r, s, now)
      && (r.steps[s].taskType.Automated? ==> !NextCannotSpawn(flags, r, s, now))
    ensures StartsIn(flags, db, actions + [Advance(s, now)], s)
  {
    RunSnoc(flags, db, actions, Advance(s, now));
    AdvanceStartsIff(flags, Run(flags, db, actions), s, now);
  }

  /** Some run that leaves the templates alone takes the step out of pending. */
  ghost predicate CanStart(flags: Flags, db: Db, s: nat)
    requires Good(flags, db)
  {
    exists actions :: SparesTemplates(actions) && StartsIn(flags, db, actions, s)
  }

  ghost predicate StartsIn(flags: Flags, db: Db, actions: seq<Action>, s: nat)
    requires Good(flags, db)
  {
    s < |Run(flags, db, actions).steps| && !Run(flags, db, actions).steps[s].status.Pending?
  }

  /** Provisioning has not reached the step yet. */
  ghost predicate Unprovisioned(db: Db, s: nat) {
    forall b :: 0 <= b < |db.bindings| && db.bindings[b].step == s ==> db.bindings[b].status.BindingPending?
  }

  /** The step would call a child on an object that its process does not know yet. */
  predicate WantsInstance(flags: Flags, db: Db, s: nat)
    requires s < |db.steps| && ValidRefs(db)
  {
    && Spawns(flags, db.steps[s]) && db.steps[s].template < |db.catalog.steps|
    && db.catalog.steps[db.steps[s].template].subjectPolicy.UseConfigInstance?
    && NoInstance(db.procs[db.steps[s].process])
  }

  /** A step can ever start only if it is not hopeless. If it is not automated and wants no
      object its process does not know, it can exactly then; an automated one can if moreover
      at some instant its triggers hold and no step it would unlock is unable to spawn. */
  lemma CanStartIff(flags: Flags, db: Db, s: nat)
    requires Good(flags, db) && s < |db.steps| && db.steps[s].status.Pending? && Unprovisioned(db, s)
    ensures CanStart(flags, db, s) ==> !Hopeless(flags, db, s)
    ensures !WantsInstance(flags, db, s) && !db.steps[s].taskType.Automated? ==>
      (CanStart(flags, db, s) <==> !Hopeless(flags, db, s))
    ensures (exists now :: Awaits(flags, db, s, now)) ==> CanStart(flags, db, s)
  {
    if CanStart(flags, db, s) && Hopeless(flags, db, s) {
      var actions :| SparesTemplates(actions) && StartsIn(flags, db, actions, s);
      HopelessForever(flags, db, actions, s);
    }
    if !WantsInstance(flags, db, s) && !db.steps[s].taskType.Automated? && !Hopeless(flags, db, s) {
      var now :| TriggersMet(db.trigs, s, ApprovedContext(db, s, now));
      assert Awaits(flags, db, s, now) by { NothingMandatory(flags, db, s); }
    }
    if now :| Awaits(flags, db, s, now) {
      var actions := StartsAfterApprovals(flags, db, s, now);
    }
  }

  lemma NothingMandatory(flags: Flags, db: Db, s: nat)
    requires Unprovisioned(db, s) && !AwaitsObject(flags, db, s)
    ensures BindingsValid(flags, db, s)
  {
    if flags.objectSteps {
      forall b | 0 <= b < |db.bindings| && db.bindings[b].step == s ensures !Mandatory(db.catalog, db.bindings[b]) {
        assert Mandatory(db.catalog, db.bindings[b]) ==> Waits(db.catalog, db.bindings[b], s);
      }
    }
  }

  /** Every new step is unprovisioned. */
  lemma BornUnprovisioned(db: Db, t: nat, seed: Seed, s: nat)
    requires BindInv(db) && |db.steps| <= s
    ensures Unprovisioned(Instantiate(db, t, seed), s)
  {
    OldBindingsRefer(db);
    var r := Instantiate(db, t, seed);
    forall b | 0 <= b < |r.bindings| && r.bindings[b].step == s ensures r.bindings[b].status.BindingPending? {
      assert b >= |db.bindings|;
    }
  }
}
