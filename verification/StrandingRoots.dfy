/** Which actions leave a root process stranded: the delivery of an ignored cancellation, and
    a conclusion of one of its steps while one of its mandatory bindings is not settled. */
module StrandingRoots {
  import opened Basics
  import opened Json
  import opened Tables
  import opened StepObjects
  import opened ChildProcess
  import opened Completion
  import opened Orchestrator
  import opened Protocol
  import opened Preservation
  import opened Evolution
  import opened Runs
  import opened Gating
  import opened Waking
  import Effects
  import Lifetimes

  /** The delivery of the ignored cancellation of a child of `p`. */
  ghost predicate ReportsIgnored(db: Db, a: Action, p: nat) {
    && a.Deliver? && a.notice < |db.notices| && db.notices[a.notice].ChildAborted?
    && db.notices[a.notice].child < |db.procs| && IgnoredChild(db.procs[db.notices[a.notice].child], p)
  }

  predicate ResumesIn(db: Db, a: Action, p: nat) {
    && a.Deliver? && a.notice < |db.notices| && db.notices[a.notice].ResumeStep?
    && db.notices[a.notice].step < |db.steps| && db.steps[db.notices[a.notice].step].process == p
  }

  /** An action that concludes a step of `p`: an advance or a completion of it, or a delivered
      resumption. */
  predicate ConcludesIn(db: Db, a: Action, p: nat) {
    || (a.Advance? && a.step < |db.steps| && db.steps[a.step].process == p)
    || (a.Complete? && a.step < |db.steps| && db.steps[a.step].process == p)
    || ResumesIn(db, a, p)
  }

  // ----- a conclusion that leaves a root open -----

  lemma DoneHasNoActiveChild(db: Db, skip: int, p: nat)
    requires DbInv(db, skip) && AllDone(db.steps, p)
    ensures NoActiveChild(db.procs, p)
  {
    forall c | 0 <= c < |db.procs| && db.procs[c].link.Some? && db.procs[c].link.value.parent == p
      ensures Terminal(db.procs[c].status)
    {
      assert LinkOk(db.procs, db.steps, c) && CallStepOk(db.procs, db.steps, db.notices, c);
    }
  }

  /** A root with all steps completed survives its conclusion only for its bindings. */
  lemma SurvivesUnsettled(flags: Flags, db: Db, t: nat, now: int, p: nat)
    requires t < |db.steps| && db.steps[t].process == p && DbInv(db, p) && Conclude(flags, db, t, now).Ok?
    requires p < |db.procs| && db.procs[p].link.None? && db.procs[p].status.Active?
    requires var r := Conclude(flags, db, t, now).value;
      p < |r.procs| && r.procs[p].status.Active? && AllDone(r.steps, p)
    ensures !AllBindingsValid(flags, Conclude(flags, db, t, now).value, p)
  {
    EnableNextInv(flags, db, p, t, now);
    ConcludeTail(flags, db, t, now);
    var enabled, r := EnableNext(flags, db, t, now).value, Conclude(flags, db, t, now).value;
    DoneHasNoActiveChild(enabled, p, p);
    EnableNextKeeps(flags, db, t, now, p);
    Effects.ProcessCompletesIff(flags, enabled, p);
    SameSettling(flags, enabled, r, p);
  }

  lemma EnableNextKeeps(flags: Flags, db: Db, t: nat, now: int, p: nat)
    requires t < |db.steps| && DbInv(db, p) && EnableNext(flags, db, t, now).Ok? && p < |db.procs|
    ensures var enabled := EnableNext(flags, db, t, now).value; p < |enabled.procs| && enabled.procs[p] == db.procs[p]
  {
    EnableNextInv(flags, db, p, t, now);
  }

  lemma SameSettling(flags: Flags, db: Db, r: Db, p: nat)
    requires r.steps == db.steps && r.bindings == db.bindings && r.catalog == db.catalog
    ensures AllBindingsValid(flags, r, p) == AllBindingsValid(flags, db, p)
  {
    forall s: nat ensures BindingsValid(flags, r, s) == BindingsValid(flags, db, s) {}
  }

  // ----- the last step completes -----

  /** The root was active before, with step `s` still open. */
  ghost predicate Reopened(db: Db, r: Db, p: nat, s: nat) {
    && p < |db.procs| && db.procs[p].status.Active? && s < |db.steps| && db.steps[s].process == p
    && !db.steps[s].status.Completed? && s < |r.steps| && r.steps[s].status.Completed?
  }

  lemma LastStep(flags: Flags, db: Db, r: Db, p: nat) returns (s: nat)
    requires Good(flags, db) && Evolves(db, r) && p < |db.procs| && Overdue(r, p) && !Overdue(db, p)
    ensures Reopened(db, r, p, s)
  {
    assert ProcessEvolves(db.procs[p], r.procs[p]);
    var w :| 0 <= w < |r.steps| && r.steps[w].process == p;
    assert w < |db.steps|;
    assert StepEvolves(db.steps[w], r.steps[w]);
    s :| 0 <= s < |db.steps| && db.steps[s].process == p && !db.steps[s].status.Completed?;
    assert StepEvolves(db.steps[s], r.steps[s]);
  }

  lemma AdvanceStrands(flags: Flags, db: Db, t: nat, now: int, p: nat, s: nat)
    requires Good(flags, db) && p < |db.procs| && db.procs[p].link.None?
    requires var r := Committed(db, AttemptAdvance(flags, db, t, now)); Reopened(db, r, p, s) && Overdue(r, p)
    ensures t == s && !AllBindingsValid(flags, Committed(db, AttemptAdvance(flags, db, t, now)), p)
  {
    AdvanceCompletesGated(flags, db, t, now, s);
    CompletedByRunning(flags, db, t, now, s);
    AdvanceHeadInv(flags, db, -1, t, now);
    var head := AdvanceHead(flags, db, t, now).value;
    MoveKeepsInv(head.procs, head.steps, head.notices, -1, t, InProgress);
    var started := Move(head, t, InProgress);
    MoveKeepsInv(started.procs, started.steps, started.notices, -1, t, Completed);
    HeadKeepsProcess(flags, db, t, now, p);
    SurvivesUnsettled(flags, Move(started, t, Completed), t, now, p);
  }

  lemma HeadKeepsProcess(flags: Flags, db: Db, t: nat, now: int, p: nat)
    requires Good(flags, db) && p < |db.procs| && t < |db.steps| && Idle(db.steps[t].status) && AdvanceHead(flags, db, t, now).Ok?
    ensures var head := AdvanceHead(flags, db, t, now).value;
      && p < |head.procs| && head.procs[p] == db.procs[p]
      && t < |head.steps| && head.steps[t].process == db.steps[t].process
  {
    AdvanceHeadInv(flags, db, -1, t, now);
  }

  lemma CompletionStrands(flags: Flags, db: Db, t: nat, now: int, p: nat, s: nat)
    requires Good(flags, db) && p < |db.procs| && db.procs[p].link.None?
    requires var r := Committed(db, MarkCompleted(flags, db, t, now)); Reopened(db, r, p, s) && Overdue(r, p)
    ensures t == s && !AllBindingsValid(flags, Committed(db, MarkCompleted(flags, db, t, now)), p)
  {
    CompleteCompletesGated(flags, db, t, now, s);
    MoveKeepsInv(db.procs, db.steps, db.notices, -1, t, Completed);
    SurvivesUnsettled(flags, Move(db, t, Completed), t, now, p);
  }

  /** The ending of a child completes a step: its resumption is under way, or it was ignored. */
  lemma EndingStrands(flags: Flags, db: Db, i: nat, now: int, p: nat, s: nat)
    requires Good(flags, db) && i < |db.notices|
    requires var r := Exec(flags, db, Deliver(i, now)); Reopened(db, r, p, s) && Stranded(r, p)
    ensures ReportsIgnored(db, Deliver(i, now), p)
  {
    var n, r := db.notices[i], Exec(flags, db, Deliver(i, now));
    assert NoticeOk(db.procs, db.steps, n);
    match n
    case ResumeStep(t) =>
      if flags.callProcess { ResumptionCompletesNone(flags, db, t, now, s); }
    case ChildFinished(c) =>
      assert LinkOk(db.procs, db.steps, c);
      assert s == db.procs[c].link.value.step;
      LastSurvives(db.notices, i, ResumeStep(s));
      StirringMember(r.procs, r.steps, r.notices, ResumeStep(s), p);
    case ChildAborted(c) =>
      if db.procs[c].link.Some? { assert LinkOk(db.procs, db.steps, c); }
  }

  // ----- the last notice that stirred it is delivered -----

  lemma {:induction false} FeedsForward(db: Db, r: Db, c: nat, p: nat)
    requires Evolves(db, r) && Feeds(db.procs, c, p)
    ensures Feeds(r.procs, c, p)
    decreases c
  {
    if c != p {
      assert ProcessEvolves(db.procs[c], r.procs[c]);
      FeedsForward(db, r, db.procs[c].link.value.parent, p);
    }
  }

  lemma StirsForward(db: Db, r: Db, n: Notice, p: nat)
    requires Evolves(db, r) && Stirs(db.procs, db.steps, n, p)
    ensures Stirs(r.procs, r.steps, n, p)
  {
    match n
    case ResumeStep(s) =>
      assert StepEvolves(db.steps[s], r.steps[s]);
      FeedsForward(db, r, db.steps[s].process, p);
    case ChildFinished(c) => FeedsForward(db, r, c, p);
  }

  /** Only a delivery takes a notice away, and only the one it delivers. */
  lemma NoticeStays(flags: Flags, db: Db, a: Action, i: nat)
    requires ValidRefs(db) && i < |db.notices| && !(a.Deliver? && a.notice < |db.notices| && db.notices[a.notice] == db.notices[i])
    ensures db.notices[i] in Exec(flags, db, a).notices
  {
    if a.Deliver? && a.notice < |db.notices| {
      var handled := Handle(flags, db, db.notices[a.notice], a.now);
      assert handled.notices[a.notice] == db.notices[a.notice] && handled.notices[i] == db.notices[i];
      WithoutMembers(handled.notices, a.notice);
    } else {
      NoticesStay(flags, db, a);
      assert Exec(flags, db, a).notices[i] == db.notices[i];
    }
  }

  lemma NoticesStay(flags: Flags, db: Db, a: Action)
    requires ValidRefs(db) && !(a.Deliver? && a.notice < |db.notices|)
    ensures db.notices <= Exec(flags, db, a).notices
  {
    if a.Advance? { AdvanceKeepsNotices(flags, db, a.step, a.now); }
  }

  lemma AdvanceKeepsNotices(flags: Flags, db: Db, t: nat, now: int)
    requires ValidRefs(db)
    ensures db.notices <= Committed(db, AttemptAdvance(flags, db, t, now)).notices
  {
    if t < |db.steps| && AdvanceHead(flags, db, t, now).Ok? { assert AdvanceHead(flags, db, t, now).value.notices == db.notices; }
  }

  /** A delivered notice that stirred an overdue root stirs it again, unless it resumes the
      root itself, whose bindings are then not settled. */
  lemma DeliveryStrands(flags: Flags, db: Db, i: nat, now: int, p: nat)
    requires Good(flags, db) && i < |db.notices| && Overdue(db, p) && db.procs[p].link.None?
    requires Stirs(db.procs, db.steps, db.notices[i], p) && Stranded(Exec(flags, db, Deliver(i, now)), p)
    ensures ResumesIn(db, Deliver(i, now), p) && !AllBindingsValid(flags, Exec(flags, db, Deliver(i, now)), p)
  {
    assert NoticeOk(db.procs, db.steps, db.notices[i]);
    match db.notices[i]
    case ResumeStep(t) =>
      if db.steps[t].process == p {
        RootResumption(flags, db, i, now, p);
      } else {
        ResumptionBelowStirs(flags, db, i, now, db.steps[t].process, p);
      }
    case ChildFinished(c) => EndingBelowStirs(flags, db, i, now, c, p);
  }

  lemma ResumptionBelowStirs(flags: Flags, db: Db, i: nat, now: int, q: nat, p: nat)
    requires Good(flags, db) && Overdue(db, p) && ResumesIn(db, Deliver(i, now), q) && q != p && Feeds(db.procs, q, p)
    ensures var r := Exec(flags, db, Deliver(i, now)); !Still(r.procs, r.steps, r.notices, p)
  {
    var r := Exec(flags, db, Deliver(i, now));
    FeederIsDone(db, -1, q, p);
    ResumptionRepeats(flags, db, i, now, q);
    LastSurvives(db.notices, i, ChildFinished(q));
    StirringMember(r.procs, r.steps, r.notices, ChildFinished(q), p);
  }

  lemma EndingBelowStirs(flags: Flags, db: Db, i: nat, now: int, c: nat, p: nat)
    requires Good(flags, db) && Overdue(db, p) && i < |db.notices| && db.notices[i] == ChildFinished(c) && Feeds(db.procs, c, p)
    ensures var r := Exec(flags, db, Deliver(i, now)); !Still(r.procs, r.steps, r.notices, p)
  {
    var r := Exec(flags, db, Deliver(i, now));
    assert NoticeOk(db.procs, db.steps, db.notices[i]) && LinkOk(db.procs, db.steps, c);
    var l := db.procs[c].link.value;
    FeederIsDone(db, -1, l.parent, p);
    EndIsPassedOn(flags, db, i, now, c);
    FeedsSame(db.procs, r.procs, l.parent, p);
    LastSurvives(db.notices, i, ResumeStep(l.step));
    StirringMember(r.procs, r.steps, r.notices, ResumeStep(l.step), p);
  }

  lemma RootResumption(flags: Flags, db: Db, i: nat, now: int, p: nat)
    requires Good(flags, db) && Overdue(db, p) && db.procs[p].link.None? && ResumesIn(db, Deliver(i, now), p)
    requires Overdue(Exec(flags, db, Deliver(i, now)), p)
    ensures !AllBindingsValid(flags, Exec(flags, db, Deliver(i, now)), p)
  {
    if AllBindingsValid(flags, db, p) {
      ResumptionEnds(flags, db, i, now, p);
    } else {
      ResumptionChangesNoBinding(flags, db, i, now, p);
      SameSettling(flags, db, Exec(flags, db, Deliver(i, now)), p);
    }
  }

  lemma ResumptionChangesNoBinding(flags: Flags, db: Db, i: nat, now: int, p: nat)
    requires Good(flags, db) && AllDone(db.steps, p) && ResumesIn(db, Deliver(i, now), p)
    ensures var r := Exec(flags, db, Deliver(i, now));
      r.steps == db.steps && r.bindings == db.bindings && r.catalog == db.catalog
  {
    var t := db.notices[i].step;
    DoneHasNothingNext(flags, db, t, now);
    if Conclude(flags, db, t, now).Ok? { ConcludeTail(flags, db, t, now); }
  }

  // ----- the theorem -----

  /** An action strands a root only by delivering the ignored cancellation of one of its
      children, or by concluding one of its steps while a mandatory binding is not settled. */
  lemma RootIsStrandedBy(flags: Flags, db: Db, a: Action, p: nat)
    requires Good(flags, db) && p < |db.procs| && db.procs[p].link.None?
    requires !Stranded(db, p) && Stranded(Exec(flags, db, a), p)
    ensures ReportsIgnored(db, a, p) || (ConcludesIn(db, a, p) && !AllBindingsValid(flags, Exec(flags, db, a), p))
  {
    var r := Exec(flags, db, a);
    ExecGood(flags, db, a);
    if Overdue(db, p) {
      var i :| 0 <= i < |db.notices| && Stirs(db.procs, db.steps, db.notices[i], p);
      StirsForward(db, r, db.notices[i], p);
      StirringMember(r.procs, r.steps, r.notices, db.notices[i], p);
      if !(a.Deliver? && a.notice < |db.notices| && db.notices[a.notice] == db.notices[i]) { NoticeStays(flags, db, a, i); }
      DeliveryStrands(flags, db, a.notice, a.now, p);
    } else {
      var s := LastStep(flags, db, r, p);
      LastStepStrands(flags, db, a, p, s);
    }
  }

  lemma LastStepStrands(flags: Flags, db: Db, a: Action, p: nat, s: nat)
    requires Good(flags, db) && p < |db.procs| && db.procs[p].link.None?
    requires Reopened(db, Exec(flags, db, a), p, s) && Stranded(Exec(flags, db, a), p)
    ensures ReportsIgnored(db, a, p) || (ConcludesIn(db, a, p) && !AllBindingsValid(flags, Exec(flags, db, a), p))
  {
    match a
    case Advance(t, now) => AdvanceStrands(flags, db, t, now, p, s);
    case Complete(t, now) => CompletionStrands(flags, db, t, now, p, s);
    case Deliver(i, now) => if i < |db.notices| { EndingStrands(flags, db, i, now, p, s); }
    case _ => Lifetimes.OthersStartNothing(flags, db, a, s);
  }
}
