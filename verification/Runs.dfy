/** Runs of the engine: any interleaving of its transactions, of the delivery of notices,
    and of what users do to the tables in between. */
module Runs {
  import opened Basics
  import opened Json
  import opened Tables
  import opened StepObjects
  import opened Instantiation
  import opened ProjectHost
  import opened ChildProcess
  import opened Completion
  import opened Orchestrator
  import opened Protocol
  import opened Preservation
  import opened Evolution
  import opened Soundness
  import CompletionRule

  datatype Action =
    | StartProcess(template: nat, tenant: int, subject: string, subjectId: int,
                   policy: FailurePolicy, context: Option<Record>, host: Option<HostData>)
    | Advance(step: nat, now: int)
    | Complete(step: nat, now: int)
    | Deliver(notice: nat, now: int)
    | ValidateObject(instance: nat)
    | RecordMet(trigger: nat)
    // the environment
    | CancelProcess(process: nat)
    | ReviewRequirement(requirement: nat, approved: bool)
    | AddObject(added: CustomObject)
    | EditObject(instance: nat, payload: Record, status: ObjectStatus)
    | EditCatalog(catalog: Catalog)

  const NO_CATALOG := Catalog([], [], [], [], [])

  function Empty(): Db {
    Db([], [], [], [], [], [], [], map[], [], [], NO_CATALOG)
  }

  /** What handling notice `n` does, before it is dropped. */
  function Handle(flags: Flags, db: Db, n: Notice, now: int): (r: Db)
    requires ValidRefs(db)
    ensures db.notices <= r.notices
  {
    match n
    case ChildFinished(c) => HandleTerminal(flags, db, c, false, now)
    case ChildAborted(c) => HandleTerminal(flags, db, c, true, now)
    case ResumeStep(s) => if flags.callProcess then Committed(db, ResumeParent(flags, db, s, now)) else db
  }

  function Drop(db: Db, i: nat): Db
    requires i < |db.notices|
  {
    db.(notices := Without(db.notices, i))
  }

  function Exec(flags: Flags, db: Db, a: Action): Db
    requires ValidRefs(db)
  {
    match a
    case StartProcess(t, tenant, subject, subjectId, policy, context, host) =>
      Committed(db, StartRoot(flags, db, t, tenant, subject, subjectId, policy, context, host))
    case Advance(s, now) => Committed(db, AttemptAdvance(flags, db, s, now))
    case Complete(s, now) => Committed(db, MarkCompleted(flags, db, s, now))
    case Deliver(i, now) =>
      if i < |db.notices| then Drop(Handle(flags, db, db.notices[i], now), i) else db
    case ValidateObject(o) => Validate(flags, db, o)
    case RecordMet(t) =>
      if t < |db.trigs| then db.(trigs := db.trigs[t := db.trigs[t].(met := true)]) else db
    case CancelProcess(p) =>
      if p < |db.procs| && db.procs[p].status.Active?
      then SetProcess(db, p, Aborted).(notices := db.notices + [ChildAborted(p)])
      else db
    case ReviewRequirement(r, approved) =>
      if r < |db.reqs| then db.(reqs := db.reqs[r := db.reqs[r].(approved := approved)]) else db
    case AddObject(added) => db.(objects := db.objects + [added])
    case EditObject(o, payload, status) =>
      if o < |db.objects|
      then db.(objects := db.objects[o := db.objects[o].(payload := payload, status := status)])
      else db
    case EditCatalog(catalog) => db.(catalog := catalog)
  }

  // ----- the run invariant -----

  ghost predicate HookOk(db: Db, p: nat) {
    && p < |db.procs|
    && !db.procs[p].status.Active?
    && AllDone(db.steps, p)
    && (db.procs[p].link.None? || db.procs[p].status.Aborted?)
  }

  ghost predicate NoneRunning(steps: seq<Step>) {
    forall s :: 0 <= s < |steps| ==> !steps[s].status.InProgress?
  }

  ghost predicate LinksNeedFlag(flags: Flags, procs: seq<Process>) {
    forall c :: 0 <= c < |procs| && procs[c].link.Some? ==> flags.callProcess
  }

  ghost predicate Good(flags: Flags, db: Db) {
    && DbInv(db, -1)
    && Sound(db)
    && NoneRunning(db.steps)
    && LinksNeedFlag(flags, db.procs)
    && (forall h :: h in db.hooks ==> HookOk(db, h))
  }

  /** Completed steps of a process stay all its steps, and stay completed. */
  lemma AllDoneAbsorbing(a: Db, b: Db, p: nat)
    requires Evolves(a, b) && p < |a.procs| && AllDone(a.steps, p)
    ensures AllDone(b.steps, p)
  {
    var w :| 0 <= w < |a.steps| && a.steps[w].process == p;
    assert StepEvolves(a.steps[w], b.steps[w]);
    forall x | 0 <= x < |b.steps| && b.steps[x].process == p ensures b.steps[x].status.Completed? {
      assert x < |a.steps| ==> StepEvolves(a.steps[x], b.steps[x]);
    }
  }

  lemma HooksEvolve(a: Db, b: Db)
    requires Evolves(a, b)
    requires forall h :: h in a.hooks ==> HookOk(a, h)
    ensures forall h :: h in a.hooks ==> HookOk(b, h)
  {
    forall h | h in a.hooks ensures HookOk(b, h) {
      AllDoneAbsorbing(a, b, h);
      assert ProcessEvolves(a.procs[h], b.procs[h]);
    }
  }

  // ----- the parts of Good that need only a glance at each transaction -----

  /** The side conditions, after a transaction that evolves `db`. */
  ghost predicate Minor(flags: Flags, r: Db) {
    && NoneRunning(r.steps)
    && LinksNeedFlag(flags, r.procs)
    && (forall h :: h in r.hooks ==> HookOk(r, h))
  }

  lemma PromotedMinor(flags: Flags, db: Db, r: Db, touched: seq<nat>)
    requires Minor(flags, db) && Promoted(flags, db, r, touched) && Evolves(db, r)
    ensures Minor(flags, r)
  {
    HooksEvolve(db, r);
    forall s | 0 <= s < |r.steps| ensures !r.steps[s].status.InProgress? {
      assert s < |db.steps| ==> Opened(db.steps[s], r.steps[s]);
    }
  }

  lemma MaybeCompleteMinor(flags: Flags, db: Db, p: nat)
    requires Minor(flags, db) && p < |db.procs| && Sound(db)
    ensures Minor(flags, MaybeComplete(flags, db, p).0)
  {
    var (r, terminal) := MaybeComplete(flags, db, p);
    MaybeCompleteGrows(flags, db, p, db.notices);
    HooksEvolve(db, r);
  }

  lemma ConcludeMinor(flags: Flags, db: Db, s: nat, now: int)
    requires s < |db.steps| && DbInv(db, db.steps[s].process) && Sound(db) && Minor(flags, db)
    requires Conclude(flags, db, s, now).Ok?
    ensures Minor(flags, Conclude(flags, db, s, now).value)
  {
    var p := db.steps[s].process;
    EnableNextInv(flags, db, p, s, now);
    EnableNextGrows(flags, db, p, s, now);
    var enabled := EnableNext(flags, db, s, now).value;
    PromotedMinor(flags, db, enabled, PendingAt(db.steps, p, db.steps[s].order + 1));
    MaybeCompleteMinor(flags, enabled, p);
  }

  /** A step of an unfinished process completes. */
  lemma CompletedStepMinor(flags: Flags, db: Db, r: Db, s: nat)
    requires Minor(flags, db) && Evolves(db, r)
    requires s < |db.steps| && r.procs == db.procs && r.hooks == db.hooks
    requires |r.steps| == |db.steps| && r.steps[s].status.Completed?
    requires forall x :: 0 <= x < |db.steps| && x != s ==> r.steps[x] == db.steps[x]
    ensures Minor(flags, r)
  {
    HooksEvolve(db, r);
  }

  lemma AttemptAdvanceMinor(flags: Flags, db: Db, s: nat, now: int)
    requires Good(flags, db)
    ensures Minor(flags, Committed(db, AttemptAdvance(flags, db, s, now)))
  {
    if s < |db.steps| && Idle(db.steps[s].status) && AttemptAdvance(flags, db, s, now).Ok? {
      AdvanceHeadInv(flags, db, -1, s, now);
      AdvanceHeadGrows(flags, db, -1, s, now);
      var head := AdvanceHead(flags, db, s, now).value;
      PromotedMinor(flags, db, head, [s]);
      if head.steps[s].taskType.Automated? && head.steps[s].status.Ready? && AdvanceOpen(flags, db, s, now) {
        AutomatedMinor(flags, head, s, now);
      }
    }
  }

  lemma AutomatedMinor(flags: Flags, head: Db, s: nat, now: int)
    requires DbInv(head, -1) && Sound(head) && Minor(flags, head)
    requires s < |head.steps| && head.steps[s].status.Ready?
    requires Conclude(flags, Move(Move(head, s, InProgress), s, Completed), s, now).Ok?
    ensures Minor(flags, Conclude(flags, Move(Move(head, s, InProgress), s, Completed), s, now).value)
  {
    IdleHasNoChild(head.procs, head.steps, head.notices, -1, s);
    MoveKeepsInv(head.procs, head.steps, head.notices, -1, s, InProgress);
    MoveSound(head, s, InProgress);
    var started := Move(head, s, InProgress);
    MoveKeepsInv(started.procs, started.steps, started.notices, -1, s, Completed);
    MoveSound(started, s, Completed);
    var done := Move(started, s, Completed);
    EvolvesTrans(head, started, done);
    CompletedStepMinor(flags, head, done, s);
    ConcludeMinor(flags, done, s, now);
  }

  lemma MarkCompletedMinor(flags: Flags, db: Db, s: nat, now: int)
    requires Good(flags, db)
    ensures Minor(flags, Committed(db, MarkCompleted(flags, db, s, now)))
  {
    if s < |db.steps| && (db.steps[s].status.Ready? || db.steps[s].status.InProgress?) {
      IdleHasNoChild(db.procs, db.steps, db.notices, -1, s);
      MoveKeepsInv(db.procs, db.steps, db.notices, -1, s, Completed);
      MoveSound(db, s, Completed);
      var done := Move(db, s, Completed);
      CompletedStepMinor(flags, db, done, s);
      if Conclude(flags, done, s, now).Ok? { ConcludeMinor(flags, done, s, now); }
    }
  }

  lemma StartedRows(flags: Flags, db: Db, t: nat, seed: Seed, host: Option<HostData>)
    ensures Start(flags, db, t, seed, host, false).Ok? ==>
      var r := Start(flags, db, t, seed, host, false).value;
      && r.steps == Instantiate(db, t, seed).steps
      && r.procs == db.procs + [NewProcess(seed, t, |db.procs|)]
      && r.hooks == db.hooks && r.notices == db.notices
  {}

  lemma CopiesAreNotRunning(db: Db, t: nat, seed: Seed)
    requires NoneRunning(db.steps)
    ensures NoneRunning(Instantiate(db, t, seed).steps)
  {
    var rows := OrderedSteps(db.catalog, t);
    FreshSteps(db.catalog, rows, |db.procs|);
    assert Instantiate(db, t, seed).steps == db.steps + NewSteps(db.catalog, rows, |db.procs|);
  }

  lemma StartRootMinor(flags: Flags, db: Db, t: nat, tenant: int, subject: string, subjectId: int,
                       policy: FailurePolicy, context: Option<Record>, host: Option<HostData>)
    requires Good(flags, db)
    ensures Minor(flags, Committed(db, StartRoot(flags, db, t, tenant, subject, subjectId, policy, context, host)))
  {
    var outcome := StartRoot(flags, db, t, tenant, subject, subjectId, policy, context, host);
    StartRootGrows(flags, db, t, tenant, subject, subjectId, policy, context, host);
    if outcome.Ok? {
      var seed := Seed(tenant, SubjectNamed(subject).value, subjectId, None, policy, context);
      StartedRows(flags, db, t, seed, host);
      StartedMinor(flags, db, outcome.value, t, seed);
    }
  }

  lemma StartedMinor(flags: Flags, db: Db, r: Db, t: nat, seed: Seed)
    requires Good(flags, db) && Evolves(db, r) && r.hooks == db.hooks && seed.link.None?
    requires r.steps == Instantiate(db, t, seed).steps && r.procs == db.procs + [NewProcess(seed, t, |db.procs|)]
    ensures Minor(flags, r)
  {
    CopiesAreNotRunning(db, t, seed);
    assert LinksNeedFlag(flags, r.procs);
    HooksEvolve(db, r);
  }

  /** Handling a notice is sound, and afterwards nobody relies on it. */
  lemma HandleGood(flags: Flags, db: Db, n: Notice, now: int)
    requires Good(flags, db) && n in db.notices
    ensures var r := Handle(flags, db, n, now);
      Good(flags, r) && Evolves(db, r) && Spent(r.procs, r.steps, n)
  {
    assert NoticeOk(db.procs, db.steps, n);
    match n
    case ChildFinished(c) => HandleTerminalGood(flags, db, c, false, now);
    case ChildAborted(c) => HandleTerminalGood(flags, db, c, true, now);
    case ResumeStep(s) =>
      NoticesGrow(db, db.notices);
      if flags.callProcess { ResumeGood(flags, db, s, now); }
  }

  lemma HandleTerminalGood(flags: Flags, db: Db, c: nat, aborted: bool, now: int)
    requires Good(flags, db) && c < |db.procs|
    requires NoticeOk(db.procs, db.steps, if aborted then ChildAborted(c) else ChildFinished(c))
    ensures var r := HandleTerminal(flags, db, c, aborted, now);
      && Good(flags, r) && Evolves(db, r)
      && Spent(r.procs, r.steps, if aborted then ChildAborted(c) else ChildFinished(c))
  {
    HandleTerminalInv(flags, db, c, aborted, now);
    HandleTerminalGrows(flags, db, c, aborted, now);
    HooksEvolve(db, HandleTerminal(flags, db, c, aborted, now));
    if db.procs[c].link.Some? { assert LinkOk(db.procs, db.steps, c); }
  }

  lemma ResumeGood(flags: Flags, db: Db, s: nat, now: int)
    requires Good(flags, db) && s < |db.steps| && db.steps[s].status.Completed?
    ensures var r := Committed(db, ResumeParent(flags, db, s, now));
      Good(flags, r) && Evolves(db, r) && Spent(r.procs, r.steps, ResumeStep(s))
  {
    ResumeParentInv(flags, db, s, now);
    ResumeParentGrows(flags, db, s, now);
    if ResumeParent(flags, db, s, now).Ok? { ConcludeMinor(flags, db, s, now); }
    ResumeSpends(flags, db, s, now);
  }

  /** After a resumption its process is not left active with all steps completed: either it
      was completed, or a next step exists (also when enabling that step failed). */
  lemma ResumeSpends(flags: Flags, db: Db, s: nat, now: int)
    requires Good(flags, db) && s < |db.steps| && db.steps[s].status.Completed?
    ensures var r := Committed(db, ResumeParent(flags, db, s, now));
      Spent(r.procs, r.steps, ResumeStep(s))
  {
    if ResumeParent(flags, db, s, now).Thrown? {
      FailsWithOpenStep(flags, db, s, now);
    } else {
      ConcludeSpends(flags, db, s, now);
    }
  }

  /** A conclusion that throws has found a pending step to unlock. */
  lemma FailsWithOpenStep(flags: Flags, db: Db, s: nat, now: int)
    requires ValidRefs(db) && s < |db.steps| && Conclude(flags, db, s, now).Thrown?
    ensures !AllDone(db.steps, db.steps[s].process)
  {
    var rows := NextRows(flags, db, s, now);
    assert rows != [] && rows[0] in rows;
  }

  lemma ConcludeSpends(flags: Flags, db: Db, s: nat, now: int)
    requires Good(flags, db) && s < |db.steps| && Conclude(flags, db, s, now).Ok?
    ensures var r := Conclude(flags, db, s, now).value; Spent(r.procs, r.steps, ResumeStep(s))
  {
    EnableNextInv(flags, db, db.steps[s].process, s, now);
    EnableNextGrows(flags, db, db.steps[s].process, s, now);
    ConcludeGrows(flags, db, s, now);
  }

  lemma DeliverGood(flags: Flags, db: Db, i: nat, now: int)
    requires Good(flags, db) && i < |db.notices|
    ensures var r := Drop(Handle(flags, db, db.notices[i], now), i);
      Good(flags, r) && Evolves(db, r)
  {
    HandleGood(flags, db, db.notices[i], now);
    var handled := Handle(flags, db, db.notices[i], now);
    assert handled.notices[i] == db.notices[i];
    DropKeepsInv(handled.procs, handled.steps, handled.notices, i);
  }

  lemma ValidateGrows(flags: Flags, db: Db, o: nat)
    requires Sound(db)
    ensures Grows(db, Validate(flags, db, o))
  {
    var r := Validate(flags, db, o);
    NoticesGrow(db, db.notices);
    if r != db {
      var link := LinkedRow(db, o).value;
      assert BindingOk(db.procs, db.steps, db.objects, db.bindings[link]);
      forall j | 0 <= j < |r.bindings| ensures BindingOk(r.procs, r.steps, r.objects, r.bindings[j]) {
        assert BindingOk(db.procs, db.steps, db.objects, db.bindings[j]);
      }
      forall j, k | 0 <= j < |r.bindings| && 0 <= k < |r.bindings| && SharesObject(r.bindings[j], r.bindings[k]) ensures j == k {
        assert SharesObject(db.bindings[j], db.bindings[k]);
      }
    }
  }

  lemma CancelGood(flags: Flags, db: Db, p: nat)
    requires Good(flags, db) && p < |db.procs| && db.procs[p].status.Active?
    ensures var r := SetProcess(db, p, Aborted).(notices := db.notices + [ChildAborted(p)]);
      Good(flags, r) && Evolves(db, r)
  {
    var r := SetProcess(db, p, Aborted).(notices := db.notices + [ChildAborted(p)]);
    AbortKeepsInv(db.procs, db.steps, db.notices, p);
    ProcessGrows(db, p, db.procs[p].(status := Aborted));
    HooksEvolve(db, r);
  }

  lemma ObjectsGood(flags: Flags, db: Db, objects: seq<CustomObject>)
    requires Good(flags, db) && ObjectsEvolve(db.objects, objects)
    ensures Good(flags, db.(objects := objects)) && Evolves(db, db.(objects := objects))
  {
    BindFrame(db, db.(objects := objects));
  }

  /** One action keeps the invariant and moves nothing backwards. */
  lemma ExecGood(flags: Flags, db: Db, a: Action)
    requires Good(flags, db)
    ensures Good(flags, Exec(flags, db, a)) && Evolves(db, Exec(flags, db, a))
  {
    NoticesGrow(db, db.notices);
    match a
    case StartProcess(t, tenant, subject, subjectId, policy, context, host) =>
      StartRootInv(flags, db, t, tenant, subject, subjectId, policy, context, host);
      StartRootGrows(flags, db, t, tenant, subject, subjectId, policy, context, host);
      StartRootMinor(flags, db, t, tenant, subject, subjectId, policy, context, host);
    case Advance(s, now) =>
      AttemptAdvanceInv(flags, db, s, now);
      AttemptAdvanceGrows(flags, db, s, now);
      AttemptAdvanceMinor(flags, db, s, now);
    case Complete(s, now) =>
      MarkCompletedInv(flags, db, s, now);
      MarkCompletedGrows(flags, db, s, now);
      MarkCompletedMinor(flags, db, s, now);
    case Deliver(i, now) =>
      if i < |db.notices| { DeliverGood(flags, db, i, now); }
    case _ => EnvironmentGood(flags, db, a);
  }

  predicate Environmental(a: Action) {
    !a.StartProcess? && !a.Advance? && !a.Complete? && !a.Deliver?
  }

  lemma EnvironmentGood(flags: Flags, db: Db, a: Action)
    requires Good(flags, db) && Environmental(a)
    ensures Good(flags, Exec(flags, db, a)) && Evolves(db, Exec(flags, db, a))
  {
    NoticesGrow(db, db.notices);
    match a
    case ValidateObject(o) => ValidateGrows(flags, db, o);
    case RecordMet(t) =>
    case CancelProcess(p) =>
      if p < |db.procs| && db.procs[p].status.Active? { CancelGood(flags, db, p); }
    case ReviewRequirement(r, approved) =>
    case AddObject(added) => ObjectsGood(flags, db, db.objects + [added]);
    case EditObject(o, payload, status) =>
      if o < |db.objects| {
        ObjectsGood(flags, db, db.objects[o := db.objects[o].(payload := payload, status := status)]);
      }
    case EditCatalog(catalog) =>
  }

  // ----- runs -----

  ghost function Run(flags: Flags, db: Db, actions: seq<Action>): (r: Db)
    requires Good(flags, db)
    ensures Good(flags, r)
    decreases |actions|
  {
    if actions == [] then db
    else
      var before := Run(flags, db, actions[..|actions| - 1]);
      ExecGood(flags, before, actions[|actions| - 1]);
      Exec(flags, before, actions[|actions| - 1])
  }

  lemma RunSnoc(flags: Flags, db: Db, actions: seq<Action>, last: Action)
    requires Good(flags, db)
    ensures Run(flags, db, actions + [last]) == Exec(flags, Run(flags, db, actions), last)
  {
    assert (actions + [last])[..|actions|] == actions;
  }

  lemma EmptyIsGood(flags: Flags)
    ensures Good(flags, Empty())
  {}

  /** A run in two parts. */
  lemma {:induction false} RunAppend(flags: Flags, db: Db, first: seq<Action>, second: seq<Action>)
    requires Good(flags, db)
    ensures Run(flags, db, first + second) == Run(flags, Run(flags, db, first), second)
    decreases |second|
  {
    if second == [] {
      assert first + second == first;
    } else {
      var init, last := second[..|second| - 1], second[|second| - 1];
      assert second == init + [last];
      assert first + second == (first + init) + [last];
      RunAppend(flags, db, first, init);
      RunSnoc(flags, db, first + init, last);
      RunSnoc(flags, Run(flags, db, first), init, last);
    }
  }

  lemma RunFirst(flags: Flags, db: Db, first: Action, rest: seq<Action>)
    requires Good(flags, db)
    ensures Good(flags, Exec(flags, db, first))
    ensures Run(flags, db, [first] + rest) == Run(flags, Exec(flags, db, first), rest)
  {
    ExecGood(flags, db, first);
    var none: seq<Action> := [];
    RunSnoc(flags, db, none, first);
    assert none + [first] == [first];
    RunAppend(flags, db, [first], rest);
  }

  /** The state after `actions`, from empty tables. */
  ghost function Reached(flags: Flags, actions: seq<Action>): (r: Db)
    ensures Good(flags, r)
  {
    EmptyIsGood(flags);
    Run(flags, Empty(), actions)
  }

  lemma LastActionEvolves(flags: Flags, db: Db, actions: seq<Action>)
    requires Good(flags, db) && actions != []
    ensures Evolves(Run(flags, db, actions[..|actions| - 1]), Run(flags, db, actions))
  {
    ExecGood(flags, Run(flags, db, actions[..|actions| - 1]), actions[|actions| - 1]);
  }

  lemma SelfEvolves(db: Db)
    ensures Evolves(db, db)
  {}

  /** A run evolves what any shorter run reached. */
  lemma {:induction false} RunEvolves(flags: Flags, db: Db, actions: seq<Action>, k: nat)
    requires Good(flags, db) && k <= |actions|
    ensures Evolves(Run(flags, db, actions[..k]), Run(flags, db, actions))
    decreases |actions|
  {
    if k == |actions| {
      assert actions[..k] == actions;
      SelfEvolves(Run(flags, db, actions));
    } else {
      var init := actions[..|actions| - 1];
      assert init[..k] == actions[..k];
      RunEvolves(flags, db, init, k);
      LastActionEvolves(flags, db, actions);
      EvolvesTrans(Run(flags, db, actions[..k]), Run(flags, db, init), Run(flags, db, actions));
    }
  }
}
