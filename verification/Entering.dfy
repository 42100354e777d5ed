/** Steps that are let go, or tried while ready, get their object rows provisioned; in no other
    case does an engine transaction touch the object rows of a step, but for a re-check. */
module Entering {
  import opened Basics
  import opened Json
  import opened Tables
  import opened StepObjects
  import opened Instantiation
  import opened ProjectHost
  import opened ChildProcess
  import opened Completion
  import opened Orchestrator
  import opened Protocol
  import opened Preservation
  import opened Evolution
  import opened Runs
  import opened Starting
  import opened Reference
  import opened Provisioning
  import opened Conclusions
  import Effects

  // ----- the rows of one step -----

  /** The object rows of step `x` are as they were, no others were added, and objects only at the end. */
  ghost predicate RowsKept(db: Db, r: Db, x: nat) {
    && |r.bindings| >= |db.bindings| && db.objects <= r.objects
    && (forall b :: 0 <= b < |db.bindings| ==>
         if db.bindings[b].step == x then r.bindings[b] == db.bindings[b] else r.bindings[b].step != x)
    && forall b :: |db.bindings| <= b < |r.bindings| ==> r.bindings[b].step != x
  }

  /** The pending rows of step `x` were provisioned, with a new empty draft each where the config
      object allows it; the others are as they were. */
  ghost predicate RowsFilled(flags: Flags, db: Db, r: Db, x: nat)
    requires x < |db.steps| && db.steps[x].process < |db.procs|
  {
    && |r.bindings| >= |db.bindings| && db.objects <= r.objects
    && (forall b :: 0 <= b < |db.bindings| ==>
         if db.bindings[b].step == x
         then FilledFrom(flags, db, r, b, db.procs[db.steps[x].process].tenant)
         else r.bindings[b].step != x)
    && forall b :: |db.bindings| <= b < |r.bindings| ==> r.bindings[b].step != x
  }

  ghost predicate FilledFrom(flags: Flags, db: Db, r: Db, b: nat, tenant: int)
    requires b < |db.bindings| && b < |r.bindings|
  {
    var row, now := db.bindings[b], r.bindings[b];
    if flags.objectSteps && Creates(db.catalog, row, row.step) then
      && now == row.(status := BindingActive, instance := now.instance)
      && now.instance.Some? && |db.objects| <= now.instance.value < |r.objects|
      && r.objects[now.instance.value] == CustomObject(tenant, row.configObject, map[], Draft)
    else if flags.objectSteps && ToProvision(db.catalog, row, row.step) then
      now == row.(status := BindingFailed)
    else now == row
  }

  lemma KeptTrans(a: Db, b: Db, c: Db, x: nat)
    requires RowsKept(a, b, x) && RowsKept(b, c, x)
    ensures RowsKept(a, c, x)
  {}

  lemma FilledThenKept(flags: Flags, a: Db, b: Db, c: Db, x: nat)
    requires x < |a.steps| && a.steps[x].process < |a.procs|
    requires RowsFilled(flags, a, b, x) && RowsKept(b, c, x)
    ensures RowsFilled(flags, a, c, x)
  {
    forall i | 0 <= i < |a.bindings| && a.bindings[i].step == x
      ensures FilledFrom(flags, a, c, i, a.procs[a.steps[x].process].tenant)
    {
      assert FilledFrom(flags, a, b, i, a.procs[a.steps[x].process].tenant);
    }
  }

  lemma KeptThenFilled(flags: Flags, a: Db, b: Db, c: Db, x: nat)
    requires x < |a.steps| && a.steps[x].process < |a.procs| && x < |b.steps| && b.steps[x].process < |b.procs|
    requires b.procs[b.steps[x].process].tenant == a.procs[a.steps[x].process].tenant && b.catalog == a.catalog
    requires RowsKept(a, b, x) && RowsFilled(flags, b, c, x)
    ensures RowsFilled(flags, a, c, x)
  {
    forall i | 0 <= i < |a.bindings| && a.bindings[i].step == x
      ensures FilledFrom(flags, a, c, i, a.procs[a.steps[x].process].tenant)
    {
      assert FilledFrom(flags, b, c, i, a.procs[a.steps[x].process].tenant);
    }
  }

  lemma ProvisionFills(flags: Flags, db: Db, s: nat)
    requires s < |db.steps| && db.steps[s].process < |db.procs|
    ensures RowsFilled(flags, db, Provision(flags, db, s), s)
    ensures forall x: nat :: x != s ==> RowsKept(db, Provision(flags, db, s), x)
  {
    ProvisionDecides(flags, db, s);
    var r, tenant := Provision(flags, db, s), db.procs[db.steps[s].process].tenant;
    forall b | 0 <= b < |db.bindings|
      ensures r.bindings[b].step == db.bindings[b].step
      ensures db.bindings[b].step == s ==> FilledFrom(flags, db, r, b, tenant)
      ensures db.bindings[b].step != s ==> r.bindings[b] == db.bindings[b]
    {
      if flags.objectSteps {
        assert r.bindings[b] == Provisioned(db, s, b);
        if Creates(db.catalog, db.bindings[b], s) { assert HasDraft(db, r, s, tenant, b); }
      }
    }
  }

  // ----- through a transaction -----

  lemma InstantiateKeepsRows(db: Db, t: nat, seed: Seed, x: nat)
    requires x < |db.steps|
    ensures RowsKept(db, Instantiate(db, t, seed), x)
  {
    var added := CopyBindings(db.catalog, OrderedSteps(db.catalog, t), |db.steps|);
    Effects.CopiesAreElsewhere(db, OrderedSteps(db.catalog, t), x);
    assert Instantiate(db, t, seed).bindings == db.bindings + added;
  }

  lemma SpawnKeepsRows(flags: Flags, db: Db, t: nat, x: nat)
    requires ValidRefs(db) && t < |db.steps| && x < |db.steps| && Spawn(flags, db, t).Ok?
    ensures RowsKept(db, Spawn(flags, db, t).value, x)
  {
    if !HasChild(db.procs, t) {
      var tpl := db.catalog.steps[db.steps[t].template];
      InstantiateKeepsRows(db, tpl.childTemplate.value, ChildSeed(db, t, tpl).value, x);
    }
  }

  /** A step that is let go into readiness is provisioned; a call step, and every other one, is not. */
  lemma PromoteFills(flags: Flags, db: Db, t: nat, x: nat)
    requires ValidRefs(db) && t < |db.steps| && x < |db.steps| && Promote(flags, db, t).Ok?
    ensures var r := Promote(flags, db, t).value;
      if x == t && !Calls(flags, db.steps[t]) then RowsFilled(flags, db, r, x) else RowsKept(db, r, x)
  {
    if Calls(flags, db.steps[t]) {
      SpawnKeepsRows(flags, db, t, x);
    } else {
      var moved := Move(db, t, Ready);
      ProvisionFills(flags, moved, t);
      assert RowsKept(db, moved, x);
      if x == t {
        KeptThenFilled(flags, db, moved, Provision(flags, moved, t), x);
      } else {
        KeptTrans(db, moved, Provision(flags, moved, t), x);
      }
    }
  }

  lemma EnableStepFills(flags: Flags, db: Db, t: nat, now: int, x: nat)
    requires ValidRefs(db) && t < |db.steps| && x < |db.steps| && EnableStep(flags, db, t, now).Ok?
    ensures var r := EnableStep(flags, db, t, now).value;
      if x == t && MayGo(flags, db, t, now) && !Calls(flags, db.steps[t]) then RowsFilled(flags, db, r, x) else RowsKept(db, r, x)
  {
    MayGoIff(flags, db, t, now);
    var checked := Evaluated(db, t, now);
    if MayGo(flags, db, t, now) {
      PromoteFills(flags, checked, t, x);
      assert RowsKept(db, checked, x);
      if x == t && !Calls(flags, db.steps[t]) {
        KeptThenFilled(flags, db, checked, EnableStep(flags, db, t, now).value, x);
      } else {
        KeptTrans(db, checked, EnableStep(flags, db, t, now).value, x);
      }
    }
  }

  lemma {:induction false} EnableStepsFill(flags: Flags, db: Db, rows: seq<nat>, now: int, x: nat)
    requires ValidRefs(db) && RowsIn(rows, |db.steps|) && Distinct(rows) && x < |db.steps|
    requires EnableSteps(flags, db, rows, now).Ok?
    ensures var r := EnableSteps(flags, db, rows, now).value;
      if x in rows && MayGo(flags, db, x, now) && !Calls(flags, db.steps[x]) then RowsFilled(flags, db, r, x) else RowsKept(db, r, x)
    decreases |rows|
  {
    if rows != [] {
      var next, r := EnableStep(flags, db, rows[0], now).value, EnableSteps(flags, db, rows, now).value;
      assert forall y :: y in rows <==> y == rows[0] || y in rows[1..];
      assert rows[0] !in rows[1..];
      EnableStepFills(flags, db, rows[0], now, x);
      EnableStepsFill(flags, next, rows[1..], now, x);
      if x != rows[0] {
        Effects.EnableStepKeepsView(flags, db, rows[0], now, x);
        SameGoing(flags, db, next, x, now);
      }
      if x in rows[1..] && MayGo(flags, db, x, now) && !Calls(flags, db.steps[x]) {
        KeptThenFilled(flags, db, next, r, x);
      } else if x == rows[0] && MayGo(flags, db, x, now) && !Calls(flags, db.steps[x]) {
        FilledThenKept(flags, db, next, r, x);
      } else {
        KeptTrans(db, next, r, x);
      }
    }
  }

  lemma SameGoing(flags: Flags, db: Db, r: Db, x: nat, now: int)
    requires Effects.SameView(db, r, x)
    ensures MayGo(flags, r, x, now) == MayGo(flags, db, x, now)
  {
    Effects.SameEligibility(flags, db, r, x, now);
    MayGoIff(flags, db, x, now);
    MayGoIff(flags, r, x, now);
  }

  lemma ConcludeFills(flags: Flags, db: Db, done: Db, s: nat, now: int, x: nat)
    requires Concluding(db, done, s) && x < |db.steps| && Conclude(flags, done, s, now).Ok?
    ensures var r := Conclude(flags, done, s, now).value;
      if x != s && Follows(db, s, x) && MayGo(flags, db, x, now) && !Calls(flags, db.steps[x])
      then RowsFilled(flags, done, r, x) else RowsKept(done, r, x)
  {
    var rows := NextRows(flags, done, s, now);
    EnableStepsFill(flags, done, rows, now, x);
    ConcludeTail(flags, done, s, now);
    if x != s { SameGoing(flags, db, done, x, now); }
    TailKeepsRows(flags, done, EnableNext(flags, done, s, now).value, Conclude(flags, done, s, now).value, x);
  }

  lemma TailKeepsRows(flags: Flags, db: Db, enabled: Db, r: Db, x: nat)
    requires r.bindings == enabled.bindings && r.objects == enabled.objects
    requires x < |db.steps| && db.steps[x].process < |db.procs|
    ensures RowsKept(db, enabled, x) ==> RowsKept(db, r, x)
    ensures RowsFilled(flags, db, enabled, x) ==> RowsFilled(flags, db, r, x)
  {
    if RowsFilled(flags, db, enabled, x) {
      assert RowsKept(enabled, r, x) by {
        assert forall b :: 0 <= b < |enabled.bindings| ==> enabled.bindings[b] == r.bindings[b];
      }
      FilledThenKept(flags, db, enabled, r, x);
    }
  }

  // ----- actions -----

  /** The step is let go into readiness, or it is ready and an advance of it commits. */
  ghost predicate Enters(flags: Flags, db: Db, a: Action, x: nat)
    requires ValidRefs(db) && x < |db.steps| && x < |Exec(flags, db, a).steps|
  {
    var now := Exec(flags, db, a).steps[x].status;
    || (db.steps[x].status.Pending? && (now.Ready? || now.Completed?))
    || (a.Advance? && a.step == x && db.steps[x].status.Ready?
        && !(db.steps[x].taskType.Automated? && MayGo(flags, db, x, a.now) && NextStuck(flags, db, x, a.now)))
  }

  /** Filled or kept. */
  ghost predicate RowsAfter(flags: Flags, db: Db, r: Db, x: nat, filled: bool)
    requires x < |db.steps| && db.steps[x].process < |db.procs|
  {
    if filled then RowsFilled(flags, db, r, x) else RowsKept(db, r, x)
  }

  /** Rows that are not touched on the way to `done` end up as the conclusion leaves them. */
  lemma ConclusionFills(flags: Flags, db: Db, done: Db, s: nat, now: int, x: nat)
    requires Concluding(db, done, s) && x < |db.steps| && Conclude(flags, done, s, now).Ok? && RowsKept(db, done, x)
    ensures var filled := x != s && Follows(db, s, x) && MayGo(flags, db, x, now) && !Calls(flags, db.steps[x]);
      RowsAfter(flags, db, Conclude(flags, done, s, now).value, x, filled)
  {
    ConcludeFills(flags, db, done, s, now, x);
    if x != s && Follows(db, s, x) && MayGo(flags, db, x, now) && !Calls(flags, db.steps[x]) {
      assert Effects.SameView(db, done, x);
      KeptThenFilled(flags, db, done, Conclude(flags, done, s, now).value, x);
    } else {
      KeptTrans(db, done, Conclude(flags, done, s, now).value, x);
    }
  }

  lemma CompletionFills(flags: Flags, db: Db, s: nat, now: int, x: nat)
    requires Good(flags, db) && s < |db.steps| && x < |db.steps|
    ensures var r := Exec(flags, db, Complete(s, now));
      && x < |r.steps|
      && RowsAfter(flags, db, r, x, db.steps[x].status.Pending? && (r.steps[x].status.Ready? || r.steps[x].status.Completed?))
  {
    CompletionDecides(flags, db, s, now);
    if db.steps[s].status.Ready? && Approved(db, s) && ObjectsSettled(flags, db, s) && !NextStuck(flags, db, s, now) {
      CompletedFills(flags, db, s, now, x);
    }
  }

  lemma CompletedFills(flags: Flags, db: Db, s: nat, now: int, x: nat)
    requires Good(flags, db) && s < |db.steps| && x < |db.steps|
    requires db.steps[s].status.Ready? && Approved(db, s) && ObjectsSettled(flags, db, s) && !NextStuck(flags, db, s, now)
    ensures RowsAfter(flags, db, Exec(flags, db, Complete(s, now)), x,
      x != s && Follows(db, s, x) && MayGo(flags, db, x, now) && !Calls(flags, db.steps[x]))
  {
    MayGoIff(flags, db, s, now);
    MovedIsConcluding(flags, db, s);
    ConcludeFailsIff(flags, db, Move(db, s, Completed), s, now);
    ConclusionFills(flags, db, Move(db, s, Completed), s, now, x);
  }

  lemma HeadFills(flags: Flags, db: Db, s: nat, now: int, x: nat)
    requires ValidRefs(db) && s < |db.steps| && x < |db.steps| && AdvanceHead(flags, db, s, now).Ok?
    requires db.steps[s].status.Pending? || db.steps[s].status.Ready?
    ensures RowsAfter(flags, db, AdvanceHead(flags, db, s, now).value, x,
      x == s && (db.steps[s].status.Ready? || (MayGo(flags, db, s, now) && !Calls(flags, db.steps[s]))))
  {
    if db.steps[s].status.Ready? {
      ProvisionFills(flags, db, s);
      var entered := Provision(flags, db, s);
      assert RowsKept(entered, Evaluated(entered, s, now), x);
      if x == s {
        FilledThenKept(flags, db, entered, Evaluated(entered, s, now), x);
      } else {
        KeptTrans(db, entered, Evaluated(entered, s, now), x);
      }
    } else {
      EnableStepFills(flags, db, s, now, x);
    }
  }

  lemma RunFills(flags: Flags, db: Db, s: nat, now: int, x: nat)
    requires Good(flags, db) && s < |db.steps| && x < |db.steps| && db.steps[s].taskType.Automated?
    requires (db.steps[s].status.Pending? || db.steps[s].status.Ready?) && MayGo(flags, db, s, now) && !NextStuck(flags, db, s, now)
    ensures RowsAfter(flags, db, Exec(flags, db, Advance(s, now)), x,
      x == s || (Follows(db, s, x) && MayGo(flags, db, x, now) && !Calls(flags, db.steps[x])))
  {
    var head, done := RunShape(flags, db, s, now);
    ConcludeFailsIff(flags, db, done, s, now);
    HeadFills(flags, db, s, now, x);
    RunningFills(flags, db, head, done, s, now, x);
  }

  /** From the head of a run to its end. */
  lemma RunningFills(flags: Flags, db: Db, head: Db, done: Db, s: nat, now: int, x: nat)
    requires Concluding(db, done, s) && Conclude(flags, done, s, now).Ok? && x < |db.steps|
    requires ValidRefs(head) && head.bindings == done.bindings && head.objects == done.objects
    requires RowsAfter(flags, db, head, x, x == s)
    ensures RowsAfter(flags, db, Conclude(flags, done, s, now).value, x,
      x == s || (Follows(db, s, x) && MayGo(flags, db, x, now) && !Calls(flags, db.steps[x])))
  {
    SameRowsAfter(flags, db, head, done, x, x == s);
    if x == s {
      ConcludeFills(flags, db, done, s, now, x);
      FilledThenKept(flags, db, done, Conclude(flags, done, s, now).value, x);
    } else {
      ConclusionFills(flags, db, done, s, now, x);
    }
  }

  lemma SameRowsAfter(flags: Flags, db: Db, r: Db, r': Db, x: nat, filled: bool)
    requires x < |db.steps| && db.steps[x].process < |db.procs|
    requires r'.bindings == r.bindings && r'.objects == r.objects && RowsAfter(flags, db, r, x, filled)
    ensures RowsAfter(flags, db, r', x, filled)
  {
    TailKeepsRows(flags, db, r, r', x);
  }

  lemma AdvanceFills(flags: Flags, db: Db, s: nat, now: int, x: nat)
    requires Good(flags, db) && s < |db.steps| && x < |db.steps|
    ensures var r := Exec(flags, db, Advance(s, now));
      x < |r.steps| && RowsAfter(flags, db, r, x, Enters(flags, db, Advance(s, now), x))
  {
    var step := db.steps[s];
    if step.taskType.Automated? && (step.status.Pending? || step.status.Ready?) && MayGo(flags, db, s, now) {
      RunAdvanceFills(flags, db, s, now, x);
    } else {
      AdvanceWithoutRun(flags, db, s, now);
      StillFills(flags, db, s, now, x);
    }
  }

  lemma RunAdvanceFills(flags: Flags, db: Db, s: nat, now: int, x: nat)
    requires Good(flags, db) && s < |db.steps| && x < |db.steps| && db.steps[s].taskType.Automated?
    requires (db.steps[s].status.Pending? || db.steps[s].status.Ready?) && MayGo(flags, db, s, now)
    ensures var r := Exec(flags, db, Advance(s, now));
      x < |r.steps| && RowsAfter(flags, db, r, x, Enters(flags, db, Advance(s, now), x))
  {
    AutomatedDecides(flags, db, s, now);
    if !NextStuck(flags, db, s, now) { RunFills(flags, db, s, now, x); }
  }

  lemma StillFills(flags: Flags, db: Db, s: nat, now: int, x: nat)
    requires Good(flags, db) && s < |db.steps| && x < |db.steps|
    requires !(db.steps[s].taskType.Automated? && (db.steps[s].status.Pending? || db.steps[s].status.Ready?) && MayGo(flags, db, s, now))
    ensures RowsAfter(flags, db, Exec(flags, db, Advance(s, now)), x,
      x == s && (db.steps[s].status.Ready?
                 || (db.steps[s].status.Pending? && MayGo(flags, db, s, now) && !Calls(flags, db.steps[s]))))
  {
    if db.steps[s].status.Pending? || db.steps[s].status.Ready? { StandstillFills(flags, db, s, now, x); }
  }

  lemma StandstillFills(flags: Flags, db: Db, s: nat, now: int, x: nat)
    requires Good(flags, db) && s < |db.steps| && x < |db.steps|
    requires db.steps[s].status.Pending? || db.steps[s].status.Ready?
    requires !(db.steps[s].taskType.Automated? && MayGo(flags, db, s, now))
    ensures RowsAfter(flags, db, Exec(flags, db, Advance(s, now)), x,
      x == s && (db.steps[s].status.Ready? || (MayGo(flags, db, s, now) && !Calls(flags, db.steps[s]))))
  {
    StandstillIsHead(flags, db, s, now);
    if AdvanceHead(flags, db, s, now).Ok? { HeadFills(flags, db, s, now, x); }
  }

  lemma ResumptionFills(flags: Flags, db: Db, s: nat, now: int, x: nat)
    requires Good(flags, db) && s < |db.steps| && db.steps[s].status.Completed? && x < |db.steps|
    ensures var r := Committed(db, ResumeParent(flags, db, s, now));
      && x < |r.steps|
      && RowsAfter(flags, db, r, x, db.steps[x].status.Pending? && (r.steps[x].status.Ready? || r.steps[x].status.Completed?))
  {
    ResumptionDecides(flags, db, s, now);
    if !NextStuck(flags, db, s, now) { ResumedFills(flags, db, s, now, x); }
  }

  lemma ResumedFills(flags: Flags, db: Db, s: nat, now: int, x: nat)
    requires ValidRefs(db) && s < |db.steps| && db.steps[s].status.Completed? && x < |db.steps|
    requires !NextStuck(flags, db, s, now)
    ensures ResumeParent(flags, db, s, now).Ok?
    ensures RowsAfter(flags, db, ResumeParent(flags, db, s, now).value, x,
      Follows(db, s, x) && MayGo(flags, db, x, now) && !Calls(flags, db.steps[x]))
  {
    assert Concluding(db, db, s);
    ConcludeFailsIff(flags, db, db, s, now);
    ConclusionFills(flags, db, db, s, now, x);
  }

  lemma EndingKeepsRows(flags: Flags, db: Db, c: nat, aborted: bool, now: int, x: nat)
    requires Good(flags, db) && c < |db.procs| && x < |db.steps|
    ensures var r := HandleTerminal(flags, db, c, aborted, now);
      && x < |r.steps| && RowsKept(db, r, x)
      && (db.steps[x].status.Pending? ==> r.steps[x].status.Pending?)
  {
    if db.procs[c].link.Some? { assert LinkOk(db.procs, db.steps, c) && CallStepOk(db.procs, db.steps, db.notices, c); }
  }

  lemma HandlingFills(flags: Flags, db: Db, n: Notice, now: int, x: nat)
    requires Good(flags, db) && n in db.notices && x < |db.steps|
    ensures var r := Handle(flags, db, n, now);
      && x < |r.steps|
      && RowsAfter(flags, db, r, x, db.steps[x].status.Pending? && (r.steps[x].status.Ready? || r.steps[x].status.Completed?))
  {
    assert NoticeOk(db.procs, db.steps, n);
    match n
    case ResumeStep(s) => if flags.callProcess { ResumptionFills(flags, db, s, now, x); }
    case ChildFinished(c) => EndingKeepsRows(flags, db, c, false, now, x);
    case ChildAborted(c) => EndingKeepsRows(flags, db, c, true, now, x);
  }

  lemma DeliveryFills(flags: Flags, db: Db, i: nat, now: int, x: nat)
    requires Good(flags, db) && i < |db.notices| && x < |db.steps|
    ensures var r := Exec(flags, db, Deliver(i, now));
      && x < |r.steps|
      && RowsAfter(flags, db, r, x, db.steps[x].status.Pending? && (r.steps[x].status.Ready? || r.steps[x].status.Completed?))
  {
    HandlingFills(flags, db, db.notices[i], now, x);
    DroppedRows(flags, db, Handle(flags, db, db.notices[i], now), i, x);
  }

  lemma DroppedRows(flags: Flags, db: Db, handled: Db, i: nat, x: nat)
    requires i < |handled.notices| && x < |db.steps| && db.steps[x].process < |db.procs|
    ensures forall filled :: RowsAfter(flags, db, handled, x, filled) ==> RowsAfter(flags, db, Drop(handled, i), x, filled)
  {
    TailKeepsRows(flags, db, handled, Drop(handled, i), x);
  }

  /** In every transaction of the engine, exactly the steps that are let go into readiness, or
      are ready and advanced, get their pending rows provisioned; the object rows of every other
      step are as they were. */
  lemma EntryProvisions(flags: Flags, db: Db, a: Action, x: nat)
    requires Good(flags, db) && (a.Advance? || a.Complete? || a.Deliver?) && x < |db.steps|
    ensures var r := Exec(flags, db, a);
      x < |r.steps| && if Enters(flags, db, a, x) then RowsFilled(flags, db, r, x) else RowsKept(db, r, x)
  {
    match a
    case Advance(s, now) => if s < |db.steps| { AdvanceFills(flags, db, s, now, x); }
    case Complete(s, now) => if s < |db.steps| { CompletionFills(flags, db, s, now, x); }
    case Deliver(i, now) => if i < |db.notices| { DeliveryFills(flags, db, i, now, x); }
  }

  // ----- what no transaction touches -----

  /** Requirements and objects are added at most at the end; columns and templates are as they were. */
  ghost predicate RestKept(db: Db, r: Db) {
    db.reqs <= r.reqs && db.objects <= r.objects && r.columns == db.columns && r.catalog == db.catalog
  }

  lemma PromoteKeepsRest(flags: Flags, db: Db, t: nat)
    requires ValidRefs(db) && t < |db.steps| && Promote(flags, db, t).Ok?
    ensures RestKept(db, Promote(flags, db, t).value)
  {
    if Calls(flags, db.steps[t]) {
      SpawnKeepsRest(flags, db, t);
    } else {
      ProvisionFills(flags, Move(db, t, Ready), t);
    }
  }

  lemma SpawnKeepsRest(flags: Flags, db: Db, t: nat)
    requires ValidRefs(db) && t < |db.steps| && Spawn(flags, db, t).Ok?
    ensures RestKept(db, Spawn(flags, db, t).value)
  {}

  lemma {:induction false} EnableStepsKeepRest(flags: Flags, db: Db, rows: seq<nat>, now: int)
    requires ValidRefs(db) && RowsIn(rows, |db.steps|) && EnableSteps(flags, db, rows, now).Ok?
    ensures RestKept(db, EnableSteps(flags, db, rows, now).value)
    decreases |rows|
  {
    if rows != [] {
      if Eligible(flags, db, rows[0], now) { PromoteKeepsRest(flags, Evaluated(db, rows[0], now), rows[0]); }
      EnableStepsKeepRest(flags, EnableStep(flags, db, rows[0], now).value, rows[1..], now);
    }
  }

  lemma ConcludeKeepsRest(flags: Flags, db: Db, s: nat, now: int)
    requires ValidRefs(db) && s < |db.steps| && Conclude(flags, db, s, now).Ok?
    ensures RestKept(db, Conclude(flags, db, s, now).value)
  {
    var rows := NextRows(flags, db, s, now);
    EnableStepsKeepRest(flags, db, rows, now);
    ConcludeTail(flags, db, s, now);
  }

  lemma AdvanceKeepsRest(flags: Flags, db: Db, s: nat, now: int)
    requires Good(flags, db)
    ensures RestKept(db, Exec(flags, db, Advance(s, now)))
  {
    if s < |db.steps| && (db.steps[s].status.Pending? || db.steps[s].status.Ready?) {
      if db.steps[s].taskType.Automated? && MayGo(flags, db, s, now) {
        AutomatedDecides(flags, db, s, now);
        if !NextStuck(flags, db, s, now) { RunKeepsRest(flags, db, s, now); }
      } else {
        StandstillIsHead(flags, db, s, now);
        if AdvanceHead(flags, db, s, now).Ok? { HeadKeepsRest(flags, db, s, now); }
      }
    }
  }

  lemma HeadKeepsRest(flags: Flags, db: Db, s: nat, now: int)
    requires ValidRefs(db) && s < |db.steps| && AdvanceHead(flags, db, s, now).Ok?
    ensures RestKept(db, AdvanceHead(flags, db, s, now).value)
  {
    if db.steps[s].status.Ready? { ProvisionFills(flags, db, s); }
    if db.steps[s].status.Pending? && Eligible(flags, db, s, now) { PromoteKeepsRest(flags, Evaluated(db, s, now), s); }
  }

  lemma RunKeepsRest(flags: Flags, db: Db, s: nat, now: int)
    requires Good(flags, db) && s < |db.steps| && db.steps[s].taskType.Automated?
    requires (db.steps[s].status.Pending? || db.steps[s].status.Ready?) && MayGo(flags, db, s, now) && !NextStuck(flags, db, s, now)
    ensures RestKept(db, Exec(flags, db, Advance(s, now)))
  {
    var head, done := RunShape(flags, db, s, now);
    ConcludeFailsIff(flags, db, done, s, now);
    HeadKeepsRest(flags, db, s, now);
    ConcludeKeepsRest(flags, done, s, now);
  }

  lemma CompletionKeepsRest(flags: Flags, db: Db, s: nat, now: int)
    requires Good(flags, db) && s < |db.steps|
    ensures RestKept(db, Exec(flags, db, Complete(s, now)))
  {
    if db.steps[s].status.Ready? && GatesOpen(flags, db, s) && Conclude(flags, Move(db, s, Completed), s, now).Ok? {
      ConcludeKeepsRest(flags, Move(db, s, Completed), s, now);
    }
  }

  lemma DeliveryKeepsRest(flags: Flags, db: Db, i: nat, now: int)
    requires Good(flags, db) && i < |db.notices|
    ensures RestKept(db, Exec(flags, db, Deliver(i, now)))
  {
    var n := db.notices[i];
    assert NoticeOk(db.procs, db.steps, n);
    if n.ResumeStep? && ResumeParent(flags, db, n.step, now).Ok? { ConcludeKeepsRest(flags, db, n.step, now); }
  }

  /** No transaction changes a requirement or an object, or touches columns or templates. */
  lemma TransactionsKeepRest(flags: Flags, db: Db, a: Action)
    requires Good(flags, db) && (a.Advance? || a.Complete? || a.Deliver?)
    ensures RestKept(db, Exec(flags, db, a))
  {
    match a
    case Advance(s, now) => AdvanceKeepsRest(flags, db, s, now);
    case Complete(s, now) => if s < |db.steps| { CompletionKeepsRest(flags, db, s, now); }
    case Deliver(i, now) => if i < |db.notices| { DeliveryKeepsRest(flags, db, i, now); }
  }
}
