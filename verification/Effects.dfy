/** What single transactions do, exactly: which steps are unlocked, when a process completes,
    what a merge keeps, and which subject a child gets. */
module Effects {
  import opened Basics
  import opened Json
  import opened Tables
  import opened StepObjects
  import opened Instantiation
  import opened ProjectHost
  import opened ChildProcess
  import opened Completion
  import opened Orchestrator
  import opened Protocol
  import opened Preservation
  import opened Evolution
  import opened Runs
  import CompletionRule

  // ----- unlocking the next steps -----

  /** Tables in which everything step `x` is judged by is the same. */
  ghost predicate SameView(db: Db, r: Db, x: nat) {
    && ValidRefs(r) && ValidRefs(db)
    && x < |db.steps| && x < |r.steps| && r.steps[x] == db.steps[x]
    && r.procs[r.steps[x].process].tenant == db.procs[db.steps[x].process].tenant
    && r.procs[r.steps[x].process].template == db.procs[db.steps[x].process].template
    && r.catalog == db.catalog
    && |r.reqs| >= |db.reqs| && (forall i :: 0 <= i < |db.reqs| ==> r.reqs[i] == db.reqs[i])
    && (forall i :: |db.reqs| <= i < |r.reqs| ==> r.reqs[i].step != x)
    && |r.trigs| >= |db.trigs| && (forall i :: 0 <= i < |db.trigs| ==> SameTrigger(db.trigs[i], r.trigs[i]))
    && (forall i :: |db.trigs| <= i < |r.trigs| ==> r.trigs[i].step != x)
    && |r.bindings| >= |db.bindings|
    && (forall i :: 0 <= i < |db.bindings| ==> SameForStep(db.bindings[i], r.bindings[i], x))
    && (forall i :: |db.bindings| <= i < |r.bindings| ==> r.bindings[i].step != x)
  }

  ghost predicate SameForStep(a: Binding, b: Binding, x: nat) {
    if a.step == x then b == a else b.step != x
  }

  lemma SameViewTrans(a: Db, b: Db, c: Db, x: nat)
    requires SameView(a, b, x) && SameView(b, c, x)
    ensures SameView(a, c, x)
  {
    forall i | 0 <= i < |a.trigs| ensures SameTrigger(a.trigs[i], c.trigs[i]) {
      assert SameTrigger(a.trigs[i], b.trigs[i]) && SameTrigger(b.trigs[i], c.trigs[i]);
    }
    forall i | 0 <= i < |a.bindings| ensures SameForStep(a.bindings[i], c.bindings[i], x) {
      assert SameForStep(a.bindings[i], b.bindings[i], x) && SameForStep(b.bindings[i], c.bindings[i], x);
    }
  }

  lemma SameGates(flags: Flags, db: Db, r: Db, x: nat)
    requires SameView(db, r, x)
    ensures RequirementsApproved(r, x) == RequirementsApproved(db, x)
    ensures BindingsValid(flags, r, x) == BindingsValid(flags, db, x)
  {
    forall i | 0 <= i < |db.bindings| ensures SameForStep(db.bindings[i], r.bindings[i], x) {}
  }

  lemma SameTriggersMet(db: Db, r: Db, x: nat, ctx: TriggerContext)
    requires SameView(db, r, x)
    ensures TriggersMet(r.trigs, x, ctx) == TriggersMet(db.trigs, x, ctx)
  {
    forall i | 0 <= i < |db.trigs| ensures r.trigs[i].step == db.trigs[i].step && r.trigs[i].condition == db.trigs[i].condition {
      assert SameTrigger(db.trigs[i], r.trigs[i]);
    }
  }

  lemma SameEligibility(flags: Flags, db: Db, r: Db, x: nat, now: int)
    requires SameView(db, r, x)
    ensures Eligible(flags, r, x, now) == Eligible(flags, db, x, now)
  {
    SameGates(flags, db, r, x);
    assert ContextOf(r, x, now) == ContextOf(db, x, now);
    SameTriggersMet(db, r, x, ContextOf(db, x, now));
  }

  lemma ProvisionKeepsView(flags: Flags, db: Db, t: nat, x: nat)
    requires ValidRefs(db) && t < |db.steps| && x < |db.steps| && x != t
    ensures SameView(db, Provision(flags, db, t), x)
  {
    var r := Provision(flags, db, t);
    forall i | 0 <= i < |db.bindings| ensures SameForStep(db.bindings[i], r.bindings[i], x) {
      if db.bindings[i].step == x {
        ProvisionFrame(flags, db, t, i);
      } else if flags.objectSteps {
        ProvisionKeepsIdentity(db, Provisionable(db, t), db.procs[db.steps[t].process].tenant, i);
      }
    }
  }

  lemma InstantiateKeepsView(db: Db, t: nat, seed: Seed, x: nat)
    requires ValidRefs(db) && x < |db.steps|
    requires seed.link.Some? ==> seed.link.value.parent < |db.procs| && seed.link.value.step < |db.steps|
    ensures SameView(db, Instantiate(db, t, seed), x)
  {
    var r := Instantiate(db, t, seed);
    var rows := OrderedSteps(db.catalog, t);
    InstantiateRefs(db, t, seed);
    CopiesAreElsewhere(db, rows, x);
  }

  /** Copied rows belong to the copied steps. */
  lemma CopiesAreElsewhere(db: Db, rows: seq<nat>, x: nat)
    requires x < |db.steps|
    ensures forall i :: 0 <= i < |CopyRequirements(db.catalog, rows, |db.steps|)| ==>
      CopyRequirements(db.catalog, rows, |db.steps|)[i].step != x
    ensures forall i :: 0 <= i < |CopyTriggers(db.catalog, rows, |db.steps|)| ==>
      CopyTriggers(db.catalog, rows, |db.steps|)[i].step != x
    ensures forall i :: 0 <= i < |CopyBindings(db.catalog, rows, |db.steps|)| ==>
      CopyBindings(db.catalog, rows, |db.steps|)[i].step != x
  {}

  lemma PromoteKeepsView(flags: Flags, db: Db, t: nat, x: nat)
    requires ValidRefs(db) && t < |db.steps| && x < |db.steps| && x != t && Promote(flags, db, t).Ok?
    ensures SameView(db, Promote(flags, db, t).value, x)
  {
    if !Spawns(flags, db.steps[t]) {
      var moved := Move(db, t, Ready);
      assert SameView(db, moved, x);
      ProvisionKeepsView(flags, moved, t, x);
      SameViewTrans(db, moved, Provision(flags, moved, t), x);
    } else if !HasChild(db.procs, t) {
      var tpl := db.catalog.steps[db.steps[t].template];
      InstantiateKeepsView(db, tpl.childTemplate.value, ChildSeed(db, t, tpl).value, x);
      BlockKeepsView(db, Instantiate(db, tpl.childTemplate.value, ChildSeed(db, t, tpl).value), t, x);
    }
  }

  lemma BlockKeepsView(db: Db, r: Db, t: nat, x: nat)
    requires SameView(db, r, x) && t < |r.steps| && t != x
    ensures SameView(db, r.(steps := Block(r.steps, t)), x)
  {}

  lemma EvaluatedKeepsView(db: Db, t: nat, now: int, x: nat)
    requires ValidRefs(db) && t < |db.steps| && x < |db.steps|
    ensures SameView(db, Evaluated(db, t, now), x)
  {}

  lemma EnableStepKeepsView(flags: Flags, db: Db, t: nat, now: int, x: nat)
    requires ValidRefs(db) && t < |db.steps| && x < |db.steps| && x != t && EnableStep(flags, db, t, now).Ok?
    ensures SameView(db, EnableStep(flags, db, t, now).value, x)
  {
    EvaluatedKeepsView(db, t, now, x);
    if Eligible(flags, db, t, now) {
      PromoteKeepsView(flags, Evaluated(db, t, now), t, x);
      SameViewTrans(db, Evaluated(db, t, now), EnableStep(flags, db, t, now).value, x);
    }
  }

  /** What an eligible pending step turns into. */
  function Unlocked(flags: Flags, step: Step): Step {
    if Spawns(flags, step) then step.(status := Blocked, reason := WaitingChild) else step.(status := Ready)
  }

  lemma EnableStepUnlocks(flags: Flags, db: Db, t: nat, now: int)
    requires ValidRefs(db) && t < |db.steps| && EnableStep(flags, db, t, now).Ok?
    ensures EnableStep(flags, db, t, now).value.steps[t] ==
      if Eligible(flags, db, t, now) then Unlocked(flags, db.steps[t]) else db.steps[t]
  {}

  lemma {:induction false} EnableStepsExactly(flags: Flags, db: Db, rows: seq<nat>, now: int, x: nat)
    requires ValidRefs(db) && RowsIn(rows, |db.steps|) && Distinct(rows) && x < |db.steps|
    requires EnableSteps(flags, db, rows, now).Ok?
    ensures var r := EnableSteps(flags, db, rows, now).value;
      && x < |r.steps|
      && r.steps[x] == (if x in rows && Eligible(flags, db, x, now) then Unlocked(flags, db.steps[x]) else db.steps[x])
      && (x !in rows ==> SameView(db, r, x))
    decreases |rows|
  {
    if rows == [] {
      assert SameView(db, db, x);
    } else {
      var next := EnableStep(flags, db, rows[0], now).value;
      assert forall y :: y in rows <==> y == rows[0] || y in rows[1..];
      assert rows[0] !in rows[1..];
      EnableStepUnlocks(flags, db, rows[0], now);
      EnableStepsExactly(flags, next, rows[1..], now, x);
      if x != rows[0] {
        EnableStepKeepsView(flags, db, rows[0], now, x);
        SameEligibility(flags, db, next, x, now);
        if x !in rows { SameViewTrans(db, next, EnableSteps(flags, next, rows[1..], now).value, x); }
      }
    }
  }

  /** After a step, exactly the pending steps of the next order in the same process whose gates
      and triggers are met are unlocked; every other step is as it was. */
  lemma NextStepsAreUnlockedExactly(flags: Flags, db: Db, s: nat, now: int, x: nat)
    requires ValidRefs(db) && s < |db.steps| && x < |db.steps| && EnableNext(flags, db, s, now).Ok?
    ensures var r := EnableNext(flags, db, s, now).value;
      var next := db.steps[x].process == db.steps[s].process && db.steps[x].order == db.steps[s].order + 1
        && db.steps[x].status.Pending?;
      && x < |r.steps|
      && r.steps[x] == if next && Eligible(flags, db, x, now) then Unlocked(flags, db.steps[x]) else db.steps[x]
  {
    var rows := NextRows(flags, db, s, now);
    EnableStepsExactly(flags, db, rows, now, x);
  }

  // ----- completing processes -----

  /** When an active process completes: a child as soon as all its steps are completed, a root
      only if moreover none of its children is active and all mandatory bindings are settled. */
  lemma ProcessCompletesIff(flags: Flags, db: Db, p: nat)
    requires p < |db.procs| && db.procs[p].status.Active?
    ensures var r := MaybeComplete(flags, db, p).0;
      && |r.procs| == |db.procs|
      && (r.procs[p].status.Finished? <==>
            (&& AllDone(db.steps, p)
             && (db.procs[p].link.None? ==> NoActiveChild(db.procs, p) && AllBindingsValid(flags, db, p))))
      && (r.procs[p].status.Finished? || r.procs[p] == db.procs[p])
      && (forall q :: 0 <= q < |db.procs| && q != p ==> r.procs[q] == db.procs[q])
  {
    if AllDone(db.steps, p) {
      assert HasSteps(db.steps, p) && AllTerminal(db.steps, p);
    }
  }

  // ----- what a parent takes from its child -----

  /** The child's entries win over the parent's, the parent's others stay, and the stamp is the
      only addition. */
  lemma MergeKeepsBoth(flags: Flags, db: Db, c: nat, aborted: bool, now: int)
    requires ValidRefs(db) && flags.callProcess && c < |db.procs| && db.procs[c].link.Some?
    ensures var p := db.procs[c].link.value.parent;
      var r := HandleTerminal(flags, db, c, aborted, now);
      && |r.procs| == |db.procs| && r.procs[p].context.Some?
      && var before, child, after := RecordOrEmpty(db.procs[p].context), RecordOrEmpty(db.procs[c].context), r.procs[p].context.value;
      && after.Keys == before.Keys + child.Keys + {MERGED_KEY}
      && after[MERGED_KEY] == Num(now)
      && (forall k :: k in child && k != MERGED_KEY ==> after[k] == child[k])
      && (forall k :: k in before && k !in child && k != MERGED_KEY ==> after[k] == before[k])
  {}

  /** What the report of a child's end does. The parent's context takes the child's entries and
      the stamp; then a completed child, or a canceled one that is ignored, completes the call
      step, and a completed one announces the resumption; under fail_parent a canceled child
      cancels the call step and the parent; under pause_parent nothing else happens. */
  lemma EndingDecides(flags: Flags, db: Db, c: nat, aborted: bool, now: int)
    requires ValidRefs(db) && flags.callProcess && c < |db.procs| && db.procs[c].link.Some?
    ensures var l := db.procs[c].link.value;
      var parent, step := db.procs[l.parent], db.steps[l.step];
      var fails, passes := aborted && parent.policy.FailParent?, !aborted || parent.policy.Ignore?;
      var merged := (RecordOrEmpty(parent.context) + RecordOrEmpty(db.procs[c].context))["childMergedAt" := Num(now)];
      HandleTerminal(flags, db, c, aborted, now) == db.(
        procs := db.procs[l.parent := parent.(context := Some(merged), status := if fails then Aborted else parent.status)],
        steps := db.steps[l.step :=
          if passes then step.(status := Completed, reason := NoReason)
          else if fails then step.(status := Canceled, reason := ChildFailed) else step],
        notices := db.notices + if aborted then [] else [ResumeStep(l.step)])
  {
    var l := db.procs[c].link.value;
    var r := HandleTerminal(flags, db, c, aborted, now);
    var parent := db.procs[l.parent];
    if aborted && parent.policy.PauseParent? {
      assert db.steps[l.step := db.steps[l.step]] == db.steps;
    }
    if aborted { assert db.notices + [] == db.notices; }
    if !(aborted && parent.policy.FailParent?) { assert parent.(status := parent.status) == parent; }
  }

  /** Delivering the report does that, and takes the report off. */
  lemma ReportDecides(flags: Flags, db: Db, i: nat, now: int, c: nat)
    requires ValidRefs(db) && flags.callProcess && i < |db.notices| && c < |db.procs| && db.procs[c].link.Some?
    requires db.notices[i] == ChildFinished(c) || db.notices[i] == ChildAborted(c)
    ensures var aborted := db.notices[i] == ChildAborted(c);
      var l := db.procs[c].link.value;
      var parent, step := db.procs[l.parent], db.steps[l.step];
      var fails, passes := aborted && parent.policy.FailParent?, !aborted || parent.policy.Ignore?;
      var merged := (RecordOrEmpty(parent.context) + RecordOrEmpty(db.procs[c].context))["childMergedAt" := Num(now)];
      Exec(flags, db, Deliver(i, now)) == db.(
        procs := db.procs[l.parent := parent.(context := Some(merged), status := if fails then Aborted else parent.status)],
        steps := db.steps[l.step :=
          if passes then step.(status := Completed, reason := NoReason)
          else if fails then step.(status := Canceled, reason := ChildFailed) else step],
        notices := db.notices[..i] + db.notices[i + 1..] + if aborted then [] else [ResumeStep(l.step)])
  {
    var aborted := db.notices[i] == ChildAborted(c);
    EndingDecides(flags, db, c, aborted, now);
    AppendedThenDropped(db.notices, if aborted then [] else [ResumeStep(db.procs[c].link.value.step)], i);
  }

  lemma AppendedThenDropped(notices: seq<Notice>, added: seq<Notice>, i: nat)
    requires i < |notices|
    ensures Protocol.Without(notices + added, i) == notices[..i] + notices[i + 1..] + added
  {}

  /** A report about a process without parent, or with child processes switched off, changes nothing. */
  lemma EndingNeedsParent(flags: Flags, db: Db, c: nat, aborted: bool, now: int)
    requires ValidRefs(db) && (!flags.callProcess || c >= |db.procs| || db.procs[c].link.None?)
    ensures HandleTerminal(flags, db, c, aborted, now) == db
  {}

  /** The subject of a child: the parent's own, the first usable configuration instance, or none
      (a self-anchored workflow); it fails exactly when an instance is wanted and there is none. */
  lemma ChildSubjectLaw(parent: Process, policy: SubjectPolicy)
    ensures var r := ChildSubject(parent, policy);
      var ctx := RecordOrEmpty(parent.context);
      var camel, snake := EntryNumber(ctx, "configCustomObjectInstanceId"), EntryNumber(ctx, "config_custom_object_instance_id");
      && (policy.Inherit? ==> r == Ok((parent.subjectType, parent.subjectId)))
      && (policy.OwnWorkflow? ==> r == Ok((Workflow, 0)))
      && (policy.UseConfigInstance? ==>
            && (r.Ok? ==> r.value.0.ConfigInstance? && r.value.1 != 0)
            && (camel != 0 ==> r == Ok((ConfigInstance, camel)))
            && (camel == 0 && snake != 0 ==> r == Ok((ConfigInstance, snake)))
            && (camel == 0 && snake == 0 && parent.subjectType.ConfigInstance? && parent.subjectId != 0 ==>
                  r == Ok((ConfigInstance, parent.subjectId)))
            && (r.Thrown? <==> camel == 0 && snake == 0 && (!parent.subjectType.ConfigInstance? || parent.subjectId == 0)))
  {}

  // ----- kanban mappings -----

  lemma {:induction false} SeedColumnsLaw(columns: map<(int, StepStatus), nat>, host: HostData, states: seq<StepStatus>)
    ensures var r := SeedColumns(columns, host, states);
      && (r.Ok? <==> forall st :: st in states ==> StatusId(host, st) != 0)
      && (r.Ok? ==>
            && (forall k :: k in columns ==> k in r.value && r.value[k] == columns[k])
            && (forall k :: k in r.value && k !in columns ==> k.0 == host.projectId && k.1 in states && r.value[k] == StatusId(host, k.1))
            && (forall st :: st in states ==> (host.projectId, st) in r.value))
    decreases |states|
  {
    if states != [] {
      assert forall st :: st in states <==> st == states[0] || st in states[1..];
      if StatusId(host, states[0]) != 0 {
        SeedColumnsLaw(SeedColumn(columns, host, states[0]), host, states[1..]);
      }
    }
  }

  /** The host knows an id for the column of that name. */
  predicate Knows(host: HostData, name: string) {
    name in host.statusIdByName && host.statusIdByName[name] != 0
  }

  /** The mapping that was there, or else the id of the named column. */
  predicate MappedTo(before: map<(int, StepStatus), nat>, after: map<(int, StepStatus), nat>, host: HostData, st: StepStatus, name: string) {
    var key := (host.projectId, st);
    key in after && (key in before || (Knows(host, name) && after[key] == host.statusIdByName[name]))
  }

  /** A start succeeds in seeding exactly when the host knows the five columns; it adds the
      missing mapping of each state, to the column of that state, and overwrites none. */
  lemma SeedingLaw(columns: map<(int, StepStatus), nat>, host: HostData)
    ensures var r := SeedAll(columns, host);
      && (r.Ok? <==> Knows(host, "To Do") && Knows(host, "Ready") && Knows(host, "In Progress") && Knows(host, "Done") && Knows(host, "Blocked"))
      && (r.Thrown? ==> r.error == MissingTaskStatus)
      && (r.Ok? ==>
            && (forall k :: k in columns ==> k in r.value && r.value[k] == columns[k])
            && (forall k :: k in r.value && k !in columns ==> k.0 == host.projectId)
            && MappedTo(columns, r.value, host, Pending, "To Do")
            && MappedTo(columns, r.value, host, Ready, "Ready")
            && MappedTo(columns, r.value, host, InProgress, "In Progress")
            && MappedTo(columns, r.value, host, Completed, "Done")
            && MappedTo(columns, r.value, host, Blocked, "Blocked")
            && MappedTo(columns, r.value, host, Canceled, "Done"))
  {
    SeedingErrors(columns, host, ENGINE_STATES);
    SeedingSucceedsIff(columns, host);
    if SeedAll(columns, host).Ok? {
      SeededState(columns, host, Pending);
      SeededState(columns, host, Ready);
      SeededState(columns, host, InProgress);
      SeededState(columns, host, Completed);
      SeededState(columns, host, Blocked);
      SeededState(columns, host, Canceled);
    }
  }

  lemma SeedingSucceedsIff(columns: map<(int, StepStatus), nat>, host: HostData)
    ensures SeedAll(columns, host).Ok? <==>
      Knows(host, "To Do") && Knows(host, "Ready") && Knows(host, "In Progress") && Knows(host, "Done") && Knows(host, "Blocked")
  {
    SeedColumnsLaw(columns, host, ENGINE_STATES);
    forall st: StepStatus ensures st in ENGINE_STATES && (StatusId(host, st) != 0 <==> Knows(host, ColumnName(st))) {
      EveryState(st);
    }
    assert SeedAll(columns, host).Ok? <==> forall st: StepStatus :: Knows(host, ColumnName(st));
    assert ColumnName(Pending) == "To Do" && ColumnName(Ready) == "Ready" && ColumnName(InProgress) == "In Progress";
    assert ColumnName(Completed) == "Done" && ColumnName(Blocked) == "Blocked";
  }

  lemma SeededState(columns: map<(int, StepStatus), nat>, host: HostData, st: StepStatus)
    requires SeedAll(columns, host).Ok?
    ensures var r := SeedAll(columns, host).value;
      && (forall k :: k in r && k !in columns ==> k.0 == host.projectId)
      && MappedTo(columns, r, host, st, ColumnName(st))
  {
    SeedColumnsLaw(columns, host, ENGINE_STATES);
    EveryState(st);
  }

  lemma {:induction false} SeedingErrors(columns: map<(int, StepStatus), nat>, host: HostData, states: seq<StepStatus>)
    ensures SeedColumns(columns, host, states).Thrown? ==> SeedColumns(columns, host, states).error == MissingTaskStatus
    decreases |states|
  {
    if states != [] && StatusId(host, states[0]) != 0 { SeedingErrors(SeedColumn(columns, host, states[0]), host, states[1..]); }
  }

  lemma EveryState(st: StepStatus)
    ensures st in ENGINE_STATES
  {
    assert ENGINE_STATES[0] == Pending && ENGINE_STATES[1] == Ready && ENGINE_STATES[2] == InProgress;
    assert ENGINE_STATES[3] == Completed && ENGINE_STATES[4] == Blocked && ENGINE_STATES[5] == Canceled;
  }

  // ----- validation -----

  /** Re-checking an object decides its linked row, and only that row: valid with the payload as
      snapshot exactly when the rule is satisfied, else failed without one. */
  lemma ValidationDecides(flags: Flags, db: Db, o: nat, b: nat)
    requires Good(flags, db) && flags.objectSteps && o < |db.objects|
    requires b < |db.bindings| && db.bindings[b].instance == Some(o)
    ensures var row := Validate(flags, db, o).bindings[b];
      var ok := CompletionRule.Satisfies(RuleOf(db.catalog, db.bindings[b]), db.objects[o].payload, db.objects[o].status);
      && (row.status.BindingValid? <==> ok) && (row.status.BindingFailed? <==> !ok)
      && row.snapshot == (if ok then Some(db.objects[o].payload) else None)
      && row.instance == Some(o) && row.step == db.bindings[b].step
      && |Validate(flags, db, o).bindings| == |db.bindings|
      && forall i :: 0 <= i < |db.bindings| && i != b ==> Validate(flags, db, o).bindings[i] == db.bindings[i]
  {
    LinkedRowIs(flags, db, o, b);
  }

  /** The same, read off the rule's own entries: the row turns valid exactly when the rule is of
      the known type or of none, the object's status reaches the named minimum, and some entry
      of its payload holds something. */
  lemma ValidationReadsRule(flags: Flags, db: Db, o: nat, b: nat)
    requires Good(flags, db) && flags.objectSteps && o < |db.objects|
    requires b < |db.bindings| && db.bindings[b].instance == Some(o)
    ensures db.bindings[b].binding.Some?
    ensures var r, row, custom := Exec(flags, db, ValidateObject(o)), db.bindings[b], db.objects[o];
      var t := row.binding.value;
      var rule := if t < |db.catalog.bindings| then db.catalog.bindings[t].rule else None;
      var valid :=
        && (rule.Some? && rule.value.type_.Some? ==> rule.value.type_.value == "payload_valid")
        && (rule.Some? ==> CompletionRule.HighEnough(rule.value.minStatus, custom.status))
        && exists k :: k in custom.payload && CompletionRule.Substantial(custom.payload[k]);
      r == db.(bindings := db.bindings[b :=
        if valid then row.(status := BindingValid, snapshot := Some(custom.payload))
        else row.(status := BindingFailed, snapshot := None)])
  {
    LinkedRowIs(flags, db, o, b);
    CompletionRule.SatisfiesIff(RuleOf(db.catalog, db.bindings[b]), db.objects[o].payload, db.objects[o].status);
  }

  /** An object that no row is linked to, or any object with object steps switched off, changes
      nothing when it is re-checked. */
  lemma ValidationNeedsLink(flags: Flags, db: Db, o: nat)
    requires Good(flags, db)
    requires !flags.objectSteps || forall b :: 0 <= b < |db.bindings| ==> db.bindings[b].instance != Some(o)
    ensures Exec(flags, db, ValidateObject(o)) == db
  {}

  /** The row linked to an object is the only one that names it, and its links are intact. */
  lemma LinkedRowIs(flags: Flags, db: Db, o: nat, b: nat)
    requires Good(flags, db) && b < |db.bindings| && db.bindings[b].instance == Some(o)
    ensures LinkedRow(db, o) == Some(b)
    ensures BindingOk(db.procs, db.steps, db.objects, db.bindings[b])
  {
    LinkedRowFound(db, o, b);
    assert SharesObject(db.bindings[LinkedRow(db, o).value], db.bindings[b]);
  }

  lemma LinkedRowFound(db: Db, o: nat, b: nat)
    requires b < |db.bindings| && db.bindings[b].instance == Some(o)
    ensures LinkedRow(db, o).Some?
  {
    var linked := (i: nat) => i < |db.bindings| && db.bindings[i].instance == Some(o);
    assert linked(b);
  }
}
