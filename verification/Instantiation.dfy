/** Copying a process template into instance rows, with template ids remapped to the ids
    of the freshly inserted steps. */
module Instantiation {
  import opened Basics
  import opened Json
  import opened Tables
  import opened Text

  /** What the caller hands over besides the template. */
  datatype Seed = Seed(
    tenant: int,
    subjectType: SubjectType,
    subjectId: int,
    link: Option<Link>,
    policy: FailurePolicy,
    context: Option<Record>)

  function StepOrder(catalog: Catalog): nat -> int {
    (i: nat) => if i < |catalog.steps| then catalog.steps[i].order else 0
  }

  function BindingOrder(catalog: Catalog): nat -> int {
    (i: nat) => if i < |catalog.bindings| then catalog.bindings[i].orderIndex else 0
  }

  /** Steps of template `t`, ORDER BY step_order. */
  function OrderedSteps(catalog: Catalog, t: nat): (rows: seq<nat>)
    ensures forall i: nat :: i in rows <==> i < |catalog.steps| && catalog.steps[i].template == t
    ensures forall k :: 0 <= k < |rows| ==> rows[k] < |catalog.steps|
    ensures forall j, k :: 0 <= j < k < |rows| ==> catalog.steps[rows[j]].order <= catalog.steps[rows[k]].order
  {
    var key := StepOrder(catalog);
    var rows := SortBy(Select(|catalog.steps|, (i: nat) => i < |catalog.steps| && catalog.steps[i].template == t), key);
    assert forall k :: 0 <= k < |rows| ==> rows[k] in rows;
    assert forall j, k :: 0 <= j < k < |rows| ==> key(rows[j]) <= key(rows[k]);
    rows
  }

  function NewStep(catalog: Catalog, row: nat, p: nat): Step
    requires row < |catalog.steps|
  {
    var t := catalog.steps[row];
    Step(p, row, if t.name.Some? then t.name.value else "Step " + Decimal(t.order),
         t.taskType, t.order, t.optional, if t.order == 1 then Ready else Pending, NoReason)
  }

  function NewSteps(catalog: Catalog, rows: seq<nat>, p: nat): (steps: seq<Step>)
    requires forall i :: i in rows ==> i < |catalog.steps|
    ensures |steps| == |rows|
    ensures forall k :: 0 <= k < |rows| ==> rows[k] in rows && steps[k] == NewStep(catalog, rows[k], p)
  {
    seq(|rows|, k requires 0 <= k < |rows| => assert rows[k] in rows; NewStep(catalog, rows[k], p))
  }

  function RequirementsIn(catalog: Catalog, rows: seq<nat>): (ids: seq<nat>)
    ensures forall i: nat :: i in ids <==> i < |catalog.requirements| && catalog.requirements[i].step in rows
  {
    Select(|catalog.requirements|, (i: nat) => i < |catalog.requirements| && catalog.requirements[i].step in rows)
  }

  function TriggersIn(catalog: Catalog, rows: seq<nat>): (ids: seq<nat>)
    ensures forall i: nat :: i in ids <==> i < |catalog.triggers| && catalog.triggers[i].step in rows
  {
    Select(|catalog.triggers|, (i: nat) => i < |catalog.triggers| && catalog.triggers[i].step in rows)
  }

  /** ORDER BY order_index, binding_id. */
  function BindingsIn(catalog: Catalog, rows: seq<nat>): (ids: seq<nat>)
    ensures forall i: nat :: i in ids <==> i < |catalog.bindings| && catalog.bindings[i].step in rows
  {
    SortBy(Select(|catalog.bindings|, (i: nat) => i < |catalog.bindings| && catalog.bindings[i].step in rows),
           BindingOrder(catalog))
  }

  function CopyRequirement(catalog: Catalog, rows: seq<nat>, base: nat, r: nat): Requirement
    requires r < |catalog.requirements| && catalog.requirements[r].step in rows
  {
    Requirement(base + IndexOf(rows, catalog.requirements[r].step), r, true, false)
  }

  function CopyTrigger(catalog: Catalog, rows: seq<nat>, base: nat, t: nat): Trigger
    requires t < |catalog.triggers| && catalog.triggers[t].step in rows
  {
    Trigger(base + IndexOf(rows, catalog.triggers[t].step), t, catalog.triggers[t].condition, false)
  }

  function CopyBinding(catalog: Catalog, rows: seq<nat>, base: nat, b: nat): Binding
    requires b < |catalog.bindings| && catalog.bindings[b].step in rows
  {
    Binding(base + IndexOf(rows, catalog.bindings[b].step), Some(b), catalog.bindings[b].configObject,
            None, BindingPending, None)
  }

  function CopyRequirements(catalog: Catalog, rows: seq<nat>, base: nat): (copies: seq<Requirement>)
    ensures var ids := RequirementsIn(catalog, rows);
      |copies| == |ids| && forall k :: 0 <= k < |ids| ==> ids[k] in ids && copies[k] == CopyRequirement(catalog, rows, base, ids[k])
  {
    var ids := RequirementsIn(catalog, rows);
    seq(|ids|, k requires 0 <= k < |ids| => assert ids[k] in ids; CopyRequirement(catalog, rows, base, ids[k]))
  }

  function CopyTriggers(catalog: Catalog, rows: seq<nat>, base: nat): (copies: seq<Trigger>)
    ensures var ids := TriggersIn(catalog, rows);
      |copies| == |ids| && forall k :: 0 <= k < |ids| ==> ids[k] in ids && copies[k] == CopyTrigger(catalog, rows, base, ids[k])
  {
    var ids := TriggersIn(catalog, rows);
    seq(|ids|, k requires 0 <= k < |ids| => assert ids[k] in ids; CopyTrigger(catalog, rows, base, ids[k]))
  }

  function CopyBindings(catalog: Catalog, rows: seq<nat>, base: nat): (copies: seq<Binding>)
    ensures var ids := BindingsIn(catalog, rows);
      |copies| == |ids| && forall k :: 0 <= k < |ids| ==> ids[k] in ids && copies[k] == CopyBinding(catalog, rows, base, ids[k])
  {
    var ids := BindingsIn(catalog, rows);
    seq(|ids|, k requires 0 <= k < |ids| => assert ids[k] in ids; CopyBinding(catalog, rows, base, ids[k]))
  }

  /** A self-anchored workflow takes its own id as subject. */
  function NewProcess(seed: Seed, t: nat, p: nat): Process {
    Process(t, seed.tenant, seed.subjectType,
            if seed.subjectType.Workflow? && seed.subjectId == 0 then RowId(p) else seed.subjectId,
            Active, seed.link, seed.policy, seed.context)
  }

  function Instantiate(db: Db, t: nat, seed: Seed): (r: Db)
    ensures |r.procs| == |db.procs| + 1
  {
    var rows := OrderedSteps(db.catalog, t);
    var base := |db.steps|;
    db.(procs := db.procs + [NewProcess(seed, t, |db.procs|)],
        steps := db.steps + NewSteps(db.catalog, rows, |db.procs|),
        reqs := db.reqs + CopyRequirements(db.catalog, rows, base),
        trigs := db.trigs + CopyTriggers(db.catalog, rows, base),
        bindings := db.bindings + CopyBindings(db.catalog, rows, base))
  }

  // ----- the copy preserves the template's structure -----

  lemma OrderedStepsDistinct(catalog: Catalog, t: nat)
    ensures Distinct(OrderedSteps(catalog, t))
  {
    var ids := Select(|catalog.steps|, (i: nat) => i < |catalog.steps| && catalog.steps[i].template == t);
    IncreasingIsDistinct(ids);
    SortKeepsDistinct(ids, StepOrder(catalog));
  }

  lemma BindingsInDistinct(catalog: Catalog, rows: seq<nat>)
    ensures Distinct(BindingsIn(catalog, rows))
  {
    var ids := Select(|catalog.bindings|, (i: nat) => i < |catalog.bindings| && catalog.bindings[i].step in rows);
    IncreasingIsDistinct(ids);
    SortKeepsDistinct(ids, BindingOrder(catalog));
  }

  /** The instance steps are the template's steps, each once, in step order and under their
      names; exactly those with order 1 start ready. Earlier rows are untouched. */
  lemma StepsAreABijection(db: Db, t: nat, seed: Seed)
    ensures var rows := OrderedSteps(db.catalog, t);
      var r := Instantiate(db, t, seed);
      && Distinct(rows)
      && (forall i: nat :: i in rows <==> i < |db.catalog.steps| && db.catalog.steps[i].template == t)
      && |r.steps| == |db.steps| + |rows|
      && r.steps[..|db.steps|] == db.steps
      && (forall k :: |db.steps| <= k < |r.steps| ==> CopyOf(db.catalog, r.steps[k], rows[k - |db.steps|], |db.procs|))
      && (forall j, k :: |db.steps| <= j < k < |r.steps| ==> r.steps[j].order <= r.steps[k].order)
      && (forall k :: |db.steps| <= k < |r.steps| ==> NamedAfter(r.steps[k], db.catalog.steps[rows[k - |db.steps|]]))
  {
    OrderedStepsDistinct(db.catalog, t);
    AppendedSteps(db, t, Instantiate(db, t, seed));
    AppendedNames(db, t, Instantiate(db, t, seed));
  }

  lemma AppendedSteps(db: Db, t: nat, r: Db)
    requires r.steps == db.steps + NewSteps(db.catalog, OrderedSteps(db.catalog, t), |db.procs|)
    ensures var rows := OrderedSteps(db.catalog, t);
      && |r.steps| == |db.steps| + |rows|
      && r.steps[..|db.steps|] == db.steps
      && (forall k :: |db.steps| <= k < |r.steps| ==> CopyOf(db.catalog, r.steps[k], rows[k - |db.steps|], |db.procs|))
      && (forall j, k :: |db.steps| <= j < k < |r.steps| ==> r.steps[j].order <= r.steps[k].order)
  {
    var added := NewSteps(db.catalog, OrderedSteps(db.catalog, t), |db.procs|);
    assert forall k :: |db.steps| <= k < |r.steps| ==> r.steps[k] == added[k - |db.steps|];
  }

  lemma AppendedNames(db: Db, t: nat, r: Db)
    requires r.steps == db.steps + NewSteps(db.catalog, OrderedSteps(db.catalog, t), |db.procs|)
    ensures var rows := OrderedSteps(db.catalog, t);
      forall k :: |db.steps| <= k < |r.steps| ==> NamedAfter(r.steps[k], db.catalog.steps[rows[k - |db.steps|]])
  {
    var rows := OrderedSteps(db.catalog, t);
    forall k | |db.steps| <= k < |r.steps| ensures NamedAfter(r.steps[k], db.catalog.steps[rows[k - |db.steps|]]) {
      NewStepIsNamed(db.catalog, rows[k - |db.steps|], |db.procs|);
    }
  }

  /** By the template's name, or by its order where there is none. */
  ghost predicate NamedAfter(step: Step, tpl: TplStep) {
    step.name == match tpl.name case Some(name) => name case None => "Step " + Decimal(tpl.order)
  }

  lemma NewStepIsNamed(catalog: Catalog, row: nat, p: nat)
    requires row < |catalog.steps|
    ensures NamedAfter(NewStep(catalog, row, p), catalog.steps[row])
  {}

  ghost predicate CopyOf(catalog: Catalog, step: Step, tpl: nat, p: nat) {
    && tpl < |catalog.steps|
    && step.template == tpl
    && step.process == p
    && step.order == catalog.steps[tpl].order
    && step.taskType == catalog.steps[tpl].taskType
    && step.optional == catalog.steps[tpl].optional
    && step.reason.NoReason?
    && (step.status.Ready? <==> step.order == 1)
    && (step.status.Pending? <==> step.order != 1)
  }

  lemma IndexLandsOnInstance(db: Db, t: nat, seed: Seed, tpl: nat)
    requires tpl in OrderedSteps(db.catalog, t)
    ensures var rows := OrderedSteps(db.catalog, t);
      var at := |db.steps| + IndexOf(rows, tpl);
      at < |Instantiate(db, t, seed).steps| && Instantiate(db, t, seed).steps[at].template == tpl
  {
    IndexLands(db, t, Instantiate(db, t, seed), tpl);
  }

  lemma IndexLands(db: Db, t: nat, r: Db, tpl: nat)
    requires tpl in OrderedSteps(db.catalog, t)
    requires r.steps == db.steps + NewSteps(db.catalog, OrderedSteps(db.catalog, t), |db.procs|)
    ensures var at := |db.steps| + IndexOf(OrderedSteps(db.catalog, t), tpl);
      at < |r.steps| && r.steps[at].template == tpl
  {
    AppendedSteps(db, t, r);
  }

  ghost predicate RequirementPlaced(db: Db, r: Db, row: Requirement, id: nat) {
    && id < |db.catalog.requirements|
    && row.template == id && row.mandatory && !row.approved
    && |db.steps| <= row.step < |r.steps|
    && r.steps[row.step].template == db.catalog.requirements[id].step
  }

  /** Every requirement of every template step reaches that step's instance: none lost,
      none duplicated, none misplaced. */
  lemma RequirementsFollowTheirStep(db: Db, t: nat, seed: Seed)
    ensures var ids := RequirementsIn(db.catalog, OrderedSteps(db.catalog, t));
      var r := Instantiate(db, t, seed);
      && Distinct(ids)
      && |r.reqs| == |db.reqs| + |ids|
      && r.reqs[..|db.reqs|] == db.reqs
      && forall k :: 0 <= k < |ids| ==> RequirementPlaced(db, r, r.reqs[|db.reqs| + k], ids[k])
  {
    var rows := OrderedSteps(db.catalog, t);
    var ids := RequirementsIn(db.catalog, rows);
    IncreasingIsDistinct(ids);
    var r := Instantiate(db, t, seed);
    var copies := CopyRequirements(db.catalog, rows, |db.steps|);
    assert r.reqs == db.reqs + copies;
    forall k | 0 <= k < |ids| ensures RequirementPlaced(db, r, copies[k], ids[k]) {
      assert ids[k] in ids;
      IndexLandsOnInstance(db, t, seed, db.catalog.requirements[ids[k]].step);
    }
  }

  ghost predicate TriggerPlaced(db: Db, r: Db, row: Trigger, id: nat) {
    && id < |db.catalog.triggers|
    && row.template == id && row.condition == db.catalog.triggers[id].condition && !row.met
    && |db.steps| <= row.step < |r.steps|
    && r.steps[row.step].template == db.catalog.triggers[id].step
  }

  lemma TriggersFollowTheirStep(db: Db, t: nat, seed: Seed)
    ensures var ids := TriggersIn(db.catalog, OrderedSteps(db.catalog, t));
      var r := Instantiate(db, t, seed);
      && Distinct(ids)
      && |r.trigs| == |db.trigs| + |ids|
      && r.trigs[..|db.trigs|] == db.trigs
      && forall k :: 0 <= k < |ids| ==> TriggerPlaced(db, r, r.trigs[|db.trigs| + k], ids[k])
  {
    var rows := OrderedSteps(db.catalog, t);
    var ids := TriggersIn(db.catalog, rows);
    IncreasingIsDistinct(ids);
    var r := Instantiate(db, t, seed);
    var copies := CopyTriggers(db.catalog, rows, |db.steps|);
    assert r.trigs == db.trigs + copies;
    forall k | 0 <= k < |ids| ensures TriggerPlaced(db, r, r.trigs[|db.trigs| + k], ids[k]) {
      TriggerFollowsItsStep(db, t, seed, k);
    }
  }

  lemma TriggerFollowsItsStep(db: Db, t: nat, seed: Seed, k: nat)
    requires k < |TriggersIn(db.catalog, OrderedSteps(db.catalog, t))|
    ensures var r := Instantiate(db, t, seed);
      && |db.trigs| + k < |r.trigs|
      && TriggerPlaced(db, r, r.trigs[|db.trigs| + k], TriggersIn(db.catalog, OrderedSteps(db.catalog, t))[k])
  {
    TriggerLands(db, t, Instantiate(db, t, seed), k);
  }

  lemma TriggerLands(db: Db, t: nat, r: Db, k: nat)
    requires r.steps == db.steps + NewSteps(db.catalog, OrderedSteps(db.catalog, t), |db.procs|)
    requires r.trigs == db.trigs + CopyTriggers(db.catalog, OrderedSteps(db.catalog, t), |db.steps|)
    requires k < |TriggersIn(db.catalog, OrderedSteps(db.catalog, t))|
    ensures |db.trigs| + k < |r.trigs|
    ensures TriggerPlaced(db, r, r.trigs[|db.trigs| + k], TriggersIn(db.catalog, OrderedSteps(db.catalog, t))[k])
  {
    var rows := OrderedSteps(db.catalog, t);
    var ids := TriggersIn(db.catalog, rows);
    assert ids[k] in ids;
    IndexLands(db, t, r, db.catalog.triggers[ids[k]].step);
    AppendedAt(db.trigs, CopyTriggers(db.catalog, rows, |db.steps|), k);
  }

  /** Bindings are copied in the order of the template, and by id where that is equal. */
  lemma {:induction false} InsertInOrder(x: nat, s: seq<nat>, key: nat -> int)
    requires SortedBy(s, key) && OrderedThenById(s, key)
    requires forall y :: y in s ==> x < y
    ensures OrderedThenById(InsertBy(x, s, key), key)
  {
    if s == [] {
    } else if key(x) <= key(s[0]) {
      var r := [x] + s;
      assert forall i :: 0 < i < |r| ==> r[i] == s[i - 1] && r[i] in s;
    } else {
      assert s[0] in s && forall y :: y in s[1..] ==> y in s;
      InsertInOrder(x, s[1..], key);
      var rest := InsertBy(x, s[1..], key);
      forall i | 0 <= i < |rest| ensures Precedes(s[0], rest[i], key) {
        assert rest[i] in rest;
        if rest[i] != x {
          assert rest[i] in s[1..];
          var k :| 0 <= k < |s[1..]| && s[1..][k] == rest[i];
          assert Precedes(s[0], s[k + 1], key);
        }
      }
    }
  }

  ghost predicate Precedes(a: nat, b: nat, key: nat -> int) {
    key(a) < key(b) || (key(a) == key(b) && a < b)
  }

  ghost predicate OrderedThenById(s: seq<nat>, key: nat -> int) {
    forall i, j :: 0 <= i < j < |s| ==> Precedes(s[i], s[j], key)
  }

  lemma {:induction false} SortInOrder(s: seq<nat>, key: nat -> int)
    requires Increasing(s)
    ensures OrderedThenById(SortBy(s, key), key)
    decreases |s|
  {
    if s != [] {
      SortInOrder(s[1..], key);
      assert forall y :: y in s[1..] ==> s[0] < y;
      InsertInOrder(s[0], SortBy(s[1..], key), key);
    }
  }

  ghost predicate ComesFirst(catalog: Catalog, a: nat, b: nat) {
    && a < |catalog.bindings| && b < |catalog.bindings|
    && (catalog.bindings[a].orderIndex < catalog.bindings[b].orderIndex
        || (catalog.bindings[a].orderIndex == catalog.bindings[b].orderIndex && a < b))
  }

  lemma BindingsInOrder(catalog: Catalog, rows: seq<nat>)
    ensures var ids := BindingsIn(catalog, rows);
      forall i, j :: 0 <= i < j < |ids| ==> ComesFirst(catalog, ids[i], ids[j])
  {
    SortInOrder(Select(|catalog.bindings|, (i: nat) => i < |catalog.bindings| && catalog.bindings[i].step in rows), BindingOrder(catalog));
    var ids := BindingsIn(catalog, rows);
    forall i, j | 0 <= i < j < |ids| ensures ComesFirst(catalog, ids[i], ids[j]) {
      assert ids[i] in ids && ids[j] in ids;
      assert Precedes(ids[i], ids[j], BindingOrder(catalog));
    }
  }

  ghost predicate BindingPlaced(db: Db, r: Db, row: Binding, id: nat) {
    && id < |db.catalog.bindings|
    && row.binding == Some(id) && row.configObject == db.catalog.bindings[id].configObject
    && row.instance.None? && row.status.BindingPending? && row.snapshot.None?
    && |db.steps| <= row.step < |r.steps|
    && r.steps[row.step].template == db.catalog.bindings[id].step
  }

  lemma BindingsFollowTheirStep(db: Db, t: nat, seed: Seed)
    ensures var ids := BindingsIn(db.catalog, OrderedSteps(db.catalog, t));
      var r := Instantiate(db, t, seed);
      && Distinct(ids)
      && |r.bindings| == |db.bindings| + |ids|
      && r.bindings[..|db.bindings|] == db.bindings
      && (forall k :: 0 <= k < |ids| ==> BindingPlaced(db, r, r.bindings[|db.bindings| + k], ids[k]))
      && forall i, j :: 0 <= i < j < |ids| ==> ComesFirst(db.catalog, ids[i], ids[j])
  {
    var rows := OrderedSteps(db.catalog, t);
    var ids := BindingsIn(db.catalog, rows);
    BindingsInDistinct(db.catalog, rows);
    BindingsInOrder(db.catalog, rows);
    var r := Instantiate(db, t, seed);
    var copies := CopyBindings(db.catalog, rows, |db.steps|);
    assert r.bindings == db.bindings + copies;
    forall k | 0 <= k < |ids| ensures BindingPlaced(db, r, r.bindings[|db.bindings| + k], ids[k]) {
      BindingFollowsItsStep(db, t, seed, k);
    }
  }

  lemma BindingFollowsItsStep(db: Db, t: nat, seed: Seed, k: nat)
    requires k < |BindingsIn(db.catalog, OrderedSteps(db.catalog, t))|
    ensures var r := Instantiate(db, t, seed);
      && |db.bindings| + k < |r.bindings|
      && BindingPlaced(db, r, r.bindings[|db.bindings| + k], BindingsIn(db.catalog, OrderedSteps(db.catalog, t))[k])
  {
    BindingLands(db, t, Instantiate(db, t, seed), k);
  }

  lemma BindingLands(db: Db, t: nat, r: Db, k: nat)
    requires r.steps == db.steps + NewSteps(db.catalog, OrderedSteps(db.catalog, t), |db.procs|)
    requires r.bindings == db.bindings + CopyBindings(db.catalog, OrderedSteps(db.catalog, t), |db.steps|)
    requires k < |BindingsIn(db.catalog, OrderedSteps(db.catalog, t))|
    ensures |db.bindings| + k < |r.bindings|
    ensures BindingPlaced(db, r, r.bindings[|db.bindings| + k], BindingsIn(db.catalog, OrderedSteps(db.catalog, t))[k])
  {
    var rows := OrderedSteps(db.catalog, t);
    var ids := BindingsIn(db.catalog, rows);
    assert ids[k] in ids;
    IndexLands(db, t, r, db.catalog.bindings[ids[k]].step);
    AppendedAt(db.bindings, CopyBindings(db.catalog, rows, |db.steps|), k);
  }

  lemma AppendedAt<T>(a: seq<T>, b: seq<T>, k: nat)
    requires k < |b|
    ensures (a + b)[|a| + k] == b[k]
  {}
}
