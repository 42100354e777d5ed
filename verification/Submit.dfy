/** Composing a submit payload from flat field values and relation blocks. */
module Submit {
  import opened Basics
  import opened Json
  import opened Paths
  import PathText

  datatype Operation = CreateOp | UpdateOp

  datatype FieldDescriptor = FieldDescriptor(
    fieldKey: string,
    canCreate: Option<bool>,
    canUpdate: Option<bool>,
    requiredOnCreate: Option<bool>,
    requiredOnUpdate: Option<bool>,
    path: Option<string>)

  /** `path` and `required` come from the relation's inlineRelation configuration. */
  datatype Relation = Relation(key: string, path: Option<string>, required: bool)

  datatype Schema = Schema(fields: seq<FieldDescriptor>, relations: seq<Relation>)

  /** One entry of the supplied field values, in the object's own order. */
  datatype Supplied = Supplied(key: string, value: Json)

  datatype Entry = Entry(path: Path, value: Json)

  // ----- what a schema says -----

  /** `canCreate !== false`, `canUpdate !== false`. */
  predicate Writable(d: FieldDescriptor, op: Operation) {
    (if op.CreateOp? then d.canCreate else d.canUpdate) != Some(false)
  }

  /** `requiredOnCreate === true`, `requiredOnUpdate === true`. */
  predicate Required(d: FieldDescriptor, op: Operation) {
    (if op.CreateOp? then d.requiredOnCreate else d.requiredOnUpdate) == Some(true)
  }

  /** The map from field keys to descriptors: the last of equal keys wins. */
  function Descriptor(fields: seq<FieldDescriptor>, key: string): (d: Option<FieldDescriptor>)
    ensures d.Some? ==> d.value in fields && d.value.fieldKey == key
    ensures d.None? ==> forall f :: f in fields ==> f.fieldKey != key
  {
    if fields == [] then None
    else if fields[|fields| - 1].fieldKey == key then Some(fields[|fields| - 1])
    else
      assert forall f :: f in fields <==> f in fields[..|fields| - 1] || f == fields[|fields| - 1];
      Descriptor(fields[..|fields| - 1], key)
  }

  function Given(path: Option<string>): Option<string> {
    if path.Some? && PathText.Trim(path.value) != "" then Some(PathText.Trim(path.value)) else None
  }

  /** A field without a path is a property of the payload itself. */
  function FieldPath(d: FieldDescriptor): Path {
    if Given(d.path).Some? then PathText.Parse(Given(d.path).value) else [Key(d.fieldKey)]
  }

  function RelationPath(rel: Relation): Path {
    PathText.Parse(if Given(rel.path).Some? then Given(rel.path).value else rel.key)
  }

  predicate Accepted(schema: Schema, op: Operation, key: string) {
    Descriptor(schema.fields, key).Some? && Writable(Descriptor(schema.fields, key).value, op)
  }

  predicate Denied(schema: Schema, op: Operation, key: string) {
    Descriptor(schema.fields, key).Some? && !Writable(Descriptor(schema.fields, key).value, op)
  }

  predicate Supplies(values: seq<Supplied>, key: string) {
    exists i :: 0 <= i < |values| && values[i].key == key
  }

  predicate AnyDenied(schema: Schema, op: Operation, values: seq<Supplied>) {
    exists i :: 0 <= i < |values| && Denied(schema, op, values[i].key)
  }

  predicate AnyRequiredMissing(schema: Schema, op: Operation, values: seq<Supplied>) {
    exists i :: 0 <= i < |schema.fields| && Required(schema.fields[i], op) && !Supplies(values, schema.fields[i].fieldKey)
  }

  predicate HasBlock(blocks: Record, key: string) {
    key in blocks && blocks[key] != Undefined
  }

  predicate AnyBlockMissing(schema: Schema, blocks: Record) {
    exists i :: 0 <= i < |schema.relations| && schema.relations[i].required && !HasBlock(blocks, schema.relations[i].key)
  }

  // ----- composing -----

  function FieldEntries(schema: Schema, op: Operation, values: seq<Supplied>): seq<Entry> {
    if values == [] then []
    else
      var init := FieldEntries(schema, op, values[..|values| - 1]);
      var last := values[|values| - 1];
      if Accepted(schema, op, last.key)
      then init + [Entry(FieldPath(Descriptor(schema.fields, last.key).value), last.value)]
      else init
  }

  function RelationEntries(relations: seq<Relation>, blocks: Record): seq<Entry> {
    if relations == [] then []
    else
      var init := RelationEntries(relations[..|relations| - 1], blocks);
      var last := relations[|relations| - 1];
      if HasBlock(blocks, last.key) then init + [Entry(RelationPath(last), blocks[last.key])] else init
  }

  /** Writing entries one after another. */
  function Compose(target: Json, entries: seq<Entry>): Outcome<Json> {
    if entries == [] then Ok(target)
    else Then(Compose(target, entries[..|entries| - 1]), entries[|entries| - 1].path, entries[|entries| - 1].value)
  }

  /** composeRuntimeSubmitPayload: errors in the order in which they are raised. */
  function SubmitPayload(schema: Option<Schema>, op: Operation, values: seq<Supplied>, blocks: Record): Outcome<Json> {
    if schema.None? then Thrown(SchemaNotFound)
    else
      var fields :- Compose(Obj(map[]), FieldEntries(schema.value, op, values));
      if AnyDenied(schema.value, op, values) then Thrown(FieldForbidden)
      else if AnyRequiredMissing(schema.value, op, values) then Thrown(RequiredFieldMissing)
      else
        var payload :- Compose(fields, RelationEntries(schema.value.relations, blocks));
        if AnyBlockMissing(schema.value, blocks) then Thrown(RequiredRelationMissing) else Ok(payload)
  }

  // ----- the composing loops -----

  lemma SetKeepsObject(target: Json, path: Path, v: Json)
    requires target.Obj? && SetAt(target, path, v).Ok?
    ensures SetAt(target, path, v).value.Obj?
  {}

  lemma {:induction false} ComposeKeepsObject(target: Json, entries: seq<Entry>)
    requires target.Obj? && Compose(target, entries).Ok?
    ensures Compose(target, entries).value.Obj?
  {
    if entries != [] {
      ComposeKeepsObject(target, entries[..|entries| - 1]);
      SetKeepsObject(Compose(target, entries[..|entries| - 1]).value, entries[|entries| - 1].path, entries[|entries| - 1].value);
    }
  }

  lemma {:induction false} ComposeErrors(target: Json, entries: seq<Entry>)
    ensures Compose(target, entries).Thrown? ==> Compose(target, entries).error == TypeError
  {
    if entries != [] {
      var init := Compose(target, entries[..|entries| - 1]);
      ComposeErrors(target, entries[..|entries| - 1]);
      if init.Ok? { SetErrors(init.value, entries[|entries| - 1].path, entries[|entries| - 1].value); }
    }
  }

  /** A write that throws ends the composition. */
  lemma {:induction false} FieldErrorStays(target: Json, schema: Schema, op: Operation, values: seq<Supplied>, k: nat)
    requires k <= |values| && Compose(target, FieldEntries(schema, op, values[..k])).Thrown?
    ensures Compose(target, FieldEntries(schema, op, values)) == Thrown(TypeError)
    decreases |values|
  {
    ComposeErrors(target, FieldEntries(schema, op, values[..k]));
    if k == |values| {
      assert values[..k] == values;
    } else {
      var init := values[..|values| - 1];
      assert init[..k] == values[..k];
      FieldErrorStays(target, schema, op, init, k);
      ComposeSnoc(target, FieldEntries(schema, op, init), FieldEntries(schema, op, values));
    }
  }

  lemma {:induction false} RelationErrorStays(target: Json, relations: seq<Relation>, blocks: Record, k: nat)
    requires k <= |relations| && Compose(target, RelationEntries(relations[..k], blocks)).Thrown?
    ensures Compose(target, RelationEntries(relations, blocks)) == Thrown(TypeError)
    decreases |relations|
  {
    ComposeErrors(target, RelationEntries(relations[..k], blocks));
    if k == |relations| {
      assert relations[..k] == relations;
    } else {
      var init := relations[..|relations| - 1];
      assert init[..k] == relations[..k];
      RelationErrorStays(target, init, blocks, k);
      ComposeSnoc(target, RelationEntries(init, blocks), RelationEntries(relations, blocks));
    }
  }

  lemma ComposeSnoc(target: Json, init: seq<Entry>, entries: seq<Entry>)
    requires entries == init || (|entries| == |init| + 1 && entries[..|init|] == init)
    ensures entries != init ==>
      Compose(target, entries) == Then(Compose(target, init), entries[|init|].path, entries[|init|].value)
  {}

  method WriteField(payload: Json, descriptor: FieldDescriptor, value: Json) returns (r: Outcome<Json>)
    requires payload.Obj?
    ensures r == SetAt(payload, FieldPath(descriptor), value)
    ensures r.Ok? ==> r.value.Obj?
  {
    if Given(descriptor.path).Some? {
      r := SetValueAtPath(payload, FieldPath(descriptor), value);
      if r.Ok? { SetKeepsObject(payload, FieldPath(descriptor), value); }
    } else {
      r := Ok(payload.(fields := payload.fields[descriptor.fieldKey := value]));
    }
  }

  method ComposeFields(schema: Schema, op: Operation, values: seq<Supplied>) returns (payload: Json, denied: seq<string>, failed: bool)
    ensures failed ==> Compose(Obj(map[]), FieldEntries(schema, op, values)) == Thrown(TypeError)
    ensures !failed ==> Compose(Obj(map[]), FieldEntries(schema, op, values)) == Ok(payload) && payload.Obj?
    ensures !failed ==> (denied != [] <==> AnyDenied(schema, op, values))
  {
    payload, denied, failed := Obj(map[]), [], false;
    for i := 0 to |values|
      invariant !failed && payload.Obj?
      invariant Compose(Obj(map[]), FieldEntries(schema, op, values[..i])) == Ok(payload)
      invariant denied != [] <==> AnyDenied(schema, op, values[..i])
    {
      FieldsSnoc(Obj(map[]), schema, op, values, i);
      var fieldKey, value := values[i].key, values[i].value;
      var descriptor := Descriptor(schema.fields, fieldKey);
      if descriptor.None? { continue; }
      if !Writable(descriptor.value, op) {
        denied := denied + [fieldKey];
        continue;
      }
      var written := WriteField(payload, descriptor.value, value);
      if written.Thrown? {
        failed := true;
        FieldErrorStays(Obj(map[]), schema, op, values, i + 1);
        return;
      }
      payload := written.value;
    }
    assert values[..|values|] == values;
  }

  /** What the next supplied value contributes. */
  lemma FieldsSnoc(target: Json, schema: Schema, op: Operation, values: seq<Supplied>, i: nat)
    requires i < |values|
    ensures FieldEntries(schema, op, values[..i + 1]) ==
      FieldEntries(schema, op, values[..i])
        + (if Accepted(schema, op, values[i].key)
           then [Entry(FieldPath(Descriptor(schema.fields, values[i].key).value), values[i].value)] else [])
    ensures Compose(target, FieldEntries(schema, op, values[..i + 1])) ==
      if Accepted(schema, op, values[i].key)
      then Then(Compose(target, FieldEntries(schema, op, values[..i])),
                FieldPath(Descriptor(schema.fields, values[i].key).value), values[i].value)
      else Compose(target, FieldEntries(schema, op, values[..i]))
    ensures AnyDenied(schema, op, values[..i + 1]) <==> AnyDenied(schema, op, values[..i]) || Denied(schema, op, values[i].key)
  {
    assert values[..i + 1][..i] == values[..i];
    ComposeSnoc(target, FieldEntries(schema, op, values[..i]), FieldEntries(schema, op, values[..i + 1]));
  }

  method MissingRequiredFields(schema: Schema, op: Operation, values: seq<Supplied>) returns (missing: seq<string>)
    ensures missing != [] <==> AnyRequiredMissing(schema, op, values)
    ensures forall key :: key in missing ==> !Supplies(values, key)
  {
    missing := [];
    for i := 0 to |schema.fields|
      invariant missing != [] <==> exists j :: 0 <= j < i && Required(schema.fields[j], op) && !Supplies(values, schema.fields[j].fieldKey)
      invariant forall key :: key in missing ==> !Supplies(values, key)
    {
      if !Required(schema.fields[i], op) { continue; }
      if !Supplies(values, schema.fields[i].fieldKey) { missing := missing + [schema.fields[i].fieldKey]; }
    }
  }

  method ComposeRelations(fields: Json, relations: seq<Relation>, blocks: Record) returns (r: Outcome<Json>, missing: seq<string>)
    ensures r == Compose(fields, RelationEntries(relations, blocks))
    ensures r.Ok? ==> (missing != [] <==> exists i :: 0 <= i < |relations| && relations[i].required && !HasBlock(blocks, relations[i].key))
  {
    var payload := fields;
    missing := [];
    for i := 0 to |relations|
      invariant Compose(fields, RelationEntries(relations[..i], blocks)) == Ok(payload)
      invariant missing != [] <==> exists j :: 0 <= j < i && relations[j].required && !HasBlock(blocks, relations[j].key)
    {
      assert relations[..i + 1][..i] == relations[..i];
      ComposeSnoc(fields, RelationEntries(relations[..i], blocks), RelationEntries(relations[..i + 1], blocks));
      var rel := relations[i];
      if HasBlock(blocks, rel.key) {
        var written := SetValueAtPath(payload, RelationPath(rel), blocks[rel.key]);
        if written.Thrown? {
          RelationErrorStays(fields, relations, blocks, i + 1);
          SetErrors(payload, RelationPath(rel), blocks[rel.key]);
          return written, missing;
        }
        payload := written.value;
      } else if rel.required {
        missing := missing + [rel.key];
      }
    }
    assert relations[..|relations|] == relations;
    r := Ok(payload);
  }

  method ComposeRuntimeSubmitPayload(schema: Option<Schema>, op: Operation, values: seq<Supplied>, blocks: Record)
    returns (r: Outcome<Json>)
    ensures r == SubmitPayload(schema, op, values, blocks)
  {
    if schema.None? { return Thrown(SchemaNotFound); }
    var fields, denied, failed := ComposeFields(schema.value, op, values);
    if failed { return Thrown(TypeError); }
    var missing := MissingRequiredFields(schema.value, op, values);
    if |denied| > 0 { return Thrown(FieldForbidden); }
    if |missing| > 0 { return Thrown(RequiredFieldMissing); }
    var payload, missingRelations := ComposeRelations(fields, schema.value.relations, blocks);
    if payload.Thrown? { return payload; }
    if |missingRelations| > 0 { return Thrown(RequiredRelationMissing); }
    r := payload;
  }

  // ----- what a composed payload holds -----

  ghost predicate PairwiseCompatible(entries: seq<Entry>) {
    forall i, j :: 0 <= i < |entries| && 0 <= j < |entries| && i != j ==> Compatible(entries[i].path, entries[j].path)
  }

  /** No entry starts with an index. */
  ghost predicate Rooted(entries: seq<Entry>) {
    forall i :: 0 <= i < |entries| ==> entries[i].path != [] && entries[i].path[0].Key?
  }

  /** Writes at compatible paths leave a further path as it was, and with room for its write. */
  lemma {:induction false} ComposeFrame(target: Json, entries: seq<Entry>, q: Path)
    requires forall i :: 0 <= i < |entries| ==> Compatible(entries[i].path, q)
    requires Fits(target, q) && Compose(target, entries).Ok?
    ensures Fits(Compose(target, entries).value, q)
    ensures Lookup(Compose(target, entries).value, q) == Lookup(target, q)
  {
    if entries != [] {
      var init, last := entries[..|entries| - 1], entries[|entries| - 1];
      ComposeFrame(target, init, q);
      CompatibleIsIncomparable(last.path, q);
      SetKeepsFit(Compose(target, init).value, last.path, last.value, q);
      SetFrame(Compose(target, init).value, last.path, last.value, q);
    }
  }

  /** Compatible entries all fit, and each is found at its path afterwards. */
  lemma {:induction false} ComposeHolds(target: Json, entries: seq<Entry>)
    requires PairwiseCompatible(entries)
    requires forall i :: 0 <= i < |entries| ==> Fits(target, entries[i].path) && entries[i].value != Undefined
    ensures Compose(target, entries).Ok?
    ensures forall i :: 0 <= i < |entries| ==> Lookup(Compose(target, entries).value, entries[i].path) == entries[i].value
  {
    if entries != [] {
      var init, last := entries[..|entries| - 1], entries[|entries| - 1];
      ComposeHolds(target, init);
      var before := Compose(target, init).value;
      ComposeFrame(target, init, last.path);
      FitsSucceeds(before, last.path, last.value);
      GetAfterSetIff(before, last.path, last.value);
      forall i | 0 <= i < |init| ensures Lookup(Compose(target, entries).value, entries[i].path) == entries[i].value {
        CompatibleIsIncomparable(last.path, entries[i].path);
        SetFrame(before, last.path, last.value, entries[i].path);
      }
    }
  }

  lemma RootedFits(path: Path)
    requires path != [] && path[0].Key?
    ensures Fits(Obj(map[]), path)
  {
    ContainerFits(path);
  }

  // ----- order does not matter -----

  /** Moving the last of compatible entries to position `k`. */
  function Moved(entries: seq<Entry>, k: nat): seq<Entry>
    requires k < |entries|
  {
    entries[..k] + entries[k + 1..] + [entries[k]]
  }

  lemma {:induction false} ComposeMoved(target: Json, entries: seq<Entry>, k: nat)
    requires k < |entries| && PairwiseCompatible(entries)
    ensures Compose(target, Moved(entries, k)) == Compose(target, entries)
    decreases |entries|
  {
    var n := |entries| - 1;
    var init, last := entries[..n], entries[n];
    if k == n {
      assert Moved(entries, k) == entries;
    } else {
      var moved := Moved(init, k);
      ComposeMoved(target, init, k);
      var rest := entries[..k] + entries[k + 1..n];
      assert moved == rest + [entries[k]];
      assert Moved(entries, k)[..n] == rest + [last];
      ThenCommutes(Compose(target, rest), entries[k], last);
      assert Compose(target, moved) == Then(Compose(target, rest), entries[k].path, entries[k].value) by {
        assert moved[..|rest|] == rest;
      }
      assert Compose(target, rest + [last]) == Then(Compose(target, rest), last.path, last.value) by {
        assert (rest + [last])[..|rest|] == rest;
      }
    }
  }

  lemma ThenCommutes(target: Outcome<Json>, a: Entry, b: Entry)
    requires Compatible(a.path, b.path)
    ensures Then(Then(target, a.path, a.value), b.path, b.value) == Then(Then(target, b.path, b.value), a.path, a.value)
  {
    if target.Ok? { SetCommutes(target.value, a.path, a.value, b.path, b.value); }
  }

  lemma CompatibleParts(entries: seq<Entry>, k: nat)
    requires k < |entries| && PairwiseCompatible(entries)
    ensures PairwiseCompatible(entries[..k] + entries[k + 1..])
  {
    var rest := entries[..k] + entries[k + 1..];
    forall i, j | 0 <= i < |rest| && 0 <= j < |rest| && i != j ensures Compatible(rest[i].path, rest[j].path) {
      var i', j' := if i < k then i else i + 1, if j < k then j else j + 1;
      assert rest[i] == entries[i'] && rest[j] == entries[j'];
    }
  }

  /** The order in which compatible entries are written does not matter, on any target. */
  lemma {:induction false} ComposePermuted(target: Json, xs: seq<Entry>, ys: seq<Entry>)
    requires multiset(xs) == multiset(ys) && PairwiseCompatible(xs)
    ensures Compose(target, xs) == Compose(target, ys)
    decreases |ys|
  {
    if ys == [] {
      NothingPermuted(xs, ys);
    } else {
      var n := |ys| - 1;
      var k := LastPermuted(xs, ys);
      var rest := xs[..k] + xs[k + 1..];
      CompatibleParts(xs, k);
      ComposePermuted(target, rest, ys[..n]);
      ComposeMoved(target, xs, k);
      assert Moved(xs, k)[..|xs| - 1] == rest;
    }
  }

  // ----- when a submission succeeds -----

  /** All the writes of a submission, in order. */
  function Entries(schema: Schema, op: Operation, values: seq<Supplied>, blocks: Record): seq<Entry> {
    FieldEntries(schema, op, values) + RelationEntries(schema.relations, blocks)
  }

  lemma {:induction false} ComposeAppend(target: Json, a: seq<Entry>, b: seq<Entry>)
    requires Compose(target, a).Ok?
    ensures Compose(target, a + b) == Compose(Compose(target, a).value, b)
    decreases |b|
  {
    if b == [] {
      assert a + b == a;
    } else {
      assert (a + b)[..|a + b| - 1] == a + b[..|b| - 1];
      ComposeAppend(target, a, b[..|b| - 1]);
    }
  }

  lemma {:induction false} ComposePrefix(target: Json, a: seq<Entry>, b: seq<Entry>)
    requires Compose(target, a + b).Ok?
    ensures Compose(target, a).Ok?
    decreases |b|
  {
    if b == [] {
      assert a + b == a;
    } else {
      assert (a + b)[..|a + b| - 1] == a + b[..|b| - 1];
      ComposePrefix(target, a, b[..|b| - 1]);
    }
  }

  /** What the entries leave behind, written one after another; a write that throws adds nothing. */
  function Written(target: Json, entries: seq<Entry>): Json {
    if entries == [] then target
    else
      var before := Written(target, entries[..|entries| - 1]);
      var r := SetAt(before, entries[|entries| - 1].path, entries[|entries| - 1].value);
      if r.Ok? then r.value else before
  }

  /** Entry `i` leads through a primitive that the entries before it have left on its path. */
  predicate MeetsAt(target: Json, entries: seq<Entry>, i: nat)
    requires i < |entries|
  {
    MeetsPrimitive(Written(target, entries[..i]), entries[i].path)
  }

  /** A composition succeeds exactly when no entry meets a primitive. */
  lemma {:induction false} ComposeSucceedsIff(target: Json, entries: seq<Entry>)
    ensures Compose(target, entries).Ok? <==> forall i :: 0 <= i < |entries| ==> !MeetsAt(target, entries, i)
    ensures Compose(target, entries).Ok? ==> Compose(target, entries).value == Written(target, entries)
  {
    if entries != [] {
      var n := |entries| - 1;
      var init := entries[..n];
      ComposeSucceedsIff(target, init);
      forall i | 0 <= i < n ensures MeetsAt(target, entries, i) <==> MeetsAt(target, init, i) {
        assert init[..i] == entries[..i];
      }
      assert MeetsAt(target, entries, n) <==> MeetsPrimitive(Written(target, init), entries[n].path);
      if Compose(target, init).Ok? { SetThrowsIff(Compose(target, init).value, entries[n].path, entries[n].value); }
    }
  }

  /** A primitive found among written entries came with one of them. */
  lemma {:induction false} WrittenOrigin(target: Json, entries: seq<Entry>, q: Path)
    requires Primitive(Lookup(Written(target, entries), q)) && !Primitive(Lookup(target, q))
    ensures exists j :: 0 <= j < |entries| && BringsPrimitive(entries[j], q)
  {
    if entries != [] {
      var init, last := entries[..|entries| - 1], entries[|entries| - 1];
      var before := Written(target, init);
      if Primitive(Lookup(before, q)) {
        WrittenOrigin(target, init, q);
        var j :| 0 <= j < |init| && BringsPrimitive(init[j], q);
        assert entries[j] == init[j];
      } else {
        PrimitiveOrigin(before, last.path, last.value, q);
        assert BringsPrimitive(entries[|entries| - 1], q);
      }
    }
  }

  predicate BringsPrimitive(e: Entry, q: Path) {
    e.path <= q && Primitive(Lookup(e.value, q[|e.path|..]))
  }

  /** A write below a name can only fail inside the value of an earlier entry that it leads
      through, and that value holds a primitive there. */
  lemma FailureHasItsCause(entries: seq<Entry>, i: nat)
    requires i < |entries| && MeetsAt(Obj(map[]), entries, i)
    ensures exists j, k :: 0 <= j < i && |entries[j].path| <= k < |entries[i].path| && BringsPrimitive(entries[j], entries[i].path[..k])
  {
    var q := entries[i].path;
    var payload := Written(Obj(map[]), entries[..i]);
    var k :| 0 <= k < |q| && MeetsPrimitiveAt(payload, q, k);
    MissingEqualsContainer(Undefined, Key(""), q[..k]);
    WrittenIsObject(entries[..i]);
    WrittenOrigin(Obj(map[]), entries[..i], q[..k]);
    var j :| 0 <= j < i && BringsPrimitive(entries[..i][j], q[..k]);
    assert BringsPrimitive(entries[j], q[..k]);
  }

  lemma {:induction false} WrittenIsObject(entries: seq<Entry>)
    ensures Written(Obj(map[]), entries).Obj?
  {
    if entries != [] {
      WrittenIsObject(entries[..|entries| - 1]);
      var before := Written(Obj(map[]), entries[..|entries| - 1]);
      var r := SetAt(before, entries[|entries| - 1].path, entries[|entries| - 1].value);
      if r.Ok? { SetKeepsObject(before, entries[|entries| - 1].path, entries[|entries| - 1].value); }
    }
  }

  /** Success, exactly: a schema, no known supplied field non-writable, no required field left
      out, every inline_required relation with a block, and no write that leads through a
      primitive left by the writes before it. */
  lemma SubmitSucceedsIff(schema: Schema, op: Operation, values: seq<Supplied>, blocks: Record)
    ensures var entries := Entries(schema, op, values, blocks);
      SubmitPayload(Some(schema), op, values, blocks).Ok? <==>
      (&& (forall i :: 0 <= i < |values| ==> Descriptor(schema.fields, values[i].key).None? || Accepted(schema, op, values[i].key))
       && (forall i :: 0 <= i < |schema.fields| && Required(schema.fields[i], op) ==> Supplies(values, schema.fields[i].fieldKey))
       && (forall i :: 0 <= i < |schema.relations| && schema.relations[i].required ==> HasBlock(blocks, schema.relations[i].key))
       && (forall i :: 0 <= i < |entries| ==> !MeetsAt(Obj(map[]), entries, i)))
    ensures SubmitPayload(Some(schema), op, values, blocks).Ok? ==>
      SubmitPayload(Some(schema), op, values, blocks).value == Written(Obj(map[]), Entries(schema, op, values, blocks))
  {
    SubmitWithoutErrors(schema, op, values, blocks);
    ComposeSucceedsIff(Obj(map[]), Entries(schema, op, values, blocks));
  }

  lemma SubmitWithoutErrors(schema: Schema, op: Operation, values: seq<Supplied>, blocks: Record)
    ensures SubmitPayload(Some(schema), op, values, blocks).Ok? <==>
      (&& !AnyDenied(schema, op, values) && !AnyRequiredMissing(schema, op, values) && !AnyBlockMissing(schema, blocks)
       && Compose(Obj(map[]), Entries(schema, op, values, blocks)).Ok?)
    ensures SubmitPayload(Some(schema), op, values, blocks).Ok? ==>
      SubmitPayload(Some(schema), op, values, blocks) == Compose(Obj(map[]), Entries(schema, op, values, blocks))
  {
    var a, b := FieldEntries(schema, op, values), RelationEntries(schema.relations, blocks);
    if Compose(Obj(map[]), a + b).Ok? { ComposePrefix(Obj(map[]), a, b); }
    if Compose(Obj(map[]), a).Ok? { ComposeAppend(Obj(map[]), a, b); }
  }

  /** The failing input: field `x` set to a number, then field `y` stored at `x.y`. */
  lemma {:induction false} TypeErrorExample(schema: Schema, n: int, v: Json)
    requires schema.fields ==
      [FieldDescriptor("x", None, None, None, None, None), FieldDescriptor("y", None, None, None, None, Some("x.y"))]
    ensures SubmitPayload(Some(schema), CreateOp, [Supplied("x", Num(n)), Supplied("y", v)], map[]) == Thrown(TypeError)
  {
    var x, y := schema.fields[0], schema.fields[1];
    assert FieldPath(x) == [Key("x")];
    assert FieldPath(y) == [Key("x"), Key("y")] by { TwoNames(); }
    TwoFields(schema, CreateOp, x, y, [Supplied("x", Num(n)), Supplied("y", v)]);
    WriteThroughNumber(n, v);
  }

  /** Two accepted values, each for its own field, are written in order. */
  lemma {:induction false} TwoFields(schema: Schema, op: Operation, x: FieldDescriptor, y: FieldDescriptor, values: seq<Supplied>)
    requires schema.fields == [x, y] && x.fieldKey != y.fieldKey && Writable(x, op) && Writable(y, op)
    requires |values| == 2 && values[0].key == x.fieldKey && values[1].key == y.fieldKey
    ensures Compose(Obj(map[]), FieldEntries(schema, op, values))
         == Then(SetAt(Obj(map[]), FieldPath(x), values[0].value), FieldPath(y), values[1].value)
  {
    DescribedBy(schema.fields, x, y);
    FieldsSnoc(Obj(map[]), schema, op, values, 0);
    FieldsSnoc(Obj(map[]), schema, op, values, 1);
    assert values[..2] == values && values[..0] == [];
  }

  lemma {:induction false} DescribedBy(fields: seq<FieldDescriptor>, x: FieldDescriptor, y: FieldDescriptor)
    requires fields == [x, y] && x.fieldKey != y.fieldKey
    ensures Descriptor(fields, x.fieldKey) == Some(x) && Descriptor(fields, y.fieldKey) == Some(y)
  {
    assert fields[..1] == [x];
    assert Descriptor([x], x.fieldKey) == Some(x);
  }

  lemma TwoNames()
    ensures Given(Some("x.y")) == Some("x.y") && PathText.Parse("x.y") == [Key("x"), Key("y")]
  {
    var path := [Key("x"), Key("y")];
    assert PathText.Render(path[1..]) == "y";
    assert PathText.Render(path) == "x" + "." + "y" == "x.y";
    PathText.RenderParses(path);
  }

  lemma WriteThroughNumber(n: int, v: Json)
    ensures Then(SetAt(Obj(map[]), [Key("x")], Num(n)), [Key("x"), Key("y")], v) == Thrown(TypeError)
  {
    var p, q := [Key("x")], [Key("x"), Key("y")];
    assert p < q && q[1..] == [Key("y")] && q[1..][..0] == [];
    assert MeetsPrimitiveAt(Num(n), q[1..], 0);
    SecondThrowsIff(p, Num(n), q, v);
    SetErrors(SetAt(Obj(map[]), p, Num(n)).value, q, v);
  }

  /** A schema whose accepted paths are compatible never fails on a write, and the payload
      holds every accepted field and every relation block at its path. */
  lemma PayloadHoldsEverything(schema: Schema, op: Operation, values: seq<Supplied>, blocks: Record)
    requires var entries := Entries(schema, op, values, blocks);
      PairwiseCompatible(entries) && Rooted(entries) && forall i :: 0 <= i < |entries| ==> entries[i].value != Undefined
    ensures var entries := Entries(schema, op, values, blocks);
      && Compose(Obj(map[]), entries).Ok?
      && (SubmitPayload(Some(schema), op, values, blocks).Ok? ==>
           forall i :: 0 <= i < |entries| ==>
             Lookup(SubmitPayload(Some(schema), op, values, blocks).value, entries[i].path) == entries[i].value)
  {
    var entries := Entries(schema, op, values, blocks);
    forall i | 0 <= i < |entries| ensures Fits(Obj(map[]), entries[i].path) { RootedFits(entries[i].path); }
    ComposeHolds(Obj(map[]), entries);
    SubmitWithoutErrors(schema, op, values, blocks);
  }

  lemma {:induction false} FieldEntriesAppend(schema: Schema, op: Operation, xs: seq<Supplied>, ys: seq<Supplied>)
    ensures FieldEntries(schema, op, xs + ys) == FieldEntries(schema, op, xs) + FieldEntries(schema, op, ys)
    decreases |ys|
  {
    if ys == [] {
      assert xs + ys == xs;
    } else {
      assert (xs + ys)[..|xs + ys| - 1] == xs + ys[..|ys| - 1];
      FieldEntriesAppend(schema, op, xs, ys[..|ys| - 1]);
    }
  }

  lemma {:induction false} FieldEntriesPermuted(schema: Schema, op: Operation, xs: seq<Supplied>, ys: seq<Supplied>)
    requires multiset(xs) == multiset(ys)
    ensures multiset(FieldEntries(schema, op, xs)) == multiset(FieldEntries(schema, op, ys))
    decreases |ys|
  {
    if ys == [] {
      NothingPermuted(xs, ys);
    } else {
      var n := |ys| - 1;
      var k := LastPermuted(xs, ys);
      assert ys == ys[..n] + [ys[n]];
      assert xs == xs[..k] + ([xs[k]] + xs[k + 1..]);
      FieldEntriesPermuted(schema, op, xs[..k] + xs[k + 1..], ys[..n]);
      FieldEntriesAppend(schema, op, xs[..k], [xs[k]] + xs[k + 1..]);
      FieldEntriesAppend(schema, op, [xs[k]], xs[k + 1..]);
      FieldEntriesAppend(schema, op, xs[..k], xs[k + 1..]);
      FieldEntriesAppend(schema, op, ys[..n], [ys[n]]);
    }
  }

  lemma SuppliesPermuted(xs: seq<Supplied>, ys: seq<Supplied>, key: string)
    requires multiset(xs) == multiset(ys) && Supplies(xs, key)
    ensures Supplies(ys, key)
  {
    var i :| 0 <= i < |xs| && xs[i].key == key;
    assert xs[i] in multiset(ys);
    var j :| 0 <= j < |ys| && ys[j] == xs[i];
  }

  lemma DeniedPermuted(schema: Schema, op: Operation, xs: seq<Supplied>, ys: seq<Supplied>)
    requires multiset(xs) == multiset(ys) && AnyDenied(schema, op, xs)
    ensures AnyDenied(schema, op, ys)
  {
    var i :| 0 <= i < |xs| && Denied(schema, op, xs[i].key);
    assert xs[i] in multiset(ys);
    var j :| 0 <= j < |ys| && ys[j] == xs[i];
  }

  /** The order of the supplied entries changes neither the payload nor the error. */
  lemma SubmitIgnoresOrder(schema: Schema, op: Operation, xs: seq<Supplied>, ys: seq<Supplied>, blocks: Record)
    requires multiset(xs) == multiset(ys) && PairwiseCompatible(FieldEntries(schema, op, xs))
    ensures SubmitPayload(Some(schema), op, xs, blocks) == SubmitPayload(Some(schema), op, ys, blocks)
  {
    FieldEntriesPermuted(schema, op, xs, ys);
    ComposePermuted(Obj(map[]), FieldEntries(schema, op, xs), FieldEntries(schema, op, ys));
    if AnyDenied(schema, op, xs) { DeniedPermuted(schema, op, xs, ys); }
    if AnyDenied(schema, op, ys) { DeniedPermuted(schema, op, ys, xs); }
    forall i | 0 <= i < |schema.fields|
      ensures Supplies(xs, schema.fields[i].fieldKey) == Supplies(ys, schema.fields[i].fieldKey)
    {
      if Supplies(xs, schema.fields[i].fieldKey) { SuppliesPermuted(xs, ys, schema.fields[i].fieldKey); }
      if Supplies(ys, schema.fields[i].fieldKey) { SuppliesPermuted(ys, xs, schema.fields[i].fieldKey); }
    }
    SubmitDependsOn(schema, op, xs, ys, blocks);
  }

  // ----- unknown keys, and fields nobody can supply -----

  /** The supplied values with a descriptor. */
  function Known(schema: Schema, values: seq<Supplied>): (known: seq<Supplied>)
    ensures forall v :: v in known <==> v in values && Descriptor(schema.fields, v.key).Some?
  {
    if values == [] then []
    else
      var init, last := Known(schema, values[..|values| - 1]), values[|values| - 1];
      assert forall v :: v in values <==> v in values[..|values| - 1] || v == last;
      if Descriptor(schema.fields, last.key).Some? then init + [last] else init
  }

  lemma {:induction false} KnownEntries(schema: Schema, op: Operation, values: seq<Supplied>)
    ensures FieldEntries(schema, op, Known(schema, values)) == FieldEntries(schema, op, values)
  {
    if values != [] {
      KnownEntries(schema, op, values[..|values| - 1]);
      var init := Known(schema, values[..|values| - 1]);
      if Descriptor(schema.fields, values[|values| - 1].key).Some? {
        assert (init + [values[|values| - 1]])[..|init|] == init;
      }
    }
  }

  lemma KnownSupplies(schema: Schema, values: seq<Supplied>, key: string)
    requires Descriptor(schema.fields, key).Some?
    ensures Supplies(Known(schema, values), key) <==> Supplies(values, key)
  {
    var known := Known(schema, values);
    if Supplies(values, key) {
      var i :| 0 <= i < |values| && values[i].key == key;
      assert values[i] in known;
    }
    if Supplies(known, key) {
      var i :| 0 <= i < |known| && known[i].key == key;
      assert known[i] in values;
    }
  }

  lemma KnownDenied(schema: Schema, op: Operation, values: seq<Supplied>)
    ensures AnyDenied(schema, op, Known(schema, values)) <==> AnyDenied(schema, op, values)
  {
    var known := Known(schema, values);
    if AnyDenied(schema, op, values) {
      var i :| 0 <= i < |values| && Denied(schema, op, values[i].key);
      assert values[i] in known;
    }
    if AnyDenied(schema, op, known) {
      var i :| 0 <= i < |known| && Denied(schema, op, known[i].key);
      assert known[i] in values;
    }
  }

  /** Unknown keys never reach the payload: dropping them changes nothing at all. */
  lemma UnknownKeysAreIgnored(schema: Schema, op: Operation, values: seq<Supplied>, blocks: Record)
    ensures SubmitPayload(Some(schema), op, Known(schema, values), blocks) == SubmitPayload(Some(schema), op, values, blocks)
  {
    KnownEntries(schema, op, values);
    KnownDenied(schema, op, values);
    KnownRequired(schema, op, values);
    SubmitDependsOn(schema, op, Known(schema, values), values, blocks);
  }

  lemma KnownRequired(schema: Schema, op: Operation, values: seq<Supplied>)
    ensures AnyRequiredMissing(schema, op, Known(schema, values)) <==> AnyRequiredMissing(schema, op, values)
  {
    var known := Known(schema, values);
    forall i | 0 <= i < |schema.fields|
      ensures Supplies(known, schema.fields[i].fieldKey) == Supplies(values, schema.fields[i].fieldKey)
    {
      KnownSupplies(schema, values, schema.fields[i].fieldKey);
    }
  }

  lemma SubmitDependsOn(schema: Schema, op: Operation, xs: seq<Supplied>, ys: seq<Supplied>, blocks: Record)
    requires Compose(Obj(map[]), FieldEntries(schema, op, xs)) == Compose(Obj(map[]), FieldEntries(schema, op, ys))
    requires AnyDenied(schema, op, xs) <==> AnyDenied(schema, op, ys)
    requires AnyRequiredMissing(schema, op, xs) <==> AnyRequiredMissing(schema, op, ys)
    ensures SubmitPayload(Some(schema), op, xs, blocks) == SubmitPayload(Some(schema), op, ys, blocks)
  {}

  /** A field that is both required and not writable makes every submission fail. */
  lemma RequiredUnwritableAlwaysFails(schema: Schema, op: Operation, values: seq<Supplied>, blocks: Record, i: nat)
    requires i < |schema.fields| && Required(schema.fields[i], op)
    requires Denied(schema, op, schema.fields[i].fieldKey)
    ensures SubmitPayload(Some(schema), op, values, blocks).Thrown?
  {
    if Supplies(values, schema.fields[i].fieldKey) {
      var j :| 0 <= j < |values| && values[j].key == schema.fields[i].fieldKey;
      assert AnyDenied(schema, op, values);
    }
  }
}
