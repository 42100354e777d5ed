/** The outcome of a submission, for each operation, read off the columns of the descriptors. */
module SubmitOutcomes {
  import opened Basics
  import opened Json
  import opened Paths
  import opened Submit
  import PathText

  // ----- the descriptor of a key -----

  /** Descriptor `i` is the one that counts for `key`: the last with that key. */
  predicate Governs(fields: seq<FieldDescriptor>, key: string, i: nat) {
    i < |fields| && fields[i].fieldKey == key && forall j :: i < j < |fields| ==> fields[j].fieldKey != key
  }

  lemma {:induction false} DescriptorGoverns(fields: seq<FieldDescriptor>, key: string)
    ensures forall i: nat :: Governs(fields, key, i) ==> Descriptor(fields, key) == Some(fields[i])
    ensures Descriptor(fields, key).Some? ==> exists i :: 0 <= i < |fields| && Governs(fields, key, i)
    decreases |fields|
  {
    if fields != [] {
      var n := |fields| - 1;
      DescriptorGoverns(fields[..n], key);
      if fields[n].fieldKey == key {
        assert Governs(fields, key, n);
      } else {
        forall i: nat | Governs(fields, key, i) ensures Governs(fields[..n], key, i) {}
        if Descriptor(fields, key).Some? {
          var i :| 0 <= i < n && Governs(fields[..n], key, i);
          assert Governs(fields, key, i);
        }
      }
    }
  }

  // ----- what is written -----

  /** The values of the known fields that `allowed` lets through, each with the path of its
      field, in the order in which they are supplied. */
  function Writes(fields: seq<FieldDescriptor>, values: seq<Supplied>, allowed: FieldDescriptor -> bool): seq<Entry> {
    if values == [] then []
    else
      var init, last := Writes(fields, values[..|values| - 1], allowed), values[|values| - 1];
      var d := Descriptor(fields, last.key);
      if d.Some? && allowed(d.value) then init + [Entry(StoredAt(d.value), last.value)] else init
  }

  /** At the trimmed path of the descriptor, or under its key where that is missing or blank. */
  function StoredAt(d: FieldDescriptor): Path {
    match d.path
    case None => [Key(d.fieldKey)]
    case Some(text) => if PathText.Trim(text) == "" then [Key(d.fieldKey)] else PathText.Parse(PathText.Trim(text))
  }

  /** The supplied blocks of the relations, in the order of the schema. */
  function Blocks(relations: seq<Relation>, blocks: Record): seq<Entry> {
    if relations == [] then []
    else
      var init, last := Blocks(relations[..|relations| - 1], blocks), relations[|relations| - 1];
      if last.key in blocks && blocks[last.key] != Undefined then init + [Entry(BlockAt(last), blocks[last.key])] else init
  }

  function BlockAt(rel: Relation): Path {
    match rel.path
    case None => PathText.Parse(rel.key)
    case Some(text) => if PathText.Trim(text) == "" then PathText.Parse(rel.key) else PathText.Parse(PathText.Trim(text))
  }

  const CREATABLE: FieldDescriptor -> bool := (d: FieldDescriptor) => d.canCreate != Some(false)
  const UPDATABLE: FieldDescriptor -> bool := (d: FieldDescriptor) => d.canUpdate != Some(false)
  const WANTED_ON_CREATE: FieldDescriptor -> bool := (d: FieldDescriptor) => d.requiredOnCreate == Some(true)
  const WANTED_ON_UPDATE: FieldDescriptor -> bool := (d: FieldDescriptor) => d.requiredOnUpdate == Some(true)

  lemma {:induction false} FieldWrites(schema: Schema, op: Operation, values: seq<Supplied>)
    ensures FieldEntries(schema, op, values) ==
      Writes(schema.fields, values, if op.CreateOp? then CREATABLE else UPDATABLE)
    decreases |values|
  {
    if values != [] { FieldWrites(schema, op, values[..|values| - 1]); }
  }

  lemma {:induction false} BlockWrites(relations: seq<Relation>, blocks: Record)
    ensures RelationEntries(relations, blocks) == Blocks(relations, blocks)
    decreases |relations|
  {
    if relations != [] { BlockWrites(relations[..|relations| - 1], blocks); }
  }

  // ----- outcomes -----

  /** Some write is led through a primitive left by the writes before it. */
  predicate Obstructed(entries: seq<Entry>, from: nat) {
    exists i :: from <= i < |entries| && MeetsAt(Obj(map[]), entries, i)
  }

  /** A supplied key is that of a descriptor that `allowed` does not let through. */
  predicate Forbids(fields: seq<FieldDescriptor>, values: seq<Supplied>, allowed: FieldDescriptor -> bool) {
    exists i, d :: 0 <= i < |values| && 0 <= d < |fields| && Governs(fields, values[i].key, d) && !allowed(fields[d])
  }

  predicate Lacking(fields: seq<FieldDescriptor>, values: seq<Supplied>, wanted: FieldDescriptor -> bool) {
    exists d :: 0 <= d < |fields| && wanted(fields[d]) && forall i :: 0 <= i < |values| ==> values[i].key != fields[d].fieldKey
  }

  predicate BlockLacking(relations: seq<Relation>, blocks: Record) {
    exists r :: 0 <= r < |relations| && relations[r].required && (relations[r].key in blocks ==> blocks[relations[r].key] == Undefined)
  }

  /** The first thing that goes wrong, or the payload. */
  function Verdict(schema: Schema, values: seq<Supplied>, blocks: Record,
                   allowed: FieldDescriptor -> bool, wanted: FieldDescriptor -> bool): Outcome<Json>
  {
    var fields := Writes(schema.fields, values, allowed);
    var all := fields + Blocks(schema.relations, blocks);
    if Obstructed(fields, 0) then Thrown(TypeError)
    else if Forbids(schema.fields, values, allowed) then Thrown(FieldForbidden)
    else if Lacking(schema.fields, values, wanted) then Thrown(RequiredFieldMissing)
    else if Obstructed(all, |fields|) then Thrown(TypeError)
    else if BlockLacking(schema.relations, blocks) then Thrown(RequiredRelationMissing)
    else Ok(Written(Obj(map[]), all))
  }

  lemma ForbidsIff(schema: Schema, op: Operation, values: seq<Supplied>)
    ensures AnyDenied(schema, op, values) <==> Forbids(schema.fields, values, if op.CreateOp? then CREATABLE else UPDATABLE)
  {
    var allowed := if op.CreateOp? then CREATABLE else UPDATABLE;
    if i :| 0 <= i < |values| && Denied(schema, op, values[i].key) {
      DescriptorGoverns(schema.fields, values[i].key);
      var d :| 0 <= d < |schema.fields| && Governs(schema.fields, values[i].key, d);
      assert !allowed(schema.fields[d]);
    }
    if i, d :| 0 <= i < |values| && 0 <= d < |schema.fields| && Governs(schema.fields, values[i].key, d) && !allowed(schema.fields[d]) {
      DescriptorGoverns(schema.fields, values[i].key);
      assert Denied(schema, op, values[i].key);
    }
  }

  lemma LackingIff(schema: Schema, op: Operation, values: seq<Supplied>)
    ensures AnyRequiredMissing(schema, op, values) <==>
      Lacking(schema.fields, values, if op.CreateOp? then WANTED_ON_CREATE else WANTED_ON_UPDATE)
  {
    var wanted := if op.CreateOp? then WANTED_ON_CREATE else WANTED_ON_UPDATE;
    forall d | 0 <= d < |schema.fields|
      ensures Required(schema.fields[d], op) == wanted(schema.fields[d])
      ensures Supplies(values, schema.fields[d].fieldKey) <==> exists i :: 0 <= i < |values| && values[i].key == schema.fields[d].fieldKey
    {}
  }

  lemma WritesSucceedIff(fields: seq<Entry>, rest: seq<Entry>)
    ensures Compose(Obj(map[]), fields).Ok? <==> !Obstructed(fields, 0)
    ensures Compose(Obj(map[]), fields).Ok? ==>
      (Compose(Compose(Obj(map[]), fields).value, rest).Ok? <==> !Obstructed(fields + rest, |fields|))
    ensures Compose(Obj(map[]), fields).Ok? && Compose(Compose(Obj(map[]), fields).value, rest).Ok? ==>
      Compose(Compose(Obj(map[]), fields).value, rest).value == Written(Obj(map[]), fields + rest)
  {
    ComposeSucceedsIff(Obj(map[]), fields);
    if Compose(Obj(map[]), fields).Ok? {
      ComposeAppend(Obj(map[]), fields, rest);
      ComposeSucceedsIff(Obj(map[]), fields + rest);
      forall i | 0 <= i < |fields| ensures !MeetsAt(Obj(map[]), fields + rest, i) {
        assert (fields + rest)[..i] == fields[..i] && !MeetsAt(Obj(map[]), fields, i);
      }
    }
  }

  lemma SubmissionDecides(schema: Schema, op: Operation, values: seq<Supplied>, blocks: Record)
    ensures SubmitPayload(Some(schema), op, values, blocks) ==
      if op.CreateOp? then Verdict(schema, values, blocks, CREATABLE, WANTED_ON_CREATE)
      else Verdict(schema, values, blocks, UPDATABLE, WANTED_ON_UPDATE)
  {
    FieldWrites(schema, op, values);
    BlockWrites(schema.relations, blocks);
    var fields, rest := FieldEntries(schema, op, values), RelationEntries(schema.relations, blocks);
    WritesSucceedIff(fields, rest);
    ComposeErrors(Obj(map[]), fields);
    if Compose(Obj(map[]), fields).Ok? { ComposeErrors(Compose(Obj(map[]), fields).value, rest); }
    ForbidsIff(schema, op, values);
    LackingIff(schema, op, values);
  }

  /** A creation looks at canCreate and requiredOnCreate alone: the first thing that goes wrong
      is an obstructed field write, a known field that may not be created, a field required on
      creation and not supplied, an obstructed relation write, or a missing required block. */
  lemma CreationDecides(schema: Schema, values: seq<Supplied>, blocks: Record)
    ensures SubmitPayload(Some(schema), CreateOp, values, blocks) == Verdict(schema, values, blocks, CREATABLE, WANTED_ON_CREATE)
  {
    SubmissionDecides(schema, CreateOp, values, blocks);
  }

  /** An update looks at canUpdate and requiredOnUpdate alone. */
  lemma UpdateDecides(schema: Schema, values: seq<Supplied>, blocks: Record)
    ensures SubmitPayload(Some(schema), UpdateOp, values, blocks) == Verdict(schema, values, blocks, UPDATABLE, WANTED_ON_UPDATE)
  {
    SubmissionDecides(schema, UpdateOp, values, blocks);
  }

  /** A value for a field that may not be created is refused on creation, whatever the field
      says about updates, unless another field's write fails first. */
  lemma CreationRefuses(schema: Schema, values: seq<Supplied>, blocks: Record, i: nat, d: nat)
    requires i < |values| && Governs(schema.fields, values[i].key, d) && schema.fields[d].canCreate == Some(false)
    ensures SubmitPayload(Some(schema), CreateOp, values, blocks) ==
      Thrown(if Obstructed(Writes(schema.fields, values, CREATABLE), 0) then TypeError else FieldForbidden)
  {
    CreationDecides(schema, values, blocks);
    assert !CREATABLE(schema.fields[d]);
  }

  lemma UpdateRefuses(schema: Schema, values: seq<Supplied>, blocks: Record, i: nat, d: nat)
    requires i < |values| && Governs(schema.fields, values[i].key, d) && schema.fields[d].canUpdate == Some(false)
    ensures SubmitPayload(Some(schema), UpdateOp, values, blocks) ==
      Thrown(if Obstructed(Writes(schema.fields, values, UPDATABLE), 0) then TypeError else FieldForbidden)
  {
    UpdateDecides(schema, values, blocks);
    assert !UPDATABLE(schema.fields[d]);
  }
}
