/** Writing a value at a dotted path of a nested payload (`setValueAtPath`). */
module Paths {
  import opened Basics
  import opened Json

  /** A canonical array index, or any other property name. */
  datatype Segment = Key(name: string) | Index(at: nat)

  type Path = seq<Segment>

  /** The container created for a missing value, chosen by the next segment. */
  function Container(next: Segment): Json {
    if next.Index? then Arr([], map[]) else Obj(map[])
  }

  predicate Missing(v: Json) { v.Undefined? || v.Null? }

  /** Can a value be stored in `cursor` under `seg`? Indexes need an array; names are also
      accepted by arrays, as non-index properties. */
  predicate Accepts(cursor: Json, seg: Segment) {
    cursor.Arr? || (cursor.Obj? && seg.Key?)
  }

  /** Reading one segment, undefined where there is nothing. */
  function Get(cursor: Json, seg: Segment): Json {
    match seg
    case Index(i) => if cursor.Arr? && i < |cursor.items| then cursor.items[i] else Undefined
    case Key(k) =>
      if cursor.Obj? && k in cursor.fields then cursor.fields[k]
      else if cursor.Arr? && k in cursor.named then cursor.named[k]
      else Undefined
  }

  function Lookup(target: Json, path: Path): Json
    decreases |path|
  {
    if path == [] then target else Lookup(Get(target, path[0]), path[1..])
  }

  /** Assigning past the end of an array leaves holes. */
  function PutItem(items: seq<Json>, i: nat, v: Json): (r: seq<Json>)
    ensures |r| == if i < |items| then |items| else i + 1
    ensures forall j :: 0 <= j < |r| ==> r[j] == if j == i then v else if j < |items| then items[j] else Undefined
  {
    if i < |items| then items[i := v]
    else items + seq(i - |items|, j => Undefined) + [v]
  }

  function Put(cursor: Json, seg: Segment, v: Json): (r: Json)
    requires Accepts(cursor, seg)
    ensures r.Obj? == cursor.Obj? && r.Arr? == cursor.Arr?
  {
    match seg
    case Index(i) => cursor.(items := PutItem(cursor.items, i, v))
    case Key(k) => if cursor.Obj? then cursor.(fields := cursor.fields[k := v]) else cursor.(named := cursor.named[k := v])
  }

  /** The value to descend into; missing ones become containers. */
  function Entered(cursor: Json, seg: Segment, next: Segment): Json {
    if Missing(Get(cursor, seg)) then Container(next) else Get(cursor, seg)
  }

  /** An index into something that is not an array ends the write silently; a name on a
      primitive is a TypeError. */
  function SetAt(target: Json, path: Path, v: Json): Outcome<Json>
    decreases |path|
  {
    if path == [] then Ok(target)
    else if !Accepts(target, path[0]) then
      if path[0].Index? then Ok(target) else Thrown(TypeError)
    else if |path| == 1 then Ok(Put(target, path[0], v))
    else
      var child :- SetAt(Entered(target, path[0], path[1]), path[1..], v);
      Ok(Put(target, path[0], child))
  }

  /** Every container on the way accepts its segment. */
  predicate Fits(target: Json, path: Path)
    decreases |path|
  {
    path != [] && Accepts(target, path[0])
    && (|path| > 1 ==> Fits(Entered(target, path[0], path[1]), path[1..]))
  }

  // ----- the descending loop -----

  /** The containers passed on the way down, each accepting its segment. */
  predicate Spine(spine: seq<Json>, path: Path) {
    |spine| <= |path| && forall k :: 0 <= k < |spine| ==> Accepts(spine[k], path[k])
  }

  /** A value written back through the containers above it. */
  function Rebuilt(spine: seq<Json>, path: Path, inner: Json): Json
    requires Spine(spine, path)
  {
    if spine == [] then inner
    else
      var last := |spine| - 1;
      Rebuilt(spine[..last], path, Put(spine[last], path[last], inner))
  }

  function Above(spine: seq<Json>, path: Path, inner: Outcome<Json>): Outcome<Json>
    requires Spine(spine, path)
  {
    var v :- inner;
    Ok(Rebuilt(spine, path, v))
  }

  lemma DescendOne(spine: seq<Json>, path: Path, cursor: Json, v: Json)
    requires Spine(spine, path) && |spine| + 1 < |path| && Accepts(cursor, path[|spine|])
    ensures var i := |spine|;
      && Spine(spine + [cursor], path)
      && Above(spine, path, SetAt(cursor, path[i..], v))
         == Above(spine + [cursor], path, SetAt(Entered(cursor, path[i], path[i + 1]), path[i + 1..], v))
  {
    var i := |spine|;
    assert path[i..][1..] == path[i + 1..];
    assert (spine + [cursor])[..i] == spine;
  }

  /** setValueAtPath: descend to the last segment, creating containers, then assign. */
  method SetValueAtPath(target: Json, path: Path, v: Json) returns (r: Outcome<Json>)
    ensures r == SetAt(target, path, v)
  {
    if path == [] { return Ok(target); }
    var cursor := target;
    var spine: seq<Json> := [];
    assert path[0..] == path;
    for i := 0 to |path| - 1
      invariant |spine| == i && Spine(spine, path)
      invariant SetAt(target, path, v) == Above(spine, path, SetAt(cursor, path[i..], v))
    {
      if path[i].Index? && !cursor.Arr? {
        r := WriteBack(spine, path, cursor);
        return;
      }
      if !Accepts(cursor, path[i]) { return Thrown(TypeError); }
      DescendOne(spine, path, cursor, v);
      spine, cursor := spine + [cursor], Entered(cursor, path[i], path[i + 1]);
    }
    var last := path[|path| - 1];
    if last.Index? && !cursor.Arr? {
      r := WriteBack(spine, path, cursor);
    } else if !Accepts(cursor, last) {
      r := Thrown(TypeError);
    } else {
      r := WriteBack(spine, path, Put(cursor, last, v));
    }
  }

  /** Stands for the references by which the containers above already hold the written one. */
  method WriteBack(spine: seq<Json>, path: Path, inner: Json) returns (r: Outcome<Json>)
    requires Spine(spine, path)
    ensures r == Ok(Rebuilt(spine, path, inner))
  {
    var v := inner;
    var n := |spine|;
    assert spine[..n] == spine;
    while n > 0
      invariant 0 <= n <= |spine| && Spine(spine[..n], path)
      invariant Rebuilt(spine[..n], path, v) == Rebuilt(spine, path, inner)
    {
      n := n - 1;
      assert spine[..n + 1][..n] == spine[..n];
      v := Put(spine[n], path[n], v);
    }
    r := Ok(v);
  }

  // ----- reading back -----

  lemma GetAfterPut(cursor: Json, seg: Segment, v: Json)
    requires Accepts(cursor, seg)
    ensures Get(Put(cursor, seg, v), seg) == v
  {}

  lemma GetOtherAfterPut(cursor: Json, seg: Segment, v: Json, other: Segment)
    requires Accepts(cursor, seg) && other != seg
    ensures Get(Put(cursor, seg, v), other) == Get(cursor, other)
  {}

  lemma {:induction false} LookupMissing(path: Path, target: Json)
    requires Missing(target) && path != []
    ensures Lookup(target, path) == Undefined
    decreases |path|
  {
    if |path| > 1 { LookupMissing(path[1..], Undefined); }
  }

  /** A write either stores its value, to be read back at the same path, or it fits nowhere;
      and then it throws or is lost without a trace. */
  lemma {:induction false} GetAfterSetIff(target: Json, path: Path, v: Json)
    requires path != [] && v != Undefined
    ensures Fits(target, path) <==> SetAt(target, path, v).Ok? && Lookup(SetAt(target, path, v).value, path) == v
    ensures SetAt(target, path, v).Ok? && !Fits(target, path) ==> Lookup(SetAt(target, path, v).value, path) == Undefined
    decreases |path|
  {
    if !Accepts(target, path[0]) {
      if path[0].Index? && |path| > 1 { LookupMissing(path[1..], Undefined); }
    } else if |path| == 1 {
      GetAfterPut(target, path[0], v);
      assert Lookup(v, path[1..]) == v;
    } else {
      var child := SetAt(Entered(target, path[0], path[1]), path[1..], v);
      GetAfterSetIff(Entered(target, path[0], path[1]), path[1..], v);
      if child.Ok? { GetAfterPut(target, path[0], child.value); }
    }
  }

  // ----- when a write throws -----

  predicate Primitive(v: Json) { v.Bool? || v.Num? || v.Str? }

  /** Segment `k` of the path names a property of what is found before it, and that is a
      primitive; or it is the first, and there is no target at all. */
  predicate MeetsPrimitiveAt(target: Json, path: Path, k: nat) {
    k < |path| && path[k].Key? &&
    (Primitive(Lookup(target, path[..k])) || (k == 0 && Missing(target)))
  }

  predicate MeetsPrimitive(target: Json, path: Path) {
    exists k :: 0 <= k < |path| && MeetsPrimitiveAt(target, path, k)
  }

  /** A write throws exactly when a name on its path meets a primitive. */
  lemma {:induction false} SetThrowsIff(target: Json, path: Path, v: Json)
    ensures SetAt(target, path, v).Thrown? <==> MeetsPrimitive(target, path)
    decreases |path|
  {
    if path != [] {
      assert MeetsPrimitiveAt(target, path, 0) <==> path[0].Key? && !Accepts(target, path[0]);
      if |path| > 1 {
        var next := Get(target, path[0]);
        forall k: nat | 0 < k < |path| ensures Lookup(target, path[..k]) == Lookup(next, path[1..][..k - 1]) {
          assert path[..k][1..] == path[1..][..k - 1] && path[..k][0] == path[0];
        }
        if Accepts(target, path[0]) {
          SetThrowsIff(Entered(target, path[0], path[1]), path[1..], v);
          MeetsBelow(target, path);
        } else {
          assert next == Undefined;
          forall k: nat | 0 < k < |path| ensures !MeetsPrimitiveAt(target, path, k) {
            NothingBelow(path[1..][..k - 1]);
          }
        }
      }
    }
  }

  lemma {:induction false} NothingBelow(path: Path)
    ensures Lookup(Undefined, path) == Undefined
    decreases |path|
  {
    if path != [] { NothingBelow(path[1..]); }
  }

  /** Past an accepted first segment, the rest of the path meets what the whole path meets. */
  lemma MeetsBelow(target: Json, path: Path)
    requires |path| > 1 && Accepts(target, path[0])
    ensures MeetsPrimitive(target, path) <==> MeetsPrimitive(Entered(target, path[0], path[1]), path[1..])
  {
    var entered := Entered(target, path[0], path[1]);
    forall k: nat | 0 < k < |path|
      ensures MeetsPrimitiveAt(target, path, k) <==> MeetsPrimitiveAt(entered, path[1..], k - 1)
    {
      assert path[..k][1..] == path[1..][..k - 1] && path[..k][0] == path[0];
      if Missing(Get(target, path[0])) { MissingEqualsContainer(Get(target, path[0]), path[1], path[1..][..k - 1]); }
    }
    if MeetsPrimitive(target, path) {
      var k :| 0 <= k < |path| && MeetsPrimitiveAt(target, path, k);
      assert MeetsPrimitiveAt(entered, path[1..], k - 1);
    }
    if MeetsPrimitive(entered, path[1..]) {
      var k :| 0 <= k < |path[1..]| && MeetsPrimitiveAt(entered, path[1..], k);
      assert MeetsPrimitiveAt(target, path, k + 1);
    }
  }

  /** Neither a missing value nor the container made for it holds a primitive anywhere. */
  lemma MissingEqualsContainer(missing: Json, next: Segment, path: Path)
    requires Missing(missing)
    ensures !Primitive(Lookup(missing, path)) && !Primitive(Lookup(Container(next), path))
  {
    if path != [] {
      LookupMissing(path, missing);
      LookupContainer(next, path);
    }
  }

  // ----- frame -----

  predicate Prefix(p: Path, q: Path) { p <= q }

  predicate Incomparable(p: Path, q: Path) {
    !Prefix(p, q) && !Prefix(q, p)
  }

  lemma IncomparableTail(p: Path, q: Path)
    requires Incomparable(p, q) && p[0] == q[0]
    ensures |p| > 1 && |q| > 1 && Incomparable(p[1..], q[1..])
  {
    assert p == [p[0]] + p[1..] && q == [q[0]] + q[1..];
  }

  lemma {:induction false} LookupContainer(next: Segment, path: Path)
    requires path != []
    ensures Lookup(Container(next), path) == Undefined
    decreases |path|
  {
    if |path| > 1 { LookupMissing(path[1..], Undefined); }
  }

  /** A write changes nothing at paths that are neither above nor below its own. */
  lemma {:induction false} SetFrame(target: Json, p: Path, v: Json, q: Path)
    requires Incomparable(p, q) && SetAt(target, p, v).Ok?
    ensures Lookup(SetAt(target, p, v).value, q) == Lookup(target, q)
    decreases |p|
  {
    if Accepts(target, p[0]) {
      if p[0] != q[0] {
        if |p| == 1 {
          GetOtherAfterPut(target, p[0], v, q[0]);
        } else {
          GetOtherAfterPut(target, p[0], SetAt(Entered(target, p[0], p[1]), p[1..], v).value, q[0]);
        }
      } else {
        IncomparableTail(p, q);
        var entered := Entered(target, p[0], p[1]);
        var child := SetAt(entered, p[1..], v).value;
        GetAfterPut(target, p[0], child);
        SetFrame(entered, p[1..], v, q[1..]);
        if Missing(Get(target, p[0])) {
          LookupContainer(p[1], q[1..]);
          LookupMissing(q[1..], Get(target, p[0]));
        }
      }
    }
  }

  /** A primitive found after a write was there before, or came with the written value. */
  lemma {:induction false} PrimitiveOrigin(target: Json, p: Path, v: Json, q: Path)
    requires SetAt(target, p, v).Ok? && Primitive(Lookup(SetAt(target, p, v).value, q))
    ensures Primitive(Lookup(target, q)) || (p != [] && p <= q && Primitive(Lookup(v, q[|p|..])))
    decreases |p|
  {
    if p != [] && Accepts(target, p[0]) && q != [] {
      if q[0] != p[0] {
        GetOtherAfterPut(target, p[0], Child(target, p, v).value, q[0]);
      } else if |p| == 1 {
        GetAfterPut(target, p[0], v);
        assert p == [p[0]] && p <= q;
      } else {
        OriginBelow(target, p, v, q);
        var entered := Entered(target, p[0], p[1]);
        PrimitiveOrigin(entered, p[1..], v, q[1..]);
        if p[1..] <= q[1..] {
          assert p == [p[0]] + p[1..] && q == [q[0]] + q[1..];
          assert q[1..][|p[1..]|..] == q[|p|..];
        }
      }
    }
  }

  lemma OriginBelow(target: Json, p: Path, v: Json, q: Path)
    requires |p| > 1 && q != [] && p[0] == q[0] && Accepts(target, p[0]) && SetAt(target, p, v).Ok?
    ensures var entered := Entered(target, p[0], p[1]);
      && SetAt(entered, p[1..], v).Ok?
      && Lookup(SetAt(target, p, v).value, q) == Lookup(SetAt(entered, p[1..], v).value, q[1..])
      && (Primitive(Lookup(entered, q[1..])) ==> Primitive(Lookup(target, q)))
  {
    GetAfterPut(target, p[0], Child(target, p, v).value);
    if Missing(Get(target, p[0])) { MissingEqualsContainer(Get(target, p[0]), p[1], q[1..]); }
  }

  // ----- order -----

  /** Neither path is a prefix of the other, and where they part both name a property or both
      index an array. */
  predicate Compatible(p: Path, q: Path) {
    p != [] && q != [] &&
    (if p[0] == q[0] then Compatible(p[1..], q[1..]) else p[0].Key? == q[0].Key?)
  }

  lemma {:induction false} CompatibleSymmetric(p: Path, q: Path)
    requires Compatible(p, q)
    ensures Compatible(q, p)
    decreases |p|
  {
    if p[0] == q[0] { CompatibleSymmetric(p[1..], q[1..]); }
  }

  lemma {:induction false} CompatibleIsIncomparable(p: Path, q: Path)
    requires Compatible(p, q)
    ensures Incomparable(p, q)
    decreases |p|
  {
    if p[0] == q[0] {
      CompatibleIsIncomparable(p[1..], q[1..]);
    }
  }

  lemma PutCommutes(cursor: Json, s1: Segment, x: Json, s2: Segment, y: Json)
    requires s1 != s2 && Accepts(cursor, s1) && Accepts(cursor, s2)
    ensures Put(Put(cursor, s1, x), s2, y) == Put(Put(cursor, s2, y), s1, x)
  {
    if s1.Index? && s2.Index? {
      PutItemsCommute(cursor.items, s1.at, x, s2.at, y);
    } else if s1.Key? && s2.Key? {
      MapCommutes(if cursor.Obj? then cursor.fields else cursor.named, s1.name, x, s2.name, y);
    }
  }

  lemma PutItemsCommute(items: seq<Json>, i: nat, x: Json, j: nat, y: Json)
    requires i != j
    ensures PutItem(PutItem(items, i, x), j, y) == PutItem(PutItem(items, j, y), i, x)
  {}

  lemma MapCommutes(m: map<string, Json>, a: string, x: Json, b: string, y: Json)
    requires a != b
    ensures m[a := x][b := y] == m[b := y][a := x]
  {}

  function Then(target: Outcome<Json>, path: Path, v: Json): Outcome<Json> {
    var t :- target;
    SetAt(t, path, v)
  }

  lemma PutTwice(cursor: Json, seg: Segment, x: Json, y: Json)
    requires Accepts(cursor, seg)
    ensures Put(Put(cursor, seg, x), seg, y) == Put(cursor, seg, y)
  {
    var a, b := Put(Put(cursor, seg, x), seg, y), Put(cursor, seg, y);
    if cursor.Arr? {
      assert a.items == b.items;
      assert a.named == b.named;
    } else {
      assert a.fields == b.fields;
    }
  }

  /** A stored child is never missing once a deeper write went through it. */
  lemma SetKeepsPresent(target: Json, path: Path, v: Json)
    requires !Missing(target) && path != [] && SetAt(target, path, v).Ok?
    ensures !Missing(SetAt(target, path, v).value)
  {}

  lemma ContainerKind(p: Path, q: Path)
    requires Compatible(p, q)
    ensures Container(p[0]) == Container(q[0])
  {}

  /** Two compatible writes commute, as outcomes, on every target. */
  lemma {:induction false} SetCommutes(target: Json, p: Path, v: Json, q: Path, w: Json)
    requires Compatible(p, q)
    ensures Then(SetAt(target, p, v), q, w) == Then(SetAt(target, q, w), p, v)
    decreases |p|
  {
    if p[0] != q[0] {
      SetCommutesApart(target, p, v, q, w);
    } else if Accepts(target, p[0]) {
      CompatibleSymmetric(p, q);
      SetCommutesBelow(target, p, v, q, w);
      SetCommutesBelow(target, q, w, p, v);
      ContainerKind(p[1..], q[1..]);
      SetCommutes(Entered(target, p[0], p[1]), p[1..], v, q[1..], w);
    }
  }

  lemma SetCommutesApart(target: Json, p: Path, v: Json, q: Path, w: Json)
    requires p != [] && q != [] && p[0] != q[0] && p[0].Key? == q[0].Key?
    ensures Then(SetAt(target, p, v), q, w) == Then(SetAt(target, q, w), p, v)
  {
    if Accepts(target, p[0]) {
      ThenElsewhere(target, p, v, q, w);
      ThenElsewhere(target, q, w, p, v);
      var x, y := Child(target, p, v), Child(target, q, w);
      if x.Ok? && y.Ok? { PutCommutes(target, p[0], x.value, q[0], y.value); }
    }
  }

  /** What a write stores under its first segment. */
  function Child(target: Json, path: Path, v: Json): Outcome<Json>
    requires path != []
  {
    if |path| == 1 then Ok(v) else SetAt(Entered(target, path[0], path[1]), path[1..], v)
  }

  lemma ThenElsewhere(target: Json, p: Path, v: Json, q: Path, w: Json)
    requires p != [] && q != [] && p[0] != q[0]
    requires Accepts(target, p[0]) && Accepts(target, q[0])
    ensures var x, y := Child(target, p, v), Child(target, q, w);
      Then(SetAt(target, p, v), q, w) ==
        if x.Ok? && y.Ok? then Ok(Put(Put(target, p[0], x.value), q[0], y.value)) else Thrown(TypeError)
  {
    SetErrors(target, p, v);
    SetErrors(target, q, w);
    SetElsewhere(target, p, v, q, w);
  }

  lemma SetElsewhere(target: Json, p: Path, v: Json, q: Path, w: Json)
    requires p != [] && q != [] && p[0] != q[0]
    requires Accepts(target, p[0]) && Accepts(target, q[0])
    ensures SetAt(target, p, v) == var x := Child(target, p, v); if x.Ok? then Ok(Put(target, p[0], x.value)) else x
    ensures Child(target, p, v).Ok? ==> Child(Put(target, p[0], Child(target, p, v).value), q, w) == Child(target, q, w)
  {
    if Child(target, p, v).Ok? { GetOtherAfterPut(target, p[0], Child(target, p, v).value, q[0]); }
  }

  /** The only error is a TypeError. */
  lemma {:induction false} SetErrors(target: Json, path: Path, v: Json)
    ensures SetAt(target, path, v).Thrown? ==> SetAt(target, path, v).error == TypeError
    decreases |path|
  {
    if path != [] && Accepts(target, path[0]) && |path| > 1 {
      SetErrors(Entered(target, path[0], path[1]), path[1..], v);
    }
  }

  /** Two writes through one child are two writes into that child. */
  lemma SetCommutesBelow(target: Json, p: Path, v: Json, q: Path, w: Json)
    requires Compatible(p, q) && p[0] == q[0] && Accepts(target, p[0])
    ensures |p| > 1 && |q| > 1 && Compatible(p[1..], q[1..])
    ensures var both := Then(SetAt(Entered(target, p[0], p[1]), p[1..], v), q[1..], w);
      Then(SetAt(target, p, v), q, w) == if both.Ok? then Ok(Put(target, p[0], both.value)) else Thrown(both.error)
  {
    var entered := Entered(target, p[0], p[1]);
    var child := SetAt(entered, p[1..], v);
    if child.Ok? {
      GetAfterPut(target, p[0], child.value);
      SetKeepsPresent(entered, p[1..], v);
      assert Entered(Put(target, p[0], child.value), q[0], q[1]) == child.value;
      var last := SetAt(child.value, q[1..], w);
      if last.Ok? { PutTwice(target, p[0], child.value, last.value); }
    }
  }

  // ----- shapes -----

  lemma {:induction false} FitsSucceeds(target: Json, path: Path, v: Json)
    requires Fits(target, path)
    ensures SetAt(target, path, v).Ok?
    decreases |path|
  {
    if |path| > 1 { FitsSucceeds(Entered(target, path[0], path[1]), path[1..], v); }
  }

  lemma {:induction false} ContainerFits(path: Path)
    requires path != []
    ensures Fits(Container(path[0]), path)
    decreases |path|
  {
    if |path| > 1 {
      assert Entered(Container(path[0]), path[0], path[1]) == Container(path[1]);
      ContainerFits(path[1..]);
    }
  }

  /** A compatible write leaves room for the other path. */
  lemma {:induction false} SetKeepsFit(target: Json, p: Path, v: Json, q: Path)
    requires Compatible(p, q) && Fits(target, q) && SetAt(target, p, v).Ok?
    ensures Fits(SetAt(target, p, v).value, q)
    decreases |p|
  {
    if Accepts(target, p[0]) {
      if p[0] != q[0] {
        var x := if |p| == 1 then v else SetAt(Entered(target, p[0], p[1]), p[1..], v).value;
        GetOtherAfterPut(target, p[0], x, q[0]);
      } else {
        ContainerKind(p[1..], q[1..]);
        var entered := Entered(target, p[0], p[1]);
        var child := SetAt(entered, p[1..], v).value;
        GetAfterPut(target, p[0], child);
        SetKeepsPresent(entered, p[1..], v);
        SetKeepsFit(entered, p[1..], v, q[1..]);
      }
    }
  }

  // ----- where order matters -----

  /** Where the paths part, `p` indexes an array and `q` names a property. */
  predicate PartsIntoIndex(p: Path, q: Path) {
    p != [] && q != [] &&
    (if p[0] == q[0] then PartsIntoIndex(p[1..], q[1..]) else p[0].Index? && q[0].Key?)
  }

  lemma {:induction false} PartsOneWay(p: Path, q: Path)
    requires Incomparable(p, q) && !Compatible(p, q)
    ensures PartsIntoIndex(p, q) || PartsIntoIndex(q, p)
    decreases |p|
  {
    if p[0] == q[0] {
      IncomparableTail(p, q);
      PartsOneWay(p[1..], q[1..]);
    }
  }

  /** The name, written first, makes an object of the place where the index needs an array. */
  lemma {:induction false} NameShutsOutIndex(p: Path, q: Path, w: Json)
    requires PartsIntoIndex(p, q)
    ensures SetAt(Container(q[0]), q, w).Ok? && !Fits(SetAt(Container(q[0]), q, w).value, p)
    decreases |p|
  {
    ContainerFits(q);
    FitsSucceeds(Container(q[0]), q, w);
    if p[0] == q[0] {
      NameShutsOutIndex(p[1..], q[1..], w);
      var child := SetAt(Container(q[1]), q[1..], w).value;
      GetAfterPut(Container(q[0]), q[0], child);
      SetKeepsPresent(Container(q[1]), q[1..], w);
      assert SetAt(Container(q[0]), q, w).value == Put(Container(q[0]), q[0], child);
    }
  }

  /** The index, written first, leaves an array, which takes names as well. */
  lemma {:induction false} IndexAdmitsName(p: Path, q: Path, v: Json)
    requires PartsIntoIndex(p, q)
    ensures SetAt(Container(p[0]), p, v).Ok? && Fits(SetAt(Container(p[0]), p, v).value, q)
    decreases |p|
  {
    ContainerFits(p);
    FitsSucceeds(Container(p[0]), p, v);
    if p[0] == q[0] {
      IndexAdmitsName(p[1..], q[1..], v);
      var child := SetAt(Container(p[1]), p[1..], v).value;
      GetAfterPut(Container(p[0]), p[0], child);
      SetKeepsPresent(Container(p[1]), p[1..], v);
      assert SetAt(Container(p[0]), p, v).value == Put(Container(p[0]), p[0], child);
    } else if |q| > 1 {
      ContainerFits(q[1..]);
      GetOtherAfterPut(Container(p[0]), p[0], Child(Container(p[0]), p, v).value, q[0]);
    }
  }

  lemma OrderMatters(p: Path, v: Json, q: Path, w: Json)
    requires PartsIntoIndex(p, q) && Incomparable(p, q)
    requires p[0].Key? && q[0].Key? && v != Undefined && w != Undefined
    ensures Then(SetAt(Obj(map[]), p, v), q, w) != Then(SetAt(Obj(map[]), q, w), p, v)
  {
    NameShutsOutIndex(p, q, w);
    IndexAdmitsName(p, q, v);
    var first, second := SetAt(Obj(map[]), p, v).value, SetAt(Obj(map[]), q, w).value;
    ContainerFits(p);
    GetAfterSetIff(Obj(map[]), p, v);
    FitsSucceeds(first, q, w);
    SetFrame(first, q, w, p);
    GetAfterSetIff(second, p, v);
  }

  // ----- paths above and below each other -----

  /** A write above overrides one below. */
  lemma {:induction false} AboveOverrides(target: Json, p: Path, v: Json, q: Path, w: Json)
    requires p != [] && p <= q && SetAt(target, q, w).Ok?
    ensures SetAt(SetAt(target, q, w).value, p, v) == SetAt(target, p, v)
    decreases |p|
  {
    if Accepts(target, p[0]) {
      if |q| == 1 {
        PutTwice(target, p[0], w, v);
      } else {
        var below := SetAt(Entered(target, q[0], q[1]), q[1..], w).value;
        GetAfterPut(target, q[0], below);
        if |p| == 1 {
          PutTwice(target, p[0], below, v);
        } else {
          assert p[1] == q[1] && p[1..] <= q[1..];
          SetKeepsPresent(Entered(target, q[0], q[1]), q[1..], w);
          AboveOverrides(Entered(target, q[0], q[1]), p[1..], v, q[1..], w);
          var again := SetAt(below, p[1..], v);
          if again.Ok? { PutTwice(target, p[0], below, again.value); }
        }
      }
    }
  }

  /** A write below goes into the value written above. */
  lemma {:induction false} BelowEnters(target: Json, p: Path, v: Json, rest: Path, w: Json)
    requires Fits(target, p) && rest != []
    ensures SetAt(target, p, v).Ok?
    ensures SetAt(SetAt(target, p, v).value, p + rest, w) == Replaced(target, p, SetAt(Opened(v, rest[0]), rest, w))
    decreases |p|
  {
    FitsSucceeds(target, p, v);
    if |p| == 1 {
      assert p == [p[0]];
      ThroughOne(target, p[0], v, rest, w);
    } else {
      var entered := Entered(target, p[0], p[1]);
      BelowEnters(entered, p[1..], v, rest, w);
      BelowStep(target, p, v, rest, w, SetAt(Opened(v, rest[0]), rest, w));
    }
  }

  lemma BelowStep(target: Json, p: Path, v: Json, rest: Path, w: Json, inner: Outcome<Json>)
    requires |p| > 1 && Fits(target, p) && rest != []
    requires var entered := Entered(target, p[0], p[1]);
      && SetAt(entered, p[1..], v).Ok?
      && SetAt(SetAt(entered, p[1..], v).value, p[1..] + rest, w) == Replaced(entered, p[1..], inner)
    ensures SetAt(target, p, v).Ok?
    ensures SetAt(SetAt(target, p, v).value, p + rest, w) == Replaced(target, p, inner)
  {
    StoredBelow(target, p, v);
    ThroughOne(target, p[0], SetAt(Entered(target, p[0], p[1]), p[1..], v).value, p[1..] + rest, w);
    assert p + rest == [p[0]] + (p[1..] + rest);
    ReplacedBelow(target, p, inner);
  }

  /** What a write that fits stores under its first segment is there to be entered again. */
  lemma StoredBelow(target: Json, p: Path, v: Json)
    requires |p| > 1 && Fits(target, p)
    ensures var child := SetAt(Entered(target, p[0], p[1]), p[1..], v);
      && child.Ok? && !Missing(child.value)
      && SetAt(target, p, v) == Ok(Put(target, p[0], child.value))
  {
    FitsSucceeds(Entered(target, p[0], p[1]), p[1..], v);
    SetKeepsPresent(Entered(target, p[0], p[1]), p[1..], v);
  }

  /** A write of a value that may itself have failed. */
  function Replaced(target: Json, p: Path, inner: Outcome<Json>): Outcome<Json> {
    var v :- inner;
    SetAt(target, p, v)
  }

  lemma ReplacedBelow(target: Json, p: Path, inner: Outcome<Json>)
    requires |p| > 1 && Fits(target, p)
    ensures var below := Replaced(Entered(target, p[0], p[1]), p[1..], inner);
      Replaced(target, p, inner) == if below.Ok? then Ok(Put(target, p[0], below.value)) else Thrown(below.error)
  {}

  /** Writing below a value that was just put under one segment. */
  lemma ThroughOne(target: Json, seg: Segment, child: Json, rest: Path, w: Json)
    requires Accepts(target, seg) && rest != []
    ensures var inner := SetAt(Opened(child, rest[0]), rest, w);
      SetAt(Put(target, seg, child), [seg] + rest, w) ==
        if inner.Ok? then Ok(Put(target, seg, inner.value)) else Thrown(inner.error)
  {
    var q := [seg] + rest;
    assert q[1..] == rest && q[1] == rest[0];
    GetAfterPut(target, seg, child);
    var inner := SetAt(Opened(child, rest[0]), rest, w);
    if inner.Ok? { PutTwice(target, seg, child, inner.value); }
  }

  /** A value, or the container made where it is missing. */
  function Opened(v: Json, next: Segment): Json {
    if Missing(v) then Container(next) else v
  }

  /** Writing `w` at `rest` inside `v` leaves `v` as it is. */
  predicate Absorbs(v: Json, rest: Path, w: Json)
    requires rest != []
  {
    SetAt(Opened(v, rest[0]), rest, w) == Ok(v)
  }

  lemma BelowIff(p: Path, v: Json, q: Path, w: Json)
    requires p != [] && p[0].Key? && p < q && v != Undefined
    ensures Then(SetAt(Obj(map[]), p, v), q, w) == Then(SetAt(Obj(map[]), q, w), p, v) <==> Absorbs(v, q[|p|..], w)
  {
    var rest := q[|p|..];
    assert q == p + rest;
    ContainerFits(p);
    ContainerFits(q);
    FitsSucceeds(Obj(map[]), p, v);
    FitsSucceeds(Obj(map[]), q, w);
    AboveOverrides(Obj(map[]), p, v, q, w);
    BelowEnters(Obj(map[]), p, v, rest, w);
    var inner := SetAt(Opened(v, rest[0]), rest, w);
    if inner.Ok? {
      SetKeepsPresent(Opened(v, rest[0]), rest, w);
      FitsSucceeds(Obj(map[]), p, inner.value);
      GetAfterSetIff(Obj(map[]), p, v);
      GetAfterSetIff(Obj(map[]), p, inner.value);
    }
  }

  lemma SameIff(p: Path, v: Json, w: Json)
    requires p != [] && p[0].Key? && v != Undefined && w != Undefined
    ensures Then(SetAt(Obj(map[]), p, v), p, w) == Then(SetAt(Obj(map[]), p, w), p, v) <==> v == w
  {
    ContainerFits(p);
    FitsSucceeds(Obj(map[]), p, v);
    FitsSucceeds(Obj(map[]), p, w);
    AboveOverrides(Obj(map[]), p, w, p, v);
    AboveOverrides(Obj(map[]), p, v, p, w);
    GetAfterSetIff(Obj(map[]), p, v);
    GetAfterSetIff(Obj(map[]), p, w);
  }

  /** From an empty payload, the second of two writes below names throws exactly when it leads
      through the first and meets a primitive inside the first one's value. */
  lemma SecondThrowsIff(p: Path, v: Json, q: Path, w: Json)
    requires p != [] && q != [] && p[0].Key? && q[0].Key?
    ensures Then(SetAt(Obj(map[]), p, v), q, w).Thrown? <==>
      p < q && MeetsPrimitive(Opened(v, q[|p|]), q[|p|..])
  {
    ContainerFits(p);
    FitsSucceeds(Obj(map[]), p, v);
    if p < q {
      assert q == p + q[|p|..];
      BelowEnters(Obj(map[]), p, v, q[|p|..], w);
      SetThrowsIff(Opened(v, q[|p|]), q[|p|..], w);
      var inner := SetAt(Opened(v, q[|p|]), q[|p|..], w);
      if inner.Ok? { FitsSucceeds(Obj(map[]), p, inner.value); }
    } else {
      var first := SetAt(Obj(map[]), p, v).value;
      SetThrowsIff(first, q, w);
      if MeetsPrimitive(first, q) {
        var k :| 0 <= k < |q| && MeetsPrimitiveAt(first, q, k);
        PrimitiveOrigin(Obj(map[]), p, v, q[..k]);
        MissingEqualsContainer(Undefined, q[0], q[..k]);
      }
    }
  }

  /** When do two writes below names give the same result in both orders, from an empty payload?
      Where neither path leads through the other: exactly when they part alike. At one path:
      exactly when the values are equal. Where one leads through the other: exactly when the
      deeper write would leave the other value as it is. */
  predicate OrderFree(p: Path, v: Json, q: Path, w: Json) {
    if p == q then v == w
    else if p < q then Absorbs(v, q[|p|..], w)
    else if q < p then Absorbs(w, p[|q|..], v)
    else Compatible(p, q)
  }

  lemma OrderIrrelevantIff(p: Path, v: Json, q: Path, w: Json)
    requires p != [] && q != [] && p[0].Key? && q[0].Key? && v != Undefined && w != Undefined
    ensures Then(SetAt(Obj(map[]), p, v), q, w) == Then(SetAt(Obj(map[]), q, w), p, v) <==> OrderFree(p, v, q, w)
  {
    if p == q {
      SameIff(p, v, w);
    } else if p < q {
      BelowIff(p, v, q, w);
    } else if q < p {
      BelowIff(q, w, p, v);
    } else if Compatible(p, q) {
      SetCommutes(Obj(map[]), p, v, q, w);
    } else {
      PartsOneWay(p, q);
      if PartsIntoIndex(p, q) { OrderMatters(p, v, q, w); } else { OrderMatters(q, w, p, v); }
    }
  }

  /** The failing inputs: `x` and `x.y` in either order, and `x[0]` beside `x.y`. */
  lemma OrderExamples(v: Json)
    requires v != Undefined
    ensures Then(SetAt(Obj(map[]), [Key("x")], Obj(map[])), [Key("x"), Key("y")], v)
         != Then(SetAt(Obj(map[]), [Key("x"), Key("y")], v), [Key("x")], Obj(map[]))
    ensures Then(SetAt(Obj(map[]), [Key("x"), Index(0)], v), [Key("x"), Key("y")], v)
         != Then(SetAt(Obj(map[]), [Key("x"), Key("y")], v), [Key("x"), Index(0)], v)
  {
    var x, y := Key("x"), Key("y");
    assert [x, y][1..] == [y] && [x, Index(0)][1..] == [Index(0)];
    assert [x, y][..1] == [x];
    assert [x, y][|[x]|..] == [y];
    assert SetAt(Obj(map[]), [y], v) == Ok(Put(Obj(map[]), y, v));
    assert "y" in Put(Obj(map[]), y, v).fields;
    assert !Absorbs(Obj(map[]), [y], v);
    OrderIrrelevantIff([x], Obj(map[]), [x, y], v);
    assert !Compatible([Index(0)], [y]);
    OrderIrrelevantIff([x, Index(0)], v, [x, y], v);
  }
}
