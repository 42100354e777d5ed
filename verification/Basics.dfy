/** Small shared vocabulary: results of operations that may throw, and the row queries
    (filter, order) that every table access of the engine is written with. */
module Basics {

  datatype Option<+T> = None | Some(value: T)

  /** A transaction body that throws rolls back; `Thrown` carries no partial state. */
  datatype Outcome<+T> = Ok(value: T) | Thrown(error: Error)
  {
    predicate IsFailure() { Thrown? }

    function PropagateFailure<U>(): Outcome<U>
      requires Thrown?
    {
      Thrown(error)
    }

    function Extract(): T
      requires Ok?
    {
      value
    }

    function ToOption(): Option<T> {
      if Ok? then Some(value) else None
    }
  }

  datatype Error =
    | UnsupportedSubject
    | TierDisabled
    | HostDataMissing
    | MissingTaskStatus
    | ChildTemplateMissing
    | ConfigInstanceMissing
    | ViewNotFound
    | ScopeTenantMismatch
    | InvalidViewConfig
    | SaveRejected
    | SchemaNotFound
    | EmptyObjectType
    | FieldForbidden
    | RequiredFieldMissing
    | RequiredRelationMissing
    | TypeError

  ghost predicate Increasing(s: seq<nat>) {
    forall i, j :: 0 <= i < j < |s| ==> s[i] < s[j]
  }

  ghost predicate Distinct<T>(s: seq<T>) {
    forall i, j :: 0 <= i < j < |s| ==> s[i] != s[j]
  }

  /** The row ids below `n` that satisfy `where`, in ascending id order. */
  function Select(n: nat, where_: nat -> bool): (ids: seq<nat>)
    ensures forall i: nat :: i in ids <==> i < n && where_(i)
    ensures Increasing(ids)
  {
    if n == 0 then []
    else
      var rest := Select(n - 1, where_);
      assert forall k :: 0 <= k < |rest| ==> rest[k] in rest;
      if where_(n - 1) then rest + [n - 1] else rest
  }

  /** The first row id below `n` that satisfies `where` (a query with LIMIT 1). */
  function FirstWhere(n: nat, where_: nat -> bool): (id: Option<nat>)
    ensures id.Some? ==> id.value < n && where_(id.value) && forall i: nat :: i < id.value ==> !where_(i)
    ensures id.None? ==> forall i: nat :: i < n ==> !where_(i)
  {
    if n == 0 then None
    else
      var earlier := FirstWhere(n - 1, where_);
      if earlier.Some? then earlier
      else if where_(n - 1) then Some(n - 1)
      else None
  }

  ghost predicate SortedBy(s: seq<nat>, key: nat -> int) {
    forall i, j :: 0 <= i < j < |s| ==> key(s[i]) <= key(s[j])
  }

  function InsertBy(x: nat, s: seq<nat>, key: nat -> int): (r: seq<nat>)
    requires SortedBy(s, key)
    ensures |r| == |s| + 1
    ensures forall y :: y in r <==> y == x || y in s
    ensures SortedBy(r, key)
  {
    if s == [] then [x]
    else if key(x) <= key(s[0]) then [x] + s
    else
      var rest := InsertBy(x, s[1..], key);
      assert forall y :: y in s <==> y == s[0] || y in s[1..];
      assert forall i :: 0 <= i < |rest| ==> key(s[0]) <= key(rest[i]) by {
        assert forall i :: 0 <= i < |rest| ==> rest[i] in rest;
      }
      [s[0]] + rest
  }

  /** ORDER BY `key` ASC; rows with equal keys keep their relative order. */
  function SortBy(s: seq<nat>, key: nat -> int): (r: seq<nat>)
    ensures |r| == |s|
    ensures forall y :: y in r <==> y in s
    ensures SortedBy(r, key)
  {
    if s == [] then []
    else
      assert forall y :: y in s <==> y == s[0] || y in s[1..];
      InsertBy(s[0], SortBy(s[1..], key), key)
  }

  lemma IncreasingIsDistinct(s: seq<nat>)
    requires Increasing(s)
    ensures Distinct(s)
  {}

  lemma {:induction false} InsertKeepsDistinct(x: nat, s: seq<nat>, key: nat -> int)
    requires SortedBy(s, key) && Distinct(s) && x !in s
    ensures Distinct(InsertBy(x, s, key))
  {
    if s != [] && key(x) > key(s[0]) {
      InsertKeepsDistinct(x, s[1..], key);
      assert s[0] !in s[1..];
    }
  }

  lemma {:induction false} SortKeepsDistinct(s: seq<nat>, key: nat -> int)
    requires Distinct(s)
    ensures Distinct(SortBy(s, key))
  {
    if s != [] {
      SortKeepsDistinct(s[1..], key);
      assert s[0] !in s[1..];
      InsertKeepsDistinct(s[0], SortBy(s[1..], key), key);
    }
  }

  /** Position of `x` in a list that holds it. */
  function IndexOf(s: seq<nat>, x: nat): (i: nat)
    requires x in s
    ensures i < |s| && s[i] == x
  {
    if s[0] == x then 0 else 1 + IndexOf(s[1..], x)
  }

  // ----- permutations -----

  lemma NothingPermuted<T>(xs: seq<T>, ys: seq<T>)
    requires multiset(xs) == multiset(ys) && ys == []
    ensures xs == []
  {
    assert |xs| == |multiset(xs)|;
  }

  /** Where the last element of a permutation sits, and that the rest is a permutation too. */
  lemma LastPermuted<T>(xs: seq<T>, ys: seq<T>) returns (k: nat)
    requires multiset(xs) == multiset(ys) && ys != []
    ensures k < |xs| && xs[k] == ys[|ys| - 1]
    ensures multiset(xs[..k] + xs[k + 1..]) == multiset(ys[..|ys| - 1])
  {
    var n := |ys| - 1;
    assert ys == ys[..n] + [ys[n]];
    assert ys[n] in multiset(xs);
    k :| 0 <= k < |xs| && xs[k] == ys[n];
    assert xs == xs[..k] + [xs[k]] + xs[k + 1..];
    assert multiset(xs[..k] + xs[k + 1..]) == multiset(xs) - multiset{xs[k]};
    assert multiset(ys[..n]) == multiset(ys) - multiset{ys[n]};
  }
}
