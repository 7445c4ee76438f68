/** The difference of two JSON values: `buildJsonDiff`, whose rows are a patch. Paths are key sequences. */
module JsonDiff {
  import opened Wrappers

  /** Fields of an object in the order of its keys. */
  datatype Json = Null | Bool(b: bool) | Num(n: real) | Str(s: string) | Arr(items: seq<Json>) | Obj(fields: seq<Field>)

  datatype Field = Field(key: string, value: Json)

  /** None stands for undefined: the key is not there. */
  datatype Row = Row(path: seq<string>, oldValue: Option<Json>, newValue: Option<Json>)

  function Lookup(fields: seq<Field>, k: string): (r: Option<Json>)
    ensures r.Some? ==> exists i :: 0 <= i < |fields| && fields[i] == Field(k, r.value)
    ensures r.None? ==> forall i :: 0 <= i < |fields| ==> fields[i].key != k
  {
    if fields == [] then None
    else if fields[0].key == k then
      assert fields[0] == Field(k, fields[0].value);
      Some(fields[0].value)
    else
      var r := Lookup(fields[1..], k);
      assert forall i :: 1 <= i < |fields| ==> fields[i] == fields[1..][i - 1];
      assert forall i :: 0 <= i < |fields| - 1 ==> fields[1..][i] == fields[i + 1];
      r
  }

  // ----- The difference

  function KeysOf(fields: seq<Field>): seq<string> {
    if fields == [] then [] else [fields[0].key] + KeysOf(fields[1..])
  }

  /** `new Set(keys)`: each key once, at its first occurrence; `seen` come before. */
  function Distinct(keys: seq<string>, seen: seq<string>): seq<string>
    decreases |keys|
  {
    if keys == [] then seen
    else Distinct(keys[1..], if keys[0] in seen then seen else seen + [keys[0]])
  }

  function UnionKeys(a: seq<Field>, b: seq<Field>): seq<string> {
    Distinct(KeysOf(a) + KeysOf(b), [])
  }

  function Prefix(k: string, rows: seq<Row>): (r: seq<Row>)
    ensures |r| == |rows|
  {
    seq(|rows|, i requires 0 <= i < |rows| => rows[i].(path := [k] + rows[i].path))
  }

  /** The rows of `walk`, with paths below the values compared. Values that are not both objects are
      compared by their serialisation, which tells them apart exactly when they differ. */
  function Diff(a: Json, b: Json): seq<Row>
    decreases a, 1, 0
  {
    if a.Obj? && b.Obj? then DiffKeys(a, b, UnionKeys(a.fields, b.fields))
    else if a != b then [Row([], Some(a), Some(b))]
    else []
  }

  function DiffKeys(a: Json, b: Json, keys: seq<string>): seq<Row>
    requires a.Obj? && b.Obj?
    decreases a, 0, |keys|
  {
    if keys == [] then []
    else Prefix(keys[0], DiffKey(a, b, keys[0])) + DiffKeys(a, b, keys[1..])
  }

  function DiffKey(a: Json, b: Json, k: string): seq<Row>
    requires a.Obj? && b.Obj?
    decreases a, 0, 0
  {
    match (Lookup(a.fields, k), Lookup(b.fields, k))
    case (None, None) => []
    case (None, Some(y)) => [Row([], None, Some(y))]
    case (Some(x), None) => [Row([], Some(x), None)]
    case (Some(x), Some(y)) => Diff(x, y)
  }

  /** The recursive `walk`, pushing into the shared list of rows. */
  class Walker {
    var rows: seq<Row>

    constructor ()
      ensures rows == []
    {
      rows := [];
    }

    method Walk(a: Json, b: Json, path: seq<string>)
      modifies this
      ensures rows == old(rows) + Below(path, Diff(a, b))
      decreases a, 1
    {
      hide *;
      DiffLeaf(a, b);
      BelowLeaf(path, a, b);
      if !a.Obj? || !b.Obj? {
        if a != b {
          rows := rows + [Row(path, Some(a), Some(b))];
        }
        return;
      }
      var keys := UnionKeys(a.fields, b.fields);
      ghost var done: seq<Row> := [];
      assert [] + DiffKeys(a, b, keys) == DiffKeys(a, b, keys) && keys[0..] == keys;
      for n := 0 to |keys|
        invariant rows == old(rows) + Below(path, done)
        invariant Diff(a, b) == done + DiffKeys(a, b, keys[n..])
      {
        ghost var more := Prefix(keys[n], DiffKey(a, b, keys[n]));
        DiffKeysStep(a, b, keys[n..], done);
        assert keys[n..][1..] == keys[n + 1..];
        WalkKey(a, b, keys[n], path);
        BelowConcat(path, done, more);
        done := done + more;
      }
      DiffKeysStep(a, b, [], done);
    }

    /** The loop body: a key that is missing on one side, or the values at it. */
    method WalkKey(a: Json, b: Json, k: string, path: seq<string>)
      requires a.Obj? && b.Obj?
      modifies this
      ensures rows == old(rows) + Below(path, Prefix(k, DiffKey(a, b, k)))
      decreases a, 0
    {
      BelowPrefix(path, k, DiffKey(a, b, k));
      var x, y := Lookup(a.fields, k), Lookup(b.fields, k);
      if x.None? && y.Some? {
        rows := rows + [Row(path + [k], None, y)];
      } else if x.Some? && y.None? {
        rows := rows + [Row(path + [k], x, None)];
      } else if x.Some? && y.Some? {
        Walk(x.value, y.value, path + [k]);
      }
      assert path + [k] + [] == path + [k];
    }
  }

  lemma DiffLeaf(a: Json, b: Json)
    ensures !a.Obj? || !b.Obj? ==> Diff(a, b) == if a != b then [Row([], Some(a), Some(b))] else []
    ensures a.Obj? && b.Obj? ==> Diff(a, b) == DiffKeys(a, b, UnionKeys(a.fields, b.fields))
  {
    hide DiffKeys, UnionKeys;
  }

  lemma BelowLeaf(path: seq<string>, a: Json, b: Json)
    ensures Below(path, [Row([], Some(a), Some(b))]) == [Row(path, Some(a), Some(b))] && Below(path, []) == []
  {
    assert path + [] == path;
  }

  lemma DiffKeysStep(a: Json, b: Json, keys: seq<string>, done: seq<Row>)
    requires a.Obj? && b.Obj?
    ensures done + DiffKeys(a, b, keys) ==
            if keys == [] then done
            else done + Prefix(keys[0], DiffKey(a, b, keys[0])) + DiffKeys(a, b, keys[1..])
  {
    hide DiffKey;
    if keys != [] {
      var more := Prefix(keys[0], DiffKey(a, b, keys[0]));
      assert done + (more + DiffKeys(a, b, keys[1..])) == done + more + DiffKeys(a, b, keys[1..]);
    }
  }

  /** `buildJsonDiff` */
  method BuildJsonDiff(oldValues: Json, newValues: Json) returns (rows: seq<Row>)
    ensures rows == Diff(oldValues, newValues)
  {
    var w := new Walker();
    w.Walk(oldValues, newValues, []);
    rows := w.rows;
    assert forall i :: 0 <= i < |rows| ==>
           [] + Diff(oldValues, newValues)[i].path == Diff(oldValues, newValues)[i].path;
  }

  /** Rows with their paths put below `path`. */
  function Below(path: seq<string>, rows: seq<Row>): (r: seq<Row>)
    ensures |r| == |rows|
  {
    seq(|rows|, i requires 0 <= i < |rows| => rows[i].(path := path + rows[i].path))
  }

  lemma BelowConcat(path: seq<string>, xs: seq<Row>, ys: seq<Row>)
    ensures Below(path, xs + ys) == Below(path, xs) + Below(path, ys)
  {
  }

  lemma BelowPrefix(path: seq<string>, k: string, rows: seq<Row>)
    ensures Below(path, Prefix(k, rows)) == Below(path + [k], rows)
  {
    forall i | 0 <= i < |rows| ensures Below(path, Prefix(k, rows))[i] == Below(path + [k], rows)[i] {
      assert path + ([k] + rows[i].path) == path + [k] + rows[i].path;
    }
  }

  // ----- Patching

  /** Replaces the first field of the key, or adds one at the end. */
  function Put(fields: seq<Field>, k: string, v: Json): seq<Field> {
    if fields == [] then [Field(k, v)]
    else if fields[0].key == k then [Field(k, v)] + fields[1..]
    else [fields[0]] + Put(fields[1..], k, v)
  }

  function Remove(fields: seq<Field>, k: string): seq<Field> {
    if fields == [] then []
    else (if fields[0].key == k then [] else [fields[0]]) + Remove(fields[1..], k)
  }

  function Update(fields: seq<Field>, k: string, v: Option<Json>): seq<Field> {
    if v.Some? then Put(fields, k, v.value) else Remove(fields, k)
  }

  /** Sets what is at a path; None removes it. */
  function SetAt(x: Option<Json>, path: seq<string>, v: Option<Json>): Option<Json>
    decreases |path|
  {
    if path == [] then v
    else if x.Some? && x.value.Obj? then
      Some(Obj(Update(x.value.fields, path[0], SetAt(Lookup(x.value.fields, path[0]), path[1..], v))))
    else x
  }

  function Get(x: Option<Json>, path: seq<string>): Option<Json>
    decreases |path|
  {
    if path == [] then x
    else if x.Some? && x.value.Obj? then Get(Lookup(x.value.fields, path[0]), path[1..])
    else None
  }

  /** The rows of a difference, applied one after the other. */
  function Patch(x: Option<Json>, rows: seq<Row>): Option<Json>
    decreases |rows|
  {
    if rows == [] then x else Patch(SetAt(x, rows[0].path, rows[0].newValue), rows[1..])
  }

  /** Equal up to the order of the keys of objects outside arrays. */
  predicate Same(a: Json, b: Json)
    decreases a
  {
    if a.Obj? && b.Obj? then
      && (forall i :: 0 <= i < |a.fields| ==> SameAt(a, b, a.fields[i].key))
      && (forall i :: 0 <= i < |b.fields| ==> Lookup(a.fields, b.fields[i].key).Some?)
    else a == b
  }

  predicate SameAt(a: Json, b: Json, k: string)
    requires a.Obj? && b.Obj?
    decreases a, 0
  {
    var x, y := Lookup(a.fields, k), Lookup(b.fields, k);
    (x.None? && y.None?) || (x.Some? && y.Some? && Same(x.value, y.value))
  }

  predicate SameOption(x: Option<Json>, y: Option<Json>) {
    (x.None? && y.None?) || (x.Some? && y.Some? && Same(x.value, y.value))
  }

  // ----- Laws of keys and fields

  lemma {:induction false} KeysOfMembers(fields: seq<Field>, k: string)
    ensures k in KeysOf(fields) <==> Lookup(fields, k).Some?
  {
    if fields != [] {
      KeysOfMembers(fields[1..], k);
    }
  }

  predicate NoDuplicates(keys: seq<string>) {
    forall i, j :: 0 <= i < j < |keys| ==> keys[i] != keys[j]
  }

  lemma {:induction false} DistinctLaws(keys: seq<string>, seen: seq<string>)
    requires NoDuplicates(seen)
    ensures NoDuplicates(Distinct(keys, seen))
    ensures forall k :: k in Distinct(keys, seen) <==> k in keys || k in seen
    decreases |keys|
  {
    if keys != [] {
      DistinctLaws(keys[1..], if keys[0] in seen then seen else seen + [keys[0]]);
      assert forall k :: k in keys <==> k == keys[0] || k in keys[1..];
    }
  }

  lemma UnionKeysLaws(a: seq<Field>, b: seq<Field>)
    ensures NoDuplicates(UnionKeys(a, b))
    ensures forall k :: k in UnionKeys(a, b) <==> Lookup(a, k).Some? || Lookup(b, k).Some?
  {
    DistinctLaws(KeysOf(a) + KeysOf(b), []);
    forall k ensures k in UnionKeys(a, b) <==> Lookup(a, k).Some? || Lookup(b, k).Some? {
      KeysOfMembers(a, k);
      KeysOfMembers(b, k);
    }
  }

  lemma LookupCons(field: Field, rest: seq<Field>, j: string)
    ensures Lookup([field] + rest, j) == if field.key == j then Some(field.value) else Lookup(rest, j)
  {
    assert ([field] + rest)[0] == field && ([field] + rest)[1..] == rest;
  }

  lemma {:induction false} LookupUpdate(fields: seq<Field>, k: string, v: Option<Json>, j: string)
    ensures Lookup(Update(fields, k, v), j) == if j == k then v else Lookup(fields, j)
  {
    hide Lookup;
    if fields == [] {
      LookupNone(j);
      if v.Some? {
        LookupCons(Field(k, v.value), [], j);
        assert [Field(k, v.value)] + [] == [Field(k, v.value)];
      }
    } else {
      var rest := Update(fields[1..], k, v);
      LookupUpdate(fields[1..], k, v, j);
      assert fields == [fields[0]] + fields[1..] && [] + rest == rest;
      LookupCons(fields[0], fields[1..], j);
      LookupCons(fields[0], rest, j);
      if v.Some? {
        LookupCons(Field(k, v.value), fields[1..], j);
      }
    }
  }

  lemma LookupNone(j: string)
    ensures Lookup([], j) == None
  {
  }

  /** The same values at every key. */
  ghost predicate Agree(a: Json, b: Json)
    requires a.Obj? && b.Obj?
  {
    forall k :: SameOption(Lookup(a.fields, k), Lookup(b.fields, k))
  }

  lemma KeyInBoth(a: Json, b: Json, k: string)
    requires a.Obj? && b.Obj? && Same(a, b)
    ensures Lookup(b.fields, k).Some? ==> Lookup(a.fields, k).Some?
  {
    if Lookup(b.fields, k).Some? {
      var i :| 0 <= i < |b.fields| && b.fields[i] == Field(k, Lookup(b.fields, k).value);
      assert Lookup(a.fields, b.fields[i].key).Some?;
    }
  }

  lemma SameIsAgree(a: Json, b: Json)
    requires a.Obj? && b.Obj?
    ensures Same(a, b) <==> Agree(a, b)
  {
    if Same(a, b) {
      forall k ensures SameOption(Lookup(a.fields, k), Lookup(b.fields, k)) {
        KeyInBoth(a, b, k);
        if Lookup(a.fields, k).Some? {
          var i :| 0 <= i < |a.fields| && a.fields[i] == Field(k, Lookup(a.fields, k).value);
          assert SameAt(a, b, a.fields[i].key);
        }
      }
    }
    if Agree(a, b) {
      forall i | 0 <= i < |a.fields| ensures SameAt(a, b, a.fields[i].key) {
        assert SameOption(Lookup(a.fields, a.fields[i].key), Lookup(b.fields, a.fields[i].key));
      }
      forall i | 0 <= i < |b.fields| ensures Lookup(a.fields, b.fields[i].key).Some? {
        assert SameOption(Lookup(a.fields, b.fields[i].key), Lookup(b.fields, b.fields[i].key));
      }
    }
  }

  // ----- The difference is a patch

  lemma {:induction false} PatchConcat(x: Option<Json>, xs: seq<Row>, ys: seq<Row>)
    ensures Patch(x, xs + ys) == Patch(Patch(x, xs), ys)
    decreases |xs|
  {
    if xs == [] {
      assert xs + ys == ys;
    } else {
      assert (xs + ys)[0] == xs[0] && (xs + ys)[1..] == xs[1..] + ys;
      PatchConcat(SetAt(x, xs[0].path, xs[0].newValue), xs[1..], ys);
    }
  }

  /** Rows below one key change that key only, the way they change the value at it. */
  lemma {:induction false} PatchBelowKey(fields: seq<Field>, k: string, rows: seq<Row>)
    ensures var r := Patch(Some(Obj(fields)), Prefix(k, rows));
            && r.Some? && r.value.Obj?
            && forall j ::
                 Lookup(r.value.fields, j) == if j == k then Patch(Lookup(fields, k), rows) else Lookup(fields, j)
    decreases |rows|
  {
    if rows != [] {
      var v := SetAt(Lookup(fields, k), rows[0].path, rows[0].newValue);
      var path := [k] + rows[0].path;
      assert path[0] == k && path[1..] == rows[0].path;
      assert Prefix(k, rows)[1..] == Prefix(k, rows[1..]);
      forall j ensures Lookup(Update(fields, k, v), j) == if j == k then v else Lookup(fields, j) {
        LookupUpdate(fields, k, v, j);
      }
      PatchBelowKey(Update(fields, k, v), k, rows[1..]);
    }
  }

  /** Applying the rows of some keys to fields that agree with `a` on them makes them agree with `b` on them. */
  lemma {:induction false} PatchKeys(fields: seq<Field>, a: Json, b: Json, keys: seq<string>)
    requires a.Obj? && b.Obj? && NoDuplicates(keys)
    requires forall k :: k in keys ==> Lookup(fields, k) == Lookup(a.fields, k)
    ensures var r := Patch(Some(Obj(fields)), DiffKeys(a, b, keys));
            && r.Some? && r.value.Obj?
            && (forall k :: k in keys ==> SameOption(Lookup(r.value.fields, k), Lookup(b.fields, k)))
            && (forall k :: k !in keys ==> Lookup(r.value.fields, k) == Lookup(fields, k))
    decreases a, 0, |keys|
  {
    if keys != [] {
      var k := keys[0];
      var rows := Prefix(k, DiffKey(a, b, k));
      PatchKey(a, b, k);
      PatchBelowKey(fields, k, DiffKey(a, b, k));
      PatchConcat(Some(Obj(fields)), rows, DiffKeys(a, b, keys[1..]));
      var next := Patch(Some(Obj(fields)), rows).value.fields;
      assert forall j :: j in keys <==> j == k || j in keys[1..];
      assert k !in keys[1..];
      PatchKeys(next, a, b, keys[1..]);
    }
  }

  lemma {:induction false} PatchKey(a: Json, b: Json, k: string)
    requires a.Obj? && b.Obj?
    ensures SameOption(Patch(Lookup(a.fields, k), DiffKey(a, b, k)), Lookup(b.fields, k))
    decreases a, 0, 0
  {
    var x, y := Lookup(a.fields, k), Lookup(b.fields, k);
    if x.Some? && y.Some? {
      DiffIsPatch(x.value, y.value);
    } else {
      if y.Some? { SameReflexive(y.value); }
      var rows := DiffKey(a, b, k);
      if rows != [] {
        assert rows[1..] == [] && Patch(y, []) == y;
      }
    }
  }

  lemma {:induction false} SameReflexive(a: Json)
    ensures Same(a, a)
  {
    if a.Obj? {
      forall i | 0 <= i < |a.fields| ensures SameAt(a, a, a.fields[i].key) && Lookup(a.fields, a.fields[i].key).Some? {
        var x := Lookup(a.fields, a.fields[i].key);
        var j :| 0 <= j < |a.fields| && a.fields[j] == Field(a.fields[i].key, x.value);
        SameReflexive(a.fields[j].value);
      }
    }
  }

  /** Applying the rows to the old value gives the new value, up to the order of keys. */
  lemma {:induction false} DiffIsPatch(a: Json, b: Json)
    ensures var r := Patch(Some(a), Diff(a, b)); r.Some? && Same(r.value, b)
    decreases a, 1, 0
  {
    if a.Obj? && b.Obj? {
      var keys := UnionKeys(a.fields, b.fields);
      UnionKeysLaws(a.fields, b.fields);
      PatchKeys(a.fields, a, b, keys);
      var r := Patch(Some(a), Diff(a, b)).value;
      forall k ensures SameOption(Lookup(r.fields, k), Lookup(b.fields, k)) {
        if k !in keys {
          assert Lookup(r.fields, k) == Lookup(a.fields, k);
        }
      }
      SameIsAgree(r, b);
    } else {
      SameReflexive(b);
      if a != b {
        assert Diff(a, b)[1..] == [] && Patch(Some(b), []) == Some(b);
      }
    }
  }

  // ----- What rows say

  lemma {:induction false} NoRowsOfKeys(a: Json, b: Json, keys: seq<string>)
    requires a.Obj? && b.Obj?
    ensures DiffKeys(a, b, keys) == [] <==> forall i :: 0 <= i < |keys| ==> DiffKey(a, b, keys[i]) == []
    decreases |keys|
  {
    if keys != [] {
      NoRowsOfKeys(a, b, keys[1..]);
      assert forall i :: 1 <= i < |keys| ==> keys[i] == keys[1..][i - 1];
    }
  }

  lemma NoRowsIffAgree(a: Json, b: Json)
    requires a.Obj? && b.Obj?
    requires forall k :: DiffKey(a, b, k) == [] <==> SameOption(Lookup(a.fields, k), Lookup(b.fields, k))
    ensures Diff(a, b) == [] <==> Agree(a, b)
  {
    hide DiffKey, SameOption, DiffKeys;
    var keys := UnionKeys(a.fields, b.fields);
    UnionKeysLaws(a.fields, b.fields);
    NoRowsOfKeys(a, b, keys);
    if Diff(a, b) == [] {
      forall k ensures SameOption(Lookup(a.fields, k), Lookup(b.fields, k)) {
        if k in keys {
          var i :| 0 <= i < |keys| && keys[i] == k;
          assert DiffKey(a, b, keys[i]) == [];
        } else {
          NoneSame(Lookup(a.fields, k), Lookup(b.fields, k));
        }
      }
    }
  }

  lemma NoneSame(x: Option<Json>, y: Option<Json>)
    requires x.None? && y.None?
    ensures SameOption(x, y)
  {
  }

  /** There is no row exactly when the values are equal up to the order of keys. */
  lemma {:induction false} NoRowsIffSame(a: Json, b: Json)
    ensures Diff(a, b) == [] <==> Same(a, b)
    decreases a
  {
    if a.Obj? && b.Obj? {
      forall k ensures DiffKey(a, b, k) == [] <==> SameOption(Lookup(a.fields, k), Lookup(b.fields, k)) {
        var x, y := Lookup(a.fields, k), Lookup(b.fields, k);
        if x.Some? && y.Some? {
          NoRowsIffSame(x.value, y.value);
        }
      }
      NoRowsIffAgree(a, b);
      SameIsAgree(a, b);
    }
  }

  /** A row that tells the truth: the old and the new value at its path, and they do differ. */
  predicate IsTrue(x: Option<Json>, y: Option<Json>, row: Row) {
    Get(x, row.path) == row.oldValue && Get(y, row.path) == row.newValue && !SameOption(row.oldValue, row.newValue)
  }

  lemma TrueBelow(a: Json, b: Json, k: string, row: Row)
    requires a.Obj? && b.Obj? && IsTrue(Lookup(a.fields, k), Lookup(b.fields, k), row)
    ensures IsTrue(Some(a), Some(b), row.(path := [k] + row.path))
  {
    hide SameOption, Lookup;
    var path := [k] + row.path;
    assert path[0] == k && path[1..] == row.path;
  }

  lemma {:induction false} RowsOfKeys(a: Json, b: Json, keys: seq<string>, i: nat)
    requires a.Obj? && b.Obj? && i < |DiffKeys(a, b, keys)|
    ensures IsTrue(Some(a), Some(b), DiffKeys(a, b, keys)[i])
    decreases a, 0, |keys|
  {
    hide IsTrue, SameOption, Lookup;
    var k := keys[0];
    var below := DiffKey(a, b, k);
    if i < |below| {
      RowsOfKey(a, b, k, i);
      TrueBelow(a, b, k, below[i]);
    } else {
      RowsOfKeys(a, b, keys[1..], i - |below|);
    }
  }

  lemma {:induction false} RowsOfKey(a: Json, b: Json, k: string, i: nat)
    requires a.Obj? && b.Obj? && i < |DiffKey(a, b, k)|
    ensures IsTrue(Lookup(a.fields, k), Lookup(b.fields, k), DiffKey(a, b, k)[i])
    decreases a, 0, 0
  {
    var x, y := Lookup(a.fields, k), Lookup(b.fields, k);
    if x.Some? && y.Some? {
      hide IsTrue;
      RowsAreTrue(x.value, y.value, i);
    }
  }

  /** Every row reports a real difference, with the values found at its path. */
  lemma {:induction false} RowsAreTrue(a: Json, b: Json, i: nat)
    requires i < |Diff(a, b)|
    ensures IsTrue(Some(a), Some(b), Diff(a, b)[i])
    decreases a, 1, 0
  {
    if a.Obj? && b.Obj? {
      RowsOfKeys(a, b, UnionKeys(a.fields, b.fields), i);
    }
  }

  // ----- Which rows there are

  /** The values part at this path: they are objects all the way down to it, and at it they are not both objects, not
      equal and not both missing. */
  predicate PartAt(x: Option<Json>, y: Option<Json>, path: seq<string>)
    decreases |path|
  {
    var objects := x.Some? && y.Some? && x.value.Obj? && y.value.Obj?;
    if path == [] then !objects && x != y
    else objects && PartAt(Lookup(x.value.fields, path[0]), Lookup(y.value.fields, path[0]), path[1..])
  }

  ghost predicate HasRow(rows: seq<Row>, path: seq<string>) {
    exists i :: 0 <= i < |rows| && rows[i].path == path
  }

  lemma HasRowOfConcat(xs: seq<Row>, ys: seq<Row>, path: seq<string>)
    ensures HasRow(xs + ys, path) <==> HasRow(xs, path) || HasRow(ys, path)
  {
    var all := xs + ys;
    if i :| 0 <= i < |xs| && xs[i].path == path {
      assert all[i].path == path;
    }
    if i :| 0 <= i < |ys| && ys[i].path == path {
      assert all[|xs| + i].path == path;
    }
  }

  lemma HasRowOfPrefix(k: string, rows: seq<Row>, path: seq<string>)
    ensures HasRow(Prefix(k, rows), path) <==> path != [] && path[0] == k && HasRow(rows, path[1..])
  {
    forall i | 0 <= i < |rows|
      ensures Prefix(k, rows)[i].path == path <==> path != [] && path[0] == k && rows[i].path == path[1..]
    {
      assert ([k] + rows[i].path)[0] == k && ([k] + rows[i].path)[1..] == rows[i].path;
      assert path != [] ==> path == [path[0]] + path[1..];
    }
  }

  lemma {:induction false} RowsBelowKeys(a: Json, b: Json, keys: seq<string>, path: seq<string>)
    requires a.Obj? && b.Obj?
    ensures HasRow(DiffKeys(a, b, keys), path) <==>
            path != [] && path[0] in keys && HasRow(DiffKey(a, b, path[0]), path[1..])
    decreases |keys|
  {
    hide HasRow;
    if keys == [] {
      assert DiffKeys(a, b, keys) == [];
      NoRow(path);
    } else {
      var rows := Prefix(keys[0], DiffKey(a, b, keys[0]));
      DiffKeysStep(a, b, keys, []);
      assert [] + rows == rows && [] + DiffKeys(a, b, keys) == DiffKeys(a, b, keys);
      HasRowOfConcat(rows, DiffKeys(a, b, keys[1..]), path);
      HasRowOfPrefix(keys[0], DiffKey(a, b, keys[0]), path);
      RowsBelowKeys(a, b, keys[1..], path);
    }
  }

  lemma NoRow(path: seq<string>)
    ensures !HasRow([], path)
  {
  }

  lemma OneRow(row: Row, path: seq<string>)
    ensures HasRow([row], path) <==> row.path == path
  {
    assert [row][0] == row;
  }

  lemma {:induction false} RowsOfKeyIff(a: Json, b: Json, k: string, path: seq<string>)
    requires a.Obj? && b.Obj?
    ensures HasRow(DiffKey(a, b, k), path) <==> PartAt(Lookup(a.fields, k), Lookup(b.fields, k), path)
    decreases a, 0
  {
    hide HasRow;
    var x, y := Lookup(a.fields, k), Lookup(b.fields, k);
    NoRow(path);
    OneRow(Row([], x, y), path);
    if x.Some? && y.Some? {
      RowsArePartings(x.value, y.value, path);
    }
  }

  /** There is a row exactly for each path at which the values part; so no row reports two objects. */
  lemma {:induction false} RowsArePartings(a: Json, b: Json, path: seq<string>)
    ensures HasRow(Diff(a, b), path) <==> PartAt(Some(a), Some(b), path)
    decreases a, 1
  {
    hide HasRow;
    DiffLeaf(a, b);
    if a.Obj? && b.Obj? {
      var keys := UnionKeys(a.fields, b.fields);
      UnionKeysLaws(a.fields, b.fields);
      RowsBelowKeys(a, b, keys, path);
      if path != [] {
        RowsOfKeyIff(a, b, path[0], path[1..]);
        if path[0] !in keys {
          assert PartAt(None, None, path[1..]) == false;
        }
      }
    } else {
      NoRow(path);
      OneRow(Row([], Some(a), Some(b)), path);
    }
  }

  // ----- In which order

  /** The first `k` comes before any `l`. */
  predicate Earlier(keys: seq<string>, k: string, l: string) {
    exists i :: 0 <= i < |keys| && keys[i] == k && l !in keys[..i + 1]
  }

  /** Where the two paths part, the key of the first comes first: the keys of the old object in its order, then those
      of the new one. */
  predicate InOrder(a: Json, b: Json, p: seq<string>, q: seq<string>)
    decreases |p|
  {
    && a.Obj? && b.Obj? && p != [] && q != []
    && if p[0] == q[0] then
         var x, y := Lookup(a.fields, p[0]), Lookup(b.fields, p[0]);
         x.Some? && y.Some? && InOrder(x.value, y.value, p[1..], q[1..])
       else Earlier(KeysOf(a.fields) + KeysOf(b.fields), p[0], q[0])
  }

  predicate Ordered(all: seq<string>, keys: seq<string>) {
    forall i, j :: 0 <= i < j < |keys| ==> Earlier(all, keys[i], keys[j])
  }

  function FirstIndex(keys: seq<string>, k: string): (n: nat)
    requires k in keys
    ensures n < |keys| && keys[n] == k
  {
    if keys[0] == k then 0 else 1 + FirstIndex(keys[1..], k)
  }

  lemma {:induction false} DistinctKeepsOrder(done: seq<string>, keys: seq<string>, seen: seq<string>)
    requires Ordered(done + keys, seen) && forall k :: k in seen <==> k in done
    ensures Ordered(done + keys, Distinct(keys, seen))
    decreases |keys|
  {
    if keys != [] {
      var all, k := done + keys, keys[0];
      var seen' := if k in seen then seen else seen + [k];
      assert done + [k] + keys[1..] == all;
      if k !in seen {
        forall i | 0 <= i < |seen| ensures Earlier(all, seen[i], k) {
          assert seen[i] in done;
          var n := FirstIndex(done, seen[i]);
          assert all[n] == done[n] && all[..n + 1] == done[..n + 1];
        }
      }
      assert forall l :: l in done + [k] <==> l in done || l == k;
      DistinctKeepsOrder(done + [k], keys[1..], seen');
    }
  }

  lemma {:induction false} FirstKeys(a: Json, b: Json, keys: seq<string>, i: nat)
    requires a.Obj? && b.Obj? && i < |DiffKeys(a, b, keys)|
    ensures DiffKeys(a, b, keys)[i].path != [] && DiffKeys(a, b, keys)[i].path[0] in keys
    decreases |keys|
  {
    hide DiffKey;
    var below := Prefix(keys[0], DiffKey(a, b, keys[0]));
    if i >= |below| {
      FirstKeys(a, b, keys[1..], i - |below|);
    }
  }

  lemma {:induction false} KeysInOrder(a: Json, b: Json, keys: seq<string>, i: nat, j: nat)
    requires a.Obj? && b.Obj? && i < j < |DiffKeys(a, b, keys)|
    requires Ordered(KeysOf(a.fields) + KeysOf(b.fields), keys)
    ensures InOrder(a, b, DiffKeys(a, b, keys)[i].path, DiffKeys(a, b, keys)[j].path)
    decreases a, 0, |keys|
  {
    hide DiffKey, Earlier, Lookup;
    var k := keys[0];
    var below := DiffKey(a, b, k);
    var rows, rest := Prefix(k, below), DiffKeys(a, b, keys[1..]);
    assert DiffKeys(a, b, keys) == rows + rest;
    if j < |below| {
      KeyInOrder(a, b, k, i, j);
      assert ([k] + below[i].path)[1..] == below[i].path && ([k] + below[j].path)[1..] == below[j].path;
    } else if i < |below| {
      FirstKeys(a, b, keys[1..], j - |below|);
      var l := rest[j - |below|].path[0];
      var n :| 0 <= n < |keys[1..]| && keys[1..][n] == l;
      assert keys[n + 1] == l && Earlier(KeysOf(a.fields) + KeysOf(b.fields), k, l);
      NotEarlier(KeysOf(a.fields) + KeysOf(b.fields), k);
    } else {
      KeysInOrder(a, b, keys[1..], i - |below|, j - |below|);
    }
  }

  lemma NotEarlier(keys: seq<string>, k: string)
    ensures !Earlier(keys, k, k)
  {
    forall i | 0 <= i < |keys| && keys[i] == k ensures k in keys[..i + 1] {
      assert keys[..i + 1][i] == k;
    }
  }

  lemma {:induction false} KeyInOrder(a: Json, b: Json, k: string, i: nat, j: nat)
    requires a.Obj? && b.Obj? && i < j < |DiffKey(a, b, k)|
    ensures var x, y := Lookup(a.fields, k), Lookup(b.fields, k);
            x.Some? && y.Some? && InOrder(x.value, y.value, DiffKey(a, b, k)[i].path, DiffKey(a, b, k)[j].path)
    decreases a, 0, 0
  {
    hide InOrder;
    RowsAreInOrder(Lookup(a.fields, k).value, Lookup(b.fields, k).value, i, j);
  }

  /** The rows come in the order of the keys, so no two are for the same path. */
  lemma {:induction false} RowsAreInOrder(a: Json, b: Json, i: nat, j: nat)
    requires i < j < |Diff(a, b)|
    ensures InOrder(a, b, Diff(a, b)[i].path, Diff(a, b)[j].path)
    decreases a, 1, 0
  {
    DiffLeaf(a, b);
    var keys := KeysOf(a.fields) + KeysOf(b.fields);
    assert [] + keys == keys;
    DistinctKeepsOrder([], keys, []);
    KeysInOrder(a, b, UnionKeys(a.fields, b.fields), i, j);
  }
}
