/** What the guarded diff does on the root it was made from, and on the root it makes. */
module PatchRoundTrip {
  import opened Options
  import opened Listings
  import opened Json
  import opened JsonPatch
  import opened PatchMerge

  /** `fields` with those in `keys` as `g` has them. */
  function WithFields(fields: map<string, Json>, keys: seq<string>, g: map<string, Json>): map<string, Json> {
    map k | k in fields.Keys + g.Keys && (if k in keys then k in g else k in fields) ::
      if k in keys then g[k] else fields[k]
  }

  lemma WithFieldsStep(fields: map<string, Json>, k: string, rest: seq<string>, g: map<string, Json>)
    ensures WithFields(WithFields(fields, [k], g), rest, g) == WithFields(fields, [k] + rest, g)
  {
  }

  /** Applied with its guards to the root it was made from, a diff makes the root it was made for. */
  lemma {:induction false} RoundTrip(ord: KeyOrder, x: Json, y: Json)
    requires SameKind(x, y)
    ensures ApplyAll(x, Guarded(x, Diff(ord, x, y))) == Some(y)
    decreases x, 3
  {
    if x.Obj? {
      var keys := DiffOrder(ord, x, y);
      DiffOrderLists(ord, x, y);
      FieldsRoundTrip(ord, x, y, keys, x);
      assert WithFields(x.fields, keys, y.fields) == y.fields;
    } else {
      var n := |x.items|;
      assert EditedFrom(x, y, n) == x.items;
      ElementsRoundTrip(ord, x, y, n);
      GuardedConcat(x, ElementOps(ord, x, y, n), Appends(n, y));
      ApplyAllConcat(x, Guarded(x, ElementOps(ord, x, y, n)), Guarded(x, Appends(n, y)));
      AppendsRoundTrip(x, n, y, Arr(y.items[..Overlap(x, y)]));
    }
  }

  lemma DiffOrderLists(ord: KeyOrder, x: Json, y: Json)
    requires x.Obj? && y.Obj?
    ensures Listing(DiffOrder(ord, x, y), x.fields.Keys + y.fields.Keys)
  {
    var (a, b) := (x.fields.Keys, y.fields.Keys - x.fields.Keys);
    assert Listing(FromEnd(ord, a), a) && Listing(ord(b), b);
    DistinctConcat(FromEnd(ord, a), ord(b));
  }

  lemma {:induction false} ValueRoundTrip(ord: KeyOrder, x: Json, y: Json, k: string, d: Json)
    requires Child(x, k).Some? && Child(y, k).Some? && Child(d, k) == Child(x, k)
    requires Child(x, k).value < x
    ensures ApplyAll(d, Guarded(x, ValueDiff(ord, k, Child(x, k).value, Child(y, k).value)))
         == Some(WithChild(d, k, Child(y, k).value))
    decreases x, 1
  {
    var (c, e) := (Child(x, k).value, Child(y, k).value);
    if SameKind(c, e) {
      var ops := Diff(ord, c, e);
      DiffEdits(ord, c, e);
      GuardedPaths(c, ops);
      GuardedUnder(x, k, ops);
      ApplyAllUnder(d, k, Guarded(c, ops));
      RoundTrip(ord, c, e);
    } else {
      GetOne(x, k);
      GetOne(d, k);
      ApplyGuarded(x, d, Replace([k], e));
      assert Apply(d, Replace([k], e)) == Some(WithChild(d, k, e));
      ChildOfWithChild(d, k, c, e);
    }
  }

  lemma {:induction false} FieldsRoundTrip(ord: KeyOrder, x: Json, y: Json, keys: seq<string>, d: Json)
    requires x.Obj? && y.Obj? && d.Obj?
    requires Distinct(keys)
    requires forall k | k in keys :: Child(d, k) == Child(x, k)
    ensures ApplyAll(d, Guarded(x, FieldOps(ord, x, y, keys))) == Some(Obj(WithFields(d.fields, keys, y.fields)))
    decreases x, 2, |keys|
  {
    if keys == [] {
      assert WithFields(d.fields, keys, y.fields) == d.fields;
    } else {
      var (k, rest) := (keys[0], keys[1..]);
      var ops := FieldDiff(ord, x, y, k);
      var next := Obj(WithFields(d.fields, [k], y.fields));
      assert ApplyAll(d, Guarded(x, ops)) == Some(next) by {
        FieldRoundTrip(ord, x, y, k, d);
      }
      GuardedConcat(x, ops, FieldOps(ord, x, y, rest));
      ApplyAllConcat(d, Guarded(x, ops), Guarded(x, FieldOps(ord, x, y, rest)));
      FieldsRoundTrip(ord, x, y, rest, next);
      WithFieldsStep(d.fields, k, rest, y.fields);
      assert [k] + rest == keys;
    }
  }

  lemma {:induction false} FieldRoundTrip(ord: KeyOrder, x: Json, y: Json, k: string, d: Json)
    requires x.Obj? && y.Obj? && d.Obj? && Child(d, k) == Child(x, k)
    ensures ApplyAll(d, Guarded(x, FieldDiff(ord, x, y, k))) == Some(Obj(WithFields(d.fields, [k], y.fields)))
    decreases x, 2, 0
  {
    var fields := WithFields(d.fields, [k], y.fields);
    if k in x.fields && k in y.fields {
      ValueRoundTrip(ord, x, y, k, d);
      assert fields == d.fields[k := y.fields[k]];
    } else if k in x.fields {
      GetOne(x, k);
      GetOne(d, k);
      ApplyGuarded(x, d, Remove([k]));
      assert fields == d.fields - {k};
    } else if k in y.fields {
      ApplyGuarded(x, d, Add([k], y.fields[k]));
      assert fields == d.fields[k := y.fields[k]];
    } else {
      assert fields == d.fields;
    }
  }

  /** How many elements the two arrays have indexes in common for. */
  function Overlap(x: Json, y: Json): nat
    requires x.Arr? && y.Arr?
  {
    if |x.items| <= |y.items| then |x.items| else |y.items|
  }

  /** The elements once those from `n` on are edited: `y`'s follow, and what `y` lacks is gone. */
  function EditedFrom(x: Json, y: Json, n: nat): seq<Json>
    requires x.Arr? && y.Arr? && n <= |x.items|
  {
    x.items[..n] + (if n <= Overlap(x, y) then y.items[n..Overlap(x, y)] else [])
  }

  lemma {:induction false} ElementRoundTrip(ord: KeyOrder, x: Json, y: Json, i: nat)
    requires x.Arr? && y.Arr? && i < |x.items|
    ensures ApplyAll(Arr(EditedFrom(x, y, i + 1)), Guarded(x, ElementDiff(ord, x, y, i)))
         == Some(Arr(EditedFrom(x, y, i)))
    decreases x, 2, 0
  {
    var (k, d) := (Name(i), Arr(EditedFrom(x, y, i + 1)));
    IndexOfName(i);
    EditOne(x, y, i);
    if i < |y.items| {
      ValueRoundTrip(ord, x, y, k, d);
    } else {
      GetOne(x, k);
      GetOne(d, k);
      ApplyGuarded(x, d, Remove([k]));
    }
  }

  lemma EditOne(x: Json, y: Json, i: nat)
    requires x.Arr? && y.Arr? && i < |x.items|
    ensures i < |EditedFrom(x, y, i + 1)| && EditedFrom(x, y, i + 1)[i] == x.items[i]
    ensures i < |y.items| ==> EditedFrom(x, y, i + 1)[i := y.items[i]] == EditedFrom(x, y, i)
    ensures i >= |y.items| ==> EditedFrom(x, y, i + 1)[..i] + EditedFrom(x, y, i + 1)[i + 1..] == EditedFrom(x, y, i)
  {
    if i < |y.items| {
      EditedElement(x.items, y.items, i, Overlap(x, y));
    }
  }

  lemma EditedElement(a: seq<Json>, b: seq<Json>, i: nat, n: nat)
    requires i < n <= |a| && n <= |b|
    ensures (a[..i + 1] + b[i + 1..n])[i := b[i]] == a[..i] + b[i..n]
  {
    assert b[i..n] == [b[i]] + b[i + 1..n];
    assert a[..i + 1] == a[..i] + [a[i]];
  }

  lemma {:induction false} ElementsRoundTrip(ord: KeyOrder, x: Json, y: Json, n: nat)
    requires x.Arr? && y.Arr? && n <= |x.items|
    ensures ApplyAll(Arr(EditedFrom(x, y, n)), Guarded(x, ElementOps(ord, x, y, n)))
         == Some(Arr(y.items[..Overlap(x, y)]))
    decreases x, 2, n
  {
    if n == 0 {
      assert EditedFrom(x, y, n) == y.items[..Overlap(x, y)];
    } else {
      var (ops, more) := (ElementDiff(ord, x, y, n - 1), ElementOps(ord, x, y, n - 1));
      ElementRoundTrip(ord, x, y, n - 1);
      GuardedConcat(x, ops, more);
      ApplyAllConcat(Arr(EditedFrom(x, y, n)), Guarded(x, ops), Guarded(x, more));
      ElementsRoundTrip(ord, x, y, n - 1);
    }
  }

  lemma {:induction false} AppendsRoundTrip(x: Json, n: nat, y: Json, d: Json)
    requires y.Arr? && d.Arr?
    requires d.items == if n <= |y.items| then y.items[..n] else y.items
    ensures ApplyAll(d, Guarded(x, Appends(n, y))) == Some(y)
    decreases |y.items| - n
  {
    if n < |y.items| {
      IndexOfName(n);
      var next := Arr(d.items + [y.items[n]]);
      assert Name(n) == "-" ==> Index("-") == Some(n);
      assert d.items[..n] + [y.items[n]] + d.items[n..] == next.items;
      assert Apply(d, Add([Name(n)], y.items[n])) == Some(next);
      assert next.items == y.items[..n + 1];
      var ops := Guarded(x, Appends(n, y));
      assert ops == [Add([Name(n)], y.items[n])] + Guarded(x, Appends(n + 1, y));
      assert ops[1..] == Guarded(x, Appends(n + 1, y));
      AppendsRoundTrip(x, n + 1, y, next);
    } else {
      assert d.items == y.items;
    }
  }

  lemma DiffEmptyIffEqual(ord: KeyOrder, x: Json, y: Json)
    requires SameKind(x, y)
    ensures Diff(ord, x, y) == [] <==> x == y
  {
    RoundTrip(ord, x, y);
    DiffEdits(ord, x, y);
    var ops := Diff(ord, x, y);
    if ops != [] {
      assert Edits(x, y, ops[0]);
    }
  }

  // On the root a diff makes, its first operation is refused: no edit lands on itself a second time.

  /** `y` already holds what `op` does: its guard fails there, or its insert collides. */
  ghost predicate RefusedBy(x: Json, y: Json, op: Op) {
    || ((op.Replace? || op.Remove?) && Get(x, op.path) != Get(y, op.path))
    || AddCollides(x, y, op)
  }

  lemma RefusedUnder(x: Json, y: Json, k: string, op: Op)
    requires Child(x, k).Some? && Child(y, k).Some? && op.path != []
    requires RefusedBy(Child(x, k).value, Child(y, k).value, op)
    ensures RefusedBy(x, y, Lifted(k, op))
  {
    var up := Lifted(k, op);
    assert up.path[1..] == op.path;
    assert Parent(up.path) == [k] + Parent(op.path) && Parent(up.path)[1..] == Parent(op.path);
  }

  lemma {:induction false} FirstRefused(ord: KeyOrder, x: Json, y: Json)
    requires SameKind(x, y) && x != y
    ensures Diff(ord, x, y) != [] && RefusedBy(x, y, Diff(ord, x, y)[0])
    decreases x, 3
  {
    DiffEmptyIffEqual(ord, x, y);
    if x.Obj? {
      FirstFieldRefused(ord, x, y, DiffOrder(ord, x, y));
    } else if ElementOps(ord, x, y, |x.items|) == [] {
      NoElementOps(ord, x, y, |x.items|);
      FirstAppendCollides(x, y);
    } else {
      FirstElementRefused(ord, x, y, |x.items|);
    }
  }

  lemma FirstAppendCollides(x: Json, y: Json)
    requires x.Arr? && y.Arr? && x != y
    requires |x.items| <= |y.items| && forall i | 0 <= i < |x.items| :: x.items[i] == y.items[i]
    ensures Appends(|x.items|, y) != [] && AddCollides(x, y, Appends(|x.items|, y)[0])
  {
    var n := |x.items|;
    assert x.items == y.items[..n] && n < |y.items|;
    assert y.items == x.items + y.items[n..] && y.items[n] in y.items[n..];
    assert Appends(n, y)[0] == Add([Name(n)], y.items[n]) && Parent([Name(n)]) == [];
  }

  lemma {:induction false} FirstFieldRefused(ord: KeyOrder, x: Json, y: Json, keys: seq<string>)
    requires x.Obj? && y.Obj? && FieldOps(ord, x, y, keys) != []
    ensures RefusedBy(x, y, FieldOps(ord, x, y, keys)[0])
    decreases x, 2, |keys|
  {
    var k := keys[0];
    if FieldDiff(ord, x, y, k) == [] {
      FirstFieldRefused(ord, x, y, keys[1..]);
    } else if k in x.fields && k in y.fields {
      FirstOfValueRefused(ord, x, y, k);
    } else {
      assert Parent([k]) == [];
      GetOne(x, k);
      GetOne(y, k);
    }
  }

  lemma {:induction false} FirstOfValueRefused(ord: KeyOrder, x: Json, y: Json, k: string)
    requires Child(x, k).Some? && Child(y, k).Some? && Child(x, k).value < x
    requires ValueDiff(ord, k, Child(x, k).value, Child(y, k).value) != []
    ensures RefusedBy(x, y, ValueDiff(ord, k, Child(x, k).value, Child(y, k).value)[0])
    decreases x, 1
  {
    var (c, d) := (Child(x, k).value, Child(y, k).value);
    if SameKind(c, d) {
      DiffEmptyIffEqual(ord, c, d);
      FirstRefused(ord, c, d);
      DiffEdits(ord, c, d);
      assert Edits(c, d, Diff(ord, c, d)[0]);
      RefusedUnder(x, y, k, Diff(ord, c, d)[0]);
    } else {
      GetOne(x, k);
      GetOne(y, k);
    }
  }

  lemma {:induction false} FirstElementRefused(ord: KeyOrder, x: Json, y: Json, n: nat)
    requires x.Arr? && y.Arr? && n <= |x.items| && ElementOps(ord, x, y, n) != []
    ensures RefusedBy(x, y, ElementOps(ord, x, y, n)[0])
    decreases x, 2, n
  {
    var k := Name(n - 1);
    IndexOfName(n - 1);
    if n - 1 >= |y.items| {
      GetOne(x, k);
      GetOne(y, k);
    } else if ElementDiff(ord, x, y, n - 1) == [] {
      assert ElementOps(ord, x, y, n) == ElementOps(ord, x, y, n - 1);
      FirstElementRefused(ord, x, y, n - 1);
    } else {
      assert ElementOps(ord, x, y, n)[0] == ElementDiff(ord, x, y, n - 1)[0];
      FirstOfValueRefused(ord, x, y, k);
    }
  }

  lemma {:induction false} NoElementOps(ord: KeyOrder, x: Json, y: Json, n: nat)
    requires x.Arr? && y.Arr? && n <= |x.items| && ElementOps(ord, x, y, n) == []
    ensures n <= |y.items| && forall i | 0 <= i < n :: x.items[i] == y.items[i]
    decreases n
  {
    if n > 0 {
      assert ElementDiff(ord, x, y, n - 1) == [] && ElementOps(ord, x, y, n - 1) == [];
      if n - 1 < |y.items| {
        NoValueOps(ord, Name(n - 1), x.items[n - 1], y.items[n - 1]);
      }
      NoElementOps(ord, x, y, n - 1);
    }
  }

  lemma NoValueOps(ord: KeyOrder, k: string, c: Json, d: Json)
    requires ValueDiff(ord, k, c, d) == []
    ensures c == d
  {
    if SameKind(c, d) {
      DiffEmptyIffEqual(ord, c, d);
    }
  }

  /** A diff replayed whole on the root it makes conflicts. */
  lemma RefusedOnResult(ord: KeyOrder, x: Json, y: Json)
    requires SameKind(x, y) && x != y
    ensures Landing(x, y, Diff(ord, x, y)) == None
  {
    FirstRefused(ord, x, y);
    var op := Diff(ord, x, y)[0];
    if AddCollides(x, y, op) {
      assert Blocks(x, y, op);
    } else {
      var guarded := Guarded(x, Diff(ord, x, y));
      assert guarded[0] == Test(op.path, Get(x, op.path));
      ApplyTest(y, op.path, Get(x, op.path));
    }
  }
}
