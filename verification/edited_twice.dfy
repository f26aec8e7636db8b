/** What an edit does on a root that took it already, where it changes arrays matched by index. */
module EditedTwice {
  import opened Options
  import opened Json
  import opened Landings
  import opened StrictMerges
  import opened FieldMerge
  import opened MergeLaws
  import opened ChangedKinds
  import opened Reconciliation
  import PatchMerge

  /** The edit of the array replaces, removes and appends items, and changes none from inside. */
  predicate WholeItems(x: Json, y: Json)
    requires x.Arr? && y.Arr?
  {
    forall i | 0 <= i < |x.items| && i < |y.items| :: x.items[i] == y.items[i] || !SameKind(x.items[i], y.items[i])
  }

  /** So do all edits of arrays between `x` and `y`, and no array stands in the place of an edited object. */
  ghost predicate WholeEdits(x: Json, y: Json, t: Json)
    requires SameKind(x, y)
    decreases x
  {
    if x == y then true
    else if x.Arr? then t.Arr? ==> WholeItems(x, y)
    else if t.Obj? then
      forall k | k in x.fields && k in y.fields && k in t.fields && SameKind(x.fields[k], y.fields[k]) ::
        WholeEdits(x.fields[k], y.fields[k], t.fields[k])
    else !t.Arr?
  }

  /**
   * The array `m` takes the edit once more: it only drops the last items of `x`, which `m` has at their indexes again,
   * or only appends some, and `m` has none of these more often than `x`.
   */
  predicate LandsAgain(x: Json, y: Json, m: Json)
    requires x.Arr? && y.Arr? && m.Arr?
  {
    && (forall i | 0 <= i < |x.items| && i < |y.items| :: x.items[i] == y.items[i])
    && if |y.items| > |x.items| then AppendsFit(x, y, m)
       else |x.items| <= |m.items| && m.items[|y.items|..|x.items|] == x.items[|y.items|..]
  }

  /** Some array in `m` changes again. */
  ghost predicate TakesAgain(x: Json, y: Json, m: Option<Json>)
    requires SameKind(x, y)
    decreases x, 1
  {
    x != y && m.Some? &&
    if x.Arr? then m.value.Arr? && LandsAgain(x, y, m.value)
    else m.value.Obj? && exists k :: TakesAt(x, y, m.value, k)
  }

  ghost predicate TakesAt(x: Json, y: Json, m: Json, k: string)
    requires x.Obj? && y.Obj?
    decreases x, 0
  {
    && k in x.fields && k in y.fields && SameKind(x.fields[k], y.fields[k])
    && TakesAgain(x.fields[k], y.fields[k], Child(m, k))
  }

  /**
   * The edit clashes somewhere in `m`: with an array that neither takes it again nor is the user's own and no longer
   * than the base's, or with an object in an array's place, where it replaced or removed an item.
   */
  ghost predicate RefusesAgain(x: Json, y: Json, m: Option<Json>)
    requires SameKind(x, y)
    decreases x, 1
  {
    x != y && m.Some? &&
    if x.Arr? then
      if m.value.Arr? then !LandsAgain(x, y, m.value) && (m.value != y || |y.items| > |x.items|)
      else exists i :: 0 <= i < |x.items| && At(y, i) != At(x, i)
    else m.value.Obj? && exists k :: RefusesAt(x, y, m.value, k)
  }

  ghost predicate RefusesAt(x: Json, y: Json, m: Json, k: string)
    requires x.Obj? && y.Obj?
    decreases x, 0
  {
    && k in x.fields && k in y.fields && SameKind(x.fields[k], y.fields[k])
    && RefusesAgain(x.fields[k], y.fields[k], Child(m, k))
  }

  // One array.

  /** The items both base and ours have stand where they stood. */
  lemma {:induction false} ItemInPlace(ord: KeyOrder, x: Json, y: Json, t: Json, n: nat, i: nat)
    requires x.Arr? && y.Arr? && t.Arr? && n <= i < |x.items| && i < |y.items| && i < |t.items|
    requires forall j | n <= j <= i :: StrictItem(ord, x, y, t, j).Holds?
    ensures Kept(StrictItem(ord, x, y, t, i)) && i - n < |StrictItems(ord, x, y, t, n)|
    ensures StrictItems(ord, x, y, t, n)[i - n] == StrictItem(ord, x, y, t, i).value.value
    decreases i - n
  {
    ItemStays(ord, x, y, t, n);
    if n < i {
      ItemInPlace(ord, x, y, t, n + 1, i);
    }
  }

  /** An item replaced whole is in the merge as the user has it. */
  lemma ReplacedItem(ord: KeyOrder, x: Json, y: Json, t: Json, m: Json, i: nat)
    requires x.Arr? && y.Arr? && t.Arr? && StrictArrays(ord, x, y, t) == Holds(Some(m))
    requires i < |x.items| && i < |y.items| && x.items[i] != y.items[i] && !SameKind(x.items[i], y.items[i])
    ensures m.Arr? && At(m, i) == Some(y.items[i])
  {
    assert StrictItem(ord, x, y, t, i) == StrictWhole(At(x, i), At(y, i), At(t, i));
    assert i < |t.items|;
    ItemInPlace(ord, x, y, t, 0, i);
  }

  lemma ReplacedClashes(ord: KeyOrder, x: Json, y: Json, t: Json, m: Json, i: nat)
    requires x.Arr? && y.Arr? && t.Arr? && StrictArrays(ord, x, y, t) == Holds(Some(m))
    requires i < |x.items| && i < |y.items| && x.items[i] != y.items[i] && !SameKind(x.items[i], y.items[i])
    ensures m.Arr? && StrictArrays(ord, x, y, m).Clash?
  {
    ReplacedItem(ord, x, y, t, m, i);
    assert StrictItem(ord, x, y, m, i) == StrictWhole(At(x, i), At(y, i), At(m, i));
  }

  lemma RemovedClashes(ord: KeyOrder, x: Json, y: Json, m: Json)
    requires x.Arr? && y.Arr? && m.Arr? && |y.items| < |x.items|
    requires !(|x.items| <= |m.items| && m.items[|y.items|..|x.items|] == x.items[|y.items|..])
    ensures StrictArrays(ord, x, y, m).Clash?
  {
    var i := Differing(x.items, m.items, |y.items|);
    assert StrictItem(ord, x, y, m, i) == StrictWhole(At(x, i), At(y, i), At(m, i));
  }

  lemma Differing(a: seq<Json>, b: seq<Json>, n: nat) returns (i: nat)
    requires n < |a| && !(|a| <= |b| && b[n..|a|] == a[n..])
    ensures n <= i < |a| && (i >= |b| || b[i] != a[i])
  {
    if |a| > |b| {
      i := if n <= |b| then |b| else n;
    } else {
      SlicesDiffer(a, b, n);
      i :| n <= i < |a| && b[i] != a[i];
    }
  }

  lemma SlicesDiffer(a: seq<Json>, b: seq<Json>, n: nat)
    requires n < |a| <= |b| && b[n..|a|] != a[n..]
    ensures exists i :: n <= i < |a| && b[i] != a[i]
  {
    var k :| 0 <= k < |a| - n && b[n..|a|][k] != a[n..][k];
    assert b[n + k] != a[n + k];
  }

  /** What does not land again clashes. */
  lemma ClashesAgain(ord: KeyOrder, x: Json, y: Json, t: Json, m: Json)
    requires x.Arr? && y.Arr? && t.Arr? && WholeItems(x, y) && StrictArrays(ord, x, y, t) == Holds(Some(m))
    requires m.Arr? && x != y && !LandsAgain(x, y, m)
    ensures StrictArrays(ord, x, y, m).Clash?
  {
    if i :| 0 <= i < |x.items| && i < |y.items| && x.items[i] != y.items[i] {
      ReplacedClashes(ord, x, y, t, m, i);
    } else if |y.items| <= |x.items| {
      ShorterUnlessEqual(x, y);
      RemovedClashes(ord, x, y, m);
    }
  }

  lemma {:induction false} DroppedItems(ord: KeyOrder, x: Json, y: Json, m: Json, n: nat)
    requires x.Arr? && y.Arr? && m.Arr? && LandsAgain(x, y, m) && n <= |x.items|
    ensures forall i | n <= i < |x.items| :: StrictItem(ord, x, y, m, i).Holds?
    ensures |StrictItems(ord, x, y, m, n)| <= if n <= |y.items| then |y.items| - n else 0
    decreases |x.items| - n
  {
    if n < |x.items| {
      DroppedItems(ord, x, y, m, n + 1);
      assert n >= |y.items| ==> m.items[|y.items|..|x.items|][n - |y.items|] == x.items[|y.items|..][n - |y.items|];
      assert StrictItem(ord, x, y, m, n) == Holds(if n < |y.items| then At(m, n) else None);
    }
  }

  lemma {:induction false} KeptItems(ord: KeyOrder, x: Json, y: Json, m: Json, n: nat)
    requires x.Arr? && y.Arr? && m.Arr? && n <= |x.items| <= |y.items| && |x.items| <= |m.items|
    requires forall i | 0 <= i < |x.items| :: x.items[i] == y.items[i]
    ensures forall i | n <= i < |x.items| :: StrictItem(ord, x, y, m, i).Holds?
    ensures |StrictItems(ord, x, y, m, n)| == |x.items| - n
    decreases |x.items| - n
  {
    if n < |x.items| {
      KeptItems(ord, x, y, m, n + 1);
      assert StrictItem(ord, x, y, m, n) == Holds(At(m, n));
    }
  }

  /** And what does makes the array shorter or longer. */
  lemma ChangesLength(ord: KeyOrder, x: Json, y: Json, m: Json)
    requires x.Arr? && y.Arr? && m.Arr? && x != y && LandsAgain(x, y, m)
    ensures StrictArrays(ord, x, y, m).Holds? && StrictArrays(ord, x, y, m) != Holds(Some(m))
  {
    if |y.items| > |x.items| {
      KeptItems(ord, x, y, m, 0);
    } else {
      ShorterUnlessEqual(x, y);
      DroppedItems(ord, x, y, m, 0);
    }
  }

  lemma ShorterUnlessEqual(x: Json, y: Json)
    requires x.Arr? && y.Arr? && |y.items| <= |x.items| && forall i | 0 <= i < |y.items| :: x.items[i] == y.items[i]
    ensures |y.items| < |x.items| || x == y
  {
    assert y.items == x.items[..|y.items|];
  }

  lemma GrowsAtEnd(x: Json, y: Json)
    requires x.Arr? && y.Arr? && WholeItems(x, y)
    ensures Grows(x, y) <==> |y.items| > |x.items|
  {
    forall i | 0 <= i < |x.items| && i < |y.items| ensures !Grows(x.items[i], y.items[i]) {
      if x.items[i] == y.items[i] {
        NeverGrows(x.items[i]);
      }
    }
  }

  lemma MergeArrays(ord: KeyOrder, x: Json, y: Json, t: Json)
    requires x.Arr? && y.Arr? && t.Arr? && x != y
    ensures MergeSame(ord, x, y, Some(t))
         == if t == y && !Grows(x, y) then Holds(Some(t)) else StrictArrays(ord, x, y, t)
    ensures MergeSame(ord, x, y, Some(t)).Holds? ==> IsArr(MergeSame(ord, x, y, Some(t)).value)
  {
  }

  predicate IsArr(v: Option<Json>) {
    v.Some? && v.value.Arr?
  }

  lemma ArrayTwice(ord: KeyOrder, x: Json, y: Json, t: Json, m: Json)
    requires x.Arr? && y.Arr? && t.Arr? && x != y && WholeItems(x, y)
    requires MergeSame(ord, x, y, Some(t)) == Holds(Some(m))
    ensures MergeSame(ord, x, y, Some(m)).Clash? <==> RefusesAgain(x, y, Some(m))
    ensures MergeSame(ord, x, y, Some(m)) == Holds(Some(m))
       <==> !RefusesAgain(x, y, Some(m)) && !TakesAgain(x, y, Some(m))
  {
    GrowsAtEnd(x, y);
    MergeArrays(ord, x, y, t);
    MergeArrays(ord, x, y, m);
    if LandsAgain(x, y, m) {
      ChangesLength(ord, x, y, m);
    } else if m != y || Grows(x, y) {
      ClashesAgain(ord, x, y, t, m);
    }
  }

  lemma ChangedItemClashes(ord: KeyOrder, x: Json, y: Json, t: Json, m: Json, i: nat)
    requires x.Arr? && y.Arr? && t.Obj? && x != y && MergeSame(ord, x, y, Some(t)) == Holds(Some(m))
    requires i < |x.items|
    ensures ClashesInObject(x, y, m, i) <==> At(y, i) != At(x, i)
  {
    EditInObject(ord, x, y, t, m, Name(i));
    IndexOfName(i);
  }

  /** An object in the array's place is as the edit makes it, or refuses it. */
  lemma ObjectForArrayTwice(ord: KeyOrder, x: Json, y: Json, t: Json, m: Json)
    requires x.Arr? && y.Arr? && t.Obj? && x != y
    requires MergeSame(ord, x, y, Some(t)) == Holds(Some(m))
    ensures MergeSame(ord, x, y, Some(m)).Clash? <==> RefusesAgain(x, y, Some(m))
    ensures MergeSame(ord, x, y, Some(m)).Holds? ==> MergeSame(ord, x, y, Some(m)) == Holds(Some(m))
  {
    EditInObject(ord, x, y, t, m, "");
    ObjectInPlaceOfArray(ord, x, y, m);
    forall i | 0 <= i < |x.items| ensures ClashesInObject(x, y, m, i) <==> At(y, i) != At(x, i) {
      ChangedItemClashes(ord, x, y, t, m, i);
    }
    if MergeSame(ord, x, y, Some(m)).Holds? {
      SameObjectAgain(ord, x, y, t, m, MergeSame(ord, x, y, Some(m)).value);
    }
  }

  lemma SameObjectAgain(ord: KeyOrder, x: Json, y: Json, t: Json, m: Json, again: Option<Json>)
    requires x.Arr? && y.Arr? && t.Obj? && x != y && MergeSame(ord, x, y, Some(t)) == Holds(Some(m))
    requires m.Obj? && MergeSame(ord, x, y, Some(m)) == Holds(again)
    ensures again == Some(m)
  {
    MergeStays(ord, x, y, Some(m));
    forall k ensures again.value.Obj? && Child(again.value, k) == Child(m, k) {
      EditInObject(ord, x, y, t, m, k);
      EditInObject(ord, x, y, m, again.value, k);
    }
    EqualFieldByField(again.value, m);
  }

  // All documents.

  lemma {:induction false} MergedTwice(ord: KeyOrder, x: Json, y: Json, t: Json, m: Json)
    requires SameKind(x, y) && WholeEdits(x, y, t) && MergeSame(ord, x, y, Some(t)) == Holds(Some(m))
    ensures MergeSame(ord, x, y, Some(m)).Clash? <==> RefusesAgain(x, y, Some(m))
    ensures MergeSame(ord, x, y, Some(m)) == Holds(Some(m))
       <==> !RefusesAgain(x, y, Some(m)) && !TakesAgain(x, y, Some(m))
    decreases x
  {
    if x != y {
      if x.Obj? {
        ObjectTwice(ord, x, y, t, m);
      } else if t.Arr? {
        ArrayTwice(ord, x, y, t, m);
      } else {
        ObjectForArrayTwice(ord, x, y, t, m);
        EditInObject(ord, x, y, t, m, "");
      }
    }
  }

  lemma {:induction false} ObjectTwice(ord: KeyOrder, x: Json, y: Json, t: Json, m: Json)
    requires x.Obj? && y.Obj? && x != y && WholeEdits(x, y, t) && MergeSame(ord, x, y, Some(t)) == Holds(Some(m))
    ensures MergeSame(ord, x, y, Some(m)).Clash? <==> RefusesAgain(x, y, Some(m))
    ensures MergeSame(ord, x, y, Some(m)) == Holds(Some(m))
       <==> !RefusesAgain(x, y, Some(m)) && !TakesAgain(x, y, Some(m))
    decreases x, 1
  {
    assert t.Obj?;
    FieldsMerge(ord, x, y, t, m);
    forall k
      ensures MergeField(ord, x, y, m, k).Clash? <==> RefusesAt(x, y, m, k)
      ensures MergeField(ord, x, y, m, k) == Holds(Child(m, k)) <==> !RefusesAt(x, y, m, k) && !TakesAt(x, y, m, k)
    {
      FieldTwice(ord, x, y, t, m, k);
    }
    SecondMerge(ord, x, y, m);
  }

  lemma {:induction false} FieldTwice(ord: KeyOrder, x: Json, y: Json, t: Json, m: Json, k: string)
    requires x.Obj? && y.Obj? && t.Obj? && m.Obj? && x != y && WholeEdits(x, y, t)
    requires MergeField(ord, x, y, t, k) == Holds(Child(m, k))
    ensures MergeField(ord, x, y, m, k).Clash? <==> RefusesAt(x, y, m, k)
    ensures MergeField(ord, x, y, m, k) == Holds(Child(m, k)) <==> !RefusesAt(x, y, m, k) && !TakesAt(x, y, m, k)
    decreases x, 0
  {
    if k in x.fields && k in y.fields && SameKind(x.fields[k], y.fields[k]) {
      MergeStays(ord, x.fields[k], y.fields[k], Child(t, k));
      if k in t.fields {
        MergedTwice(ord, x.fields[k], y.fields[k], t.fields[k], m.fields[k]);
      }
    }
  }

  /** The second merge of objects clashes where a field does, and changes nothing where no field changes. */
  lemma SecondMerge(ord: KeyOrder, x: Json, y: Json, m: Json)
    requires x.Obj? && y.Obj? && m.Obj? && x != y
    requires forall k ::
               && (MergeField(ord, x, y, m, k).Clash? <==> RefusesAt(x, y, m, k))
               && (MergeField(ord, x, y, m, k) == Holds(Child(m, k))
                 <==> !RefusesAt(x, y, m, k) && !TakesAt(x, y, m, k))
    ensures MergeSame(ord, x, y, Some(m)).Clash? <==> RefusesAgain(x, y, Some(m))
    ensures MergeSame(ord, x, y, Some(m)) == Holds(Some(m))
       <==> !RefusesAgain(x, y, Some(m)) && !TakesAgain(x, y, Some(m))
  {
    var field := k => MergeField(ord, x, y, m, k);
    var again := MergeSame(ord, x, y, Some(m));
    assert MergeObjects(ord, x, y, m) == Collect(AllKeys(x, y, m), field);
    if k :| RefusesAt(x, y, m, k) {
      assert k in AllKeys(x, y, m) && field(k).Clash?;
    } else if k :| TakesAt(x, y, m, k) {
      if again == Holds(Some(m)) {
        CollectedField(AllKeys(x, y, m), field, m, k);
      }
    } else {
      CollectHolds(AllKeys(x, y, m), field, m);
    }
  }

  /**
   * A second replay of an edit changes a root exactly where some array takes it again and none refuses it. Without
   * arrays that is nowhere.
   */
  lemma EditRootTwice(ord: KeyOrder, before: Json, after: Json, root: Json)
    requires before.Obj? && after.Obj? && root.Obj? && WholeEdits(before, after, root)
    ensures var once := EditRoot(ord, None, before, after, root);
            EditRoot(ord, None, before, after, once) != once
            <==> ReplayEdit(ord, before, after, root).Merged?
                 && TakesAgain(before, after, Some(once)) && !RefusesAgain(before, after, Some(once))
  {
    var once := EditRoot(ord, None, before, after, root);
    ReplayIsFieldMerge(ord, before, after, root);
    ReplayIsFieldMerge(ord, before, after, once);
    if before != after && ReplayEdit(ord, before, after, root).Merged? {
      MergedTwice(ord, before, after, root, once);
    }
  }

  lemma TrimmedByOne(ord: KeyOrder, x: Json, y: Json, t: Json)
    requires x.Arr? && y.Arr? && t.Arr? && |x.items| == 2 && y.items == x.items[..1] && |t.items| == 3
    requires t.items[..2] == x.items
    ensures StrictArrays(ord, x, y, t) == Holds(Some(Arr([x.items[0], t.items[2]])))
  {
    assert t.items[0] == x.items[0] == y.items[0] && t.items[1] == x.items[1];
    assert StrictItem(ord, x, y, t, 1) == StrictWhole(At(x, 1), At(y, 1), At(t, 1));
    assert StrictItem(ord, x, y, t, 0) == Holds(At(t, 0)) && StrictItem(ord, x, y, t, 1) == Holds(None);
    assert StrictItems(ord, x, y, t, 2) == [] && StrictItems(ord, x, y, t, 1) == [];
    assert StrictItems(ord, x, y, t, 0) == [x.items[0]] + [];
    assert StrictItems(ord, x, y, t, 0) + From(y.items, 2) + From(t.items, 2) == [x.items[0], t.items[2]];
    assert forall i | 0 <= i < |x.items| :: StrictItem(ord, x, y, t, i).Holds?;
  }

  /** As where the items a removal shifts into its place are equal to those it removed. */
  lemma RemovedTwice(ord: KeyOrder, a: Json, b: Json)
    ensures var (before, after) := (Obj(map["l" := Arr([a, b])]), Obj(map["l" := Arr([a])]));
            var once := EditRoot(ord, None, before, after, Obj(map["l" := Arr([a, b, b])]));
            once == Obj(map["l" := Arr([a, b])]) && EditRoot(ord, None, before, after, once) == after
  {
    var (x, y, t, m) := (Arr([a, b]), Arr([a]), Arr([a, b, b]), Arr([a, b]));
    MergeArrays(ord, x, y, t);
    TrimmedByOne(ord, x, y, t);
    OneField(ord, "l", x, y, t, m);
    EditRootEnds(ord, None, Obj(map["l" := x]), Obj(map["l" := y]));
  }
}
