/**
 * What an edit does where another client put an array in the edited object's place, or an object in an array's. The
 * described conflict comes exactly under the conditions proved here.
 */
module ChangedKinds {
  import opened Options
  import opened Listings
  import opened Json
  import opened JsonPatch
  import opened PatchMerge
  import opened Landings
  import opened IndexedFields
  import opened StrictMerges
  import opened FieldMerge
  import opened MergeLaws

  // Where an array stands where base and ours hold an object.

  /** The one way a field of the edited object clashes with the array in its place: at the element its key names. */
  ghost predicate ClashesInArray(ord: KeyOrder, x: Json, y: Json, t: Json, k: string)
    requires x.Obj? && y.Obj? && k in x.fields
  {
    if k in y.fields && SameKind(x.fields[k], y.fields[k])
    then MergeSame(ord, x.fields[k], y.fields[k], Child(t, k)).Clash?
    else Child(y, k) != Child(x, k) && Child(t, k) != Child(x, k)
  }

  /** Some edited field clashes with the element of its name, or an added one names no index at the array's end. */
  ghost predicate Refuses(ord: KeyOrder, x: Json, y: Json, t: Json)
    requires x.Obj? && y.Obj? && t.Arr?
  {
    var removed := |x.fields.Keys - y.fields.Keys|;
    || (exists k :: k in x.fields && ClashesInArray(ord, x, y, t, k))
    || |t.items| < removed
    || !AddsFit(t, Added(ord, x, y), |t.items| - removed)
  }

  /**
   * An edit of an object clashes with an array in the object's place exactly where the array refuses some edit of a
   * field, and else lands in it.
   */
  lemma ArrayInPlaceOfObject(ord: KeyOrder, x: Json, y: Json, t: Json)
    requires Ascends(ord) && x.Obj? && y.Obj? && x != y && t.Arr?
    ensures MergeSame(ord, x, y, Some(t)).Clash? <==> Refuses(ord, x, y, t)
  {
    AscendingDropsFromEnd(ord, x, y);
    ClashesWhereRefused(ord, x, y, t);
  }

  lemma ClashesWhereRefused(ord: KeyOrder, x: Json, y: Json, t: Json)
    requires x.Obj? && y.Obj? && x != y && t.Arr? && DropsFromEnd(ord, x, y)
    ensures MergeSame(ord, x, y, Some(t)).Clash? <==> Refuses(ord, x, y, t)
  {
    var field := k => MergeIndexed(ord, x, y, t, k);
    assert MergeSame(ord, x, y, Some(t)) == InArray(ord, x, y, t, field);
    forall k | k in x.fields ensures field(k).Clash? <==> ClashesInArray(ord, x, y, t, k) {
    }
    if forall k | k in x.fields :: field(k).Holds? {
      forall k | k in x.fields ensures DropsRemoved(y, t, k, field(k)) {
        RemovedIsDropped(ord, x, y, t, k);
      }
      Remainder(x, y, t, field);
    } else {
      var k :| k in x.fields && field(k).Clash?;
      assert ClashesInArray(ord, x, y, t, k);
    }
  }

  /** An edit that keeps the object's keys, whatever order they come in. */
  lemma KeptKeysInArray(ord: KeyOrder, x: Json, y: Json, t: Json)
    requires x.Obj? && y.Obj? && x != y && t.Arr? && x.fields.Keys == y.fields.Keys
    ensures MergeSame(ord, x, y, Some(t)).Clash? <==> exists k :: k in x.fields && ClashesInArray(ord, x, y, t, k)
  {
    assert Listing(FromEnd(ord, x.fields.Keys), x.fields.Keys);
    assert Added(ord, x, y) == [] by {
      HasNone(Added(ord, x, y));
    }
    assert x.fields.Keys - y.fields.Keys == {};
    ClashesWhereRefused(ord, x, y, t);
  }

  predicate NamesNoIndex(k: string) {
    k != "-" && Index(k).None?
  }

  /** Edits of keys that name no index always clash with an array that stands where the edited object was. */
  lemma NamedEditsClash(ord: KeyOrder, x: Json, y: Json, t: Json)
    requires x.Obj? && y.Obj? && x != y && t.Arr?
    requires forall k | k in x.fields.Keys + y.fields.Keys && Child(x, k) != Child(y, k) :: NamesNoIndex(k)
    ensures MergeSame(ord, x, y, Some(t)) == Clash
  {
    NamedDropFromEnd(ord, x, y);
    EqualFieldByField(x, y);
    var k :| k in x.fields.Keys + y.fields.Keys && Child(x, k) != Child(y, k);
    NamedEditRefused(ord, x, y, t, k);
    ClashesWhereRefused(ord, x, y, t);
  }

  lemma NamedDropFromEnd(ord: KeyOrder, x: Json, y: Json)
    requires x.Obj? && y.Obj?
    requires forall k | k in x.fields.Keys + y.fields.Keys && Child(x, k) != Child(y, k) :: NamesNoIndex(k)
    ensures DropsFromEnd(ord, x, y)
  {
    var keys := FromEnd(ord, x.fields.Keys);
    assert Listing(keys, x.fields.Keys);
    forall i, j | 0 <= i < j < |keys| && keys[i] !in y.fields ensures !Before(keys[i], keys[j]) {
      assert keys[i] in keys && NamesNoIndex(keys[i]);
    }
  }

  lemma NamedEditRefused(ord: KeyOrder, x: Json, y: Json, t: Json, k: string)
    requires x.Obj? && y.Obj? && t.Arr?
    requires (k in x.fields || k in y.fields) && Child(x, k) != Child(y, k) && NamesNoIndex(k)
    ensures Refuses(ord, x, y, t)
  {
    if k in x.fields {
      assert Child(t, k) == None && ClashesInArray(ord, x, y, t, k);
    } else {
      NoFit(t, Added(ord, x, y), k);
    }
  }

  lemma NoFit(t: Json, added: seq<string>, k: string)
    requires t.Arr? && k in added && NamesNoIndex(k)
    ensures forall length: nat :: !AddsFit(t, added, length)
  {
    var j :| 0 <= j < |added| && added[j] == k;
    forall length: nat ensures !AddsFit(t, added, length) {
      assert !Fits(t, added[j], length + j);
    }
  }

  /**
   * An edit inside an object is not refused, as the description of a conflict has it, where another client replaced the
   * object by an array that holds the base value at the index the edited key names: it lands in the array.
   */
  lemma ArrayTakesEdit(ord: KeyOrder, x: Json, y: Json)
    requires x != y && !SameKind(x, y)
    ensures MergeSame(ord, Obj(map["0" := x]), Obj(map["0" := y]), Some(Arr([x]))) == Holds(Some(Arr([y])))
  {
    var (inner, wanted, t) := (Obj(map["0" := x]), Obj(map["0" := y]), Arr([x]));
    assert inner.fields["0"] != wanted.fields["0"];
    IndexOfName(0);
    assert Name(0) == "0" && Child(t, "0") == Some(x);
    KeptKeysInArray(ord, inner, wanted, t);
    assert !ClashesInArray(ord, inner, wanted, t, "0");
    var field := k => MergeIndexed(ord, inner, wanted, t, k);
    assert field("0") == Holds(Some(y));
    assert Listing(FromEnd(ord, inner.fields.Keys), inner.fields.Keys) && DropsFromEnd(ord, inner, wanted);
    assert Pieces(t.items, 0, 0, inner.fields.Keys, field) == [];
    assert Edited(t, inner.fields.Keys, field).items == [y];
    assert Added(ord, inner, wanted) == [] by {
      HasNone(Added(ord, inner, wanted));
    }
  }

  // Where an object stands where base and ours hold an array.

  /** The one way an element clashes with the object in the array's place: at the field of its index. */
  predicate ClashesInObject(x: Json, y: Json, t: Json, i: nat)
    requires x.Arr? && y.Arr? && i < |x.items|
  {
    && At(y, i) != At(x, i)
    && ((i < |y.items| && SameKind(x.items[i], y.items[i])) || Child(t, Name(i)) != At(x, i))
  }

  predicate ClashingName(x: Json, y: Json, t: Json, k: string)
    requires x.Arr? && y.Arr?
  {
    Index(k).Some? && Index(k).value < |x.items| && ClashesInObject(x, y, t, Index(k).value)
  }

  lemma ItemFieldClashes(x: Json, y: Json, t: Json, k: string)
    requires x.Arr? && y.Arr?
    ensures ItemField(x, y, t, k).Clash? <==> ClashingName(x, y, t, k)
  {
    if Index(k).Some? {
      NameOfIndex(k);
    }
  }

  lemma ClashingIsNamed(x: Json, y: Json, t: Json, i: nat)
    requires x.Arr? && y.Arr? && i < |x.items| && ClashesInObject(x, y, t, i)
    ensures Name(i) in Names(|x.items|) && ClashingName(x, y, t, Name(i))
  {
    IndexOfName(i);
  }

  /**
   * Nor is an edit of an array refused where an object took its place, unless it edits inside an element, or replaces
   * or removes one that is not the field of its index. What it appends always lands.
   */
  lemma ObjectInPlaceOfArray(ord: KeyOrder, x: Json, y: Json, t: Json)
    requires x.Arr? && y.Arr? && x != y && t.Obj?
    ensures MergeSame(ord, x, y, Some(t)).Clash? <==> exists i :: 0 <= i < |x.items| && ClashesInObject(x, y, t, i)
  {
    var field := k => ItemField(x, y, t, k);
    var names := Names(|x.items|) + Names(|y.items|) + t.fields.Keys;
    assert MergeSame(ord, x, y, Some(t)) == Collect(names, field);
    if i :| 0 <= i < |x.items| && ClashesInObject(x, y, t, i) {
      ClashingIsNamed(x, y, t, i);
      ItemFieldClashes(x, y, t, Name(i));
      assert Name(i) in names && field(Name(i)).Clash?;
    }
    forall k | k in names && field(k).Clash? ensures ClashingName(x, y, t, k) {
      ItemFieldClashes(x, y, t, k);
    }
  }

  // What is lost where kinds changed.

  /**
   * The object keeps the fields that the edit of the array does not change, and has the others as the edit made them.
   */
  lemma EditInObject(ord: KeyOrder, x: Json, y: Json, t: Json, m: Json, k: string)
    requires x.Arr? && y.Arr? && x != y && t.Obj? && MergeSame(ord, x, y, Some(t)) == Holds(Some(m))
    ensures m.Obj? && Child(m, k) == if Child(y, k) == Child(x, k) then Child(t, k) else Child(y, k)
  {
    var field := l => ItemField(x, y, t, l);
    var names := Names(|x.items|) + Names(|y.items|) + t.fields.Keys;
    assert MergeSame(ord, x, y, Some(t)) == Collect(names, field);
    CollectedField(names, field, m, k);
    if k !in names {
      NoItemNamed(x, y, k);
    }
  }

  /** The user appends another value at an index which a field of the object names. */
  predicate Overwrites(x: Json, y: Json, t: Json, k: string) {
    Child(x, k).None? && Child(y, k).Some? && Child(t, k).Some? && Child(y, k) != Child(t, k)
  }

  /** A value that another client gave a field of the object is lost, without a conflict, exactly to an append. */
  lemma AppendOverwrites(ord: KeyOrder, x: Json, y: Json, t: Json, m: Json, k: string)
    requires x.Arr? && y.Arr? && x != y && t.Obj? && MergeSame(ord, x, y, Some(t)) == Holds(Some(m))
    requires k in t.fields
    ensures Child(t, k) != Child(x, k) && Child(m, k) != Child(t, k) <==> Overwrites(x, y, t, k)
  {
    var field := l => ItemField(x, y, t, l);
    var names := Names(|x.items|) + Names(|y.items|) + t.fields.Keys;
    assert MergeSame(ord, x, y, Some(t)) == Collect(names, field);
    CollectedField(names, field, m, k);
  }

  /** So two clients' values for one place can end as `merged` with one of them gone. */
  lemma ForeignFieldLost(ord: KeyOrder, mine: Json, foreign: Json)
    requires mine != foreign
    ensures ReplayEdit(ord, Obj(map["l" := Arr([])]), Obj(map["l" := Arr([mine])]),
            Obj(map["l" := Obj(map["0" := foreign])]))
         == Merged(Obj(map["l" := Obj(map["0" := mine])]))
  {
    var (x, y, t, m) := (Arr([]), Arr([mine]), Obj(map["0" := foreign]), Obj(map["0" := mine]));
    var field := k => ItemField(x, y, t, k);
    IndexOfName(0);
    assert Name(0) == "0" && y.items[0] == mine;
    forall k ensures field(k) == Holds(Child(m, k)) {
      if Index(k) == Some(0) {
        NameOfIndex(k);
      }
    }
    CollectHolds(Names(0) + Names(1) + t.fields.Keys, field, m);
    OneField(ord, "l", x, y, t, m);
  }

  /** The element at `i` of the array is still there, with the user's edit inside it, if there is one, merged. */
  ghost predicate KeepsItem(ord: KeyOrder, x: Json, y: Json, t: Json, m: Json, i: nat)
    requires x.Obj? && y.Obj? && t.Arr? && i < |t.items|
  {
    var k := Name(i);
    m.Arr? && exists v | v in m.items ::
      if k in x.fields && k in y.fields && SameKind(x.fields[k], y.fields[k])
      then MergeSame(ord, x.fields[k], y.fields[k], Some(t.items[i])) == Holds(Some(v))
      else v == t.items[i]
  }

  /** Where an array took an object's place no element is lost that is not the field of its index. */
  lemma ArrayKeepsItems(ord: KeyOrder, x: Json, y: Json, t: Json, m: Json, i: nat)
    requires Ascends(ord) && x.Obj? && y.Obj? && x != y && t.Arr? && MergeSame(ord, x, y, Some(t)) == Holds(Some(m))
    requires i < |t.items| && Child(x, Name(i)) != Some(t.items[i])
    ensures KeepsItem(ord, x, y, t, m, i)
  {
    var field := l => MergeIndexed(ord, x, y, t, l);
    AscendingDropsFromEnd(ord, x, y);
    assert MergeSame(ord, x, y, Some(t)) == InArray(ord, x, y, t, field);
    assert Name(i) in x.fields ==> field(Name(i)).Holds?;
    var v := PieceKept(ord, x, y, t, i, field);
    GrownKeeps(Edited(t, x.fields.Keys, field).items, Added(ord, x, y), y.fields, v);
  }

  lemma PieceKept(ord: KeyOrder, x: Json, y: Json, t: Json, i: nat, field: string -> Merge) returns (v: Json)
    requires x.Obj? && y.Obj? && t.Arr? && i < |t.items| && Child(x, Name(i)) != Some(t.items[i])
    requires forall k :: field(k) == MergeIndexed(ord, x, y, t, k)
    requires Name(i) in x.fields ==> field(Name(i)).Holds?
    ensures v in Edited(t, x.fields.Keys, field).items
    ensures var k := Name(i);
            if k in x.fields && k in y.fields && SameKind(x.fields[k], y.fields[k])
            then MergeSame(ord, x.fields[k], y.fields[k], Some(t.items[i])) == Holds(Some(v))
            else v == t.items[i]
  {
    var k := Name(i);
    IndexOfName(i);
    SplitAt(t.items, i, x.fields.Keys, field);
    if k in x.fields {
      MergeIndexedIs(ord, x, y, t, k);
    }
    v := Piece(t.items[i], k, x.fields.Keys, field)[0];
  }

  lemma {:induction false} GrownKeeps(items: seq<Json>, keys: seq<string>, fields: map<string, Json>, v: Json)
    requires v in items && forall k | k in keys :: k in fields
    ensures v in Grown(items, keys, fields)
    decreases |keys|
  {
    if keys != [] && InsertIndex(items, keys[0]).Some? {
      var i := InsertIndex(items, keys[0]).value;
      assert items == items[..i] + items[i..];
      GrownKeeps(items[..i] + [fields[keys[0]]] + items[i..], keys[1..], fields, v);
    }
  }
}
