/** Replaying an edit of arrays that one id field keys: it lands at most once, and never in part. */
module KeyedEdits {
  import opened Options
  import opened Listings
  import opened Json
  import opened PatchMerge
  import opened Landings
  import opened ThreeWayMerge
  import opened KeyOrders
  import opened KeyedArrays
  import opened ReplayByKeys
  import opened Reconciliation

  predicate HasId(item: Json, field: string, id: string) {
    item.Obj? && Child(item, field) == Some(Str(id))
  }

  /** Items keyed by their text in `field`. */
  function ByField(field: string): ItemKey {
    (item: Json) => if item.Obj? && field in item.fields && item.fields[field].Str? then Some(item.fields[field].text)
      else None
  }

  /** `root` with every array of it that can be keyed an object from key to item. */
  function FullForm(root: Json, itemKey: ItemKey): Json
    decreases Height(root)
  {
    match root
    case Obj(fields) => Obj(map k | k in fields :: (ChildIsLower(root, itemKey, k); FullForm(fields[k], itemKey)))
    case Arr(items) =>
      if ItemsByKey(items, itemKey).Some? then
        var children := ItemsByKey(items, itemKey).value.items;
        Obj(map k | k in children :: (ChildIsLower(root, itemKey, k); FullForm(children[k], itemKey)))
      else root
    case _ => root
  }

  function FullOf(root: Option<Json>, itemKey: ItemKey): Option<Json> {
    if root.Some? then Some(FullForm(root.value, itemKey)) else None
  }

  function ChildOf(v: Option<Json>, k: string): Option<Json> {
    if v.Some? then Child(v.value, k) else None
  }

  lemma {:induction false} FullOfArrayFree(root: Json, itemKey: ItemKey)
    requires ArrayFree(root)
    ensures FullForm(root, itemKey) == root
    decreases Height(root)
  {
    if root.Obj? {
      forall k | k in root.fields ensures FullForm(root.fields[k], itemKey) == root.fields[k] {
        ChildIsLower(root, itemKey, k);
        FullOfArrayFree(root.fields[k], itemKey);
      }
    }
  }

  /** The kept order is settled: a replay on the third list keeps that list's order. */
  predicate Stable(lists: KeyLists) {
    && Lists(lists) && KeptOrder(lists).Some?
    && (lists[2].Some? ==> ArrangedKeys(Members(lists[2].value), lists, KeptOrder(lists).value) == lists[2].value)
  }

  ghost predicate AllFree(roots: Roots) {
    forall i | 0 <= i < |roots| :: FreeOfArrays(roots[i])
  }

  /** Every array of the roots is matched by key in all of them, and with `steady` in a settled order. */
  ghost predicate AllKeyed(roots: Roots, itemKey: ItemKey, steady: bool)
    decreases Tallest(roots)
  {
    var level := LevelOf(roots, itemKey);
    if level.Whole? then AllFree(roots)
    else
      && (level.Items? && steady ==> Stable(level.lists))
      && forall k | k in NameSet(level.children) ::
        (BelowIsLower(roots, itemKey, k); AllKeyed(Below(level.children, k), itemKey, steady))
  }

  lemma KeyedKid(roots: Roots, itemKey: ItemKey, steady: bool, i: nat, k: string)
    requires AllKeyed(roots, itemKey, steady) && !LevelOf(roots, itemKey).Whole? && i < |roots|
             && Kids(roots, itemKey, k)[i].Some?
    ensures AllKeyed(Kids(roots, itemKey, k), itemKey, steady)
    ensures Tallest(Kids(roots, itemKey, k)) < Tallest(roots)
  {
    assert k in NameSet(LevelOf(roots, itemKey).children);
    BelowIsLower(roots, itemKey, k);
  }

  lemma FullKid(roots: Roots, itemKey: ItemKey, i: nat, k: string)
    requires !LevelOf(roots, itemKey).Whole? && i < |roots|
    ensures roots[i].Some? ==> FullForm(roots[i].value, itemKey).Obj?
    ensures ChildOf(FullOf(roots[i], itemKey), k) == FullOf(Kids(roots, itemKey, k)[i], itemKey)
  {
    if roots[i].Some? {
      assert roots[i] in roots;
    }
  }

  ghost predicate FormsFree(roots: Roots, at: Path, keyed: map<Path, KeyLists>, itemKey: ItemKey) {
    forall i | 0 <= i < |roots| :: FreeOfArrays(FormOf(roots[i], at, keyed, itemKey))
  }

  lemma FreeFormKid(roots: Roots, at: Path, keyed: map<Path, KeyLists>, itemKey: ItemKey, i: nat, k: string)
    requires Walked(roots, at, keyed, itemKey) && !LevelOf(roots, itemKey).Whole? && i < 3
    requires FreeOfArrays(FormOf(roots[i], at, keyed, itemKey))
    ensures FreeOfArrays(FormOf(Kids(roots, itemKey, k)[i], at + [k], keyed, itemKey))
  {
    KidForm(roots, at, keyed, itemKey, i, k);
  }

  /** With every array of the forms matched by key, the roots are keyed throughout. */
  lemma {:induction false} FormsKeyed(roots: Roots, at: Path, keyed: map<Path, KeyLists>, itemKey: ItemKey)
    requires Walked(roots, at, keyed, itemKey)
    requires FormsFree(roots, at, keyed, itemKey)
    ensures AllKeyed(roots, itemKey, false)
    decreases Tallest(roots), 1
  {
    if LevelOf(roots, itemKey).Whole? {
      forall i | 0 <= i < 3 ensures FreeOfArrays(roots[i]) {
        if roots[i].Some? {
          FitsNothing(roots[i].value, at, keyed, itemKey, 0);
        }
      }
    } else {
      forall k | k in NameSet(LevelOf(roots, itemKey).children)
        ensures AllKeyed(Kids(roots, itemKey, k), itemKey, false)
      {
        FormsKeyedBelow(roots, at, keyed, itemKey, k);
      }
    }
  }

  lemma {:induction false} FormsKeyedBelow(roots: Roots, at: Path, keyed: map<Path, KeyLists>, itemKey: ItemKey,
          k: string)
    requires Walked(roots, at, keyed, itemKey) && !LevelOf(roots, itemKey).Whole?
             && k in NameSet(LevelOf(roots, itemKey).children)
    requires FormsFree(roots, at, keyed, itemKey)
    ensures AllKeyed(Kids(roots, itemKey, k), itemKey, false)
    decreases Tallest(roots), 0
  {
    var n := SomeKid(roots, itemKey, k);
    KidWalked(roots, at, keyed, itemKey, n, k);
    forall i | 0 <= i < 3 ensures FreeOfArrays(FormOf(Kids(roots, itemKey, k)[i], at + [k], keyed, itemKey)) {
      FreeFormKid(roots, at, keyed, itemKey, i, k);
    }
    FormsKeyed(Kids(roots, itemKey, k), at + [k], keyed, itemKey);
  }

  /** The form of a root keyed throughout is the full one. */
  lemma {:induction false} FormIsFull(roots: Roots, at: Path, keyed: map<Path, KeyLists>, itemKey: ItemKey,
          steady: bool, i: nat)
    requires Walked(roots, at, keyed, itemKey) && AllKeyed(roots, itemKey, steady) && i < 3 && roots[i].Some?
    ensures Form(roots[i].value, at, keyed, itemKey) == FullForm(roots[i].value, itemKey)
    decreases Tallest(roots)
  {
    if LevelOf(roots, itemKey).Whole? {
      FitsNothing(roots[i].value, at, keyed, itemKey, 0);
      FullOfArrayFree(roots[i].value, itemKey);
    } else {
      var (form, full) := (Form(roots[i].value, at, keyed, itemKey), FullForm(roots[i].value, itemKey));
      KidForm(roots, at, keyed, itemKey, i, "");
      FullKid(roots, itemKey, i, "");
      forall k ensures Child(form, k) == Child(full, k) {
        KidForm(roots, at, keyed, itemKey, i, k);
        FullKid(roots, itemKey, i, k);
        if Kids(roots, itemKey, k)[i].Some? {
          KidWalked(roots, at, keyed, itemKey, i, k);
          KeyedKid(roots, itemKey, steady, i, k);
          FormIsFull(Kids(roots, itemKey, k), at + [k], keyed, itemKey, steady, i);
        }
      }
      EqualByFields(form, full);
    }
  }

  lemma EqualByFields(x: Json, y: Json)
    requires x.Obj? && y.Obj? && forall k :: Child(x, k) == Child(y, k)
    ensures x == y
  {
    forall k ensures k in x.fields <==> k in y.fields {
      assert Child(x, k) == Child(y, k);
    }
    forall k | k in x.fields ensures x.fields[k] == y.fields[k] {
      assert Child(x, k) == Child(y, k);
    }
    assert x.fields == y.fields;
  }

  lemma {:induction false} FreeIsKeyed(roots: Roots, itemKey: ItemKey)
    requires AllFree(roots)
    ensures AllKeyed(roots, itemKey, true)
    decreases Tallest(roots)
  {
    if !LevelOf(roots, itemKey).Whole? {
      forall k | k in NameSet(LevelOf(roots, itemKey).children)
        ensures AllKeyed(Kids(roots, itemKey, k), itemKey, true)
      {
        FreeKids(roots, itemKey, k);
        BelowIsLower(roots, itemKey, k);
        FreeIsKeyed(Kids(roots, itemKey, k), itemKey);
      }
      FreeKids(roots, itemKey, "");
    }
  }

  lemma FreeKids(roots: Roots, itemKey: ItemKey, k: string)
    requires AllFree(roots) && !LevelOf(roots, itemKey).Whole?
    ensures LevelOf(roots, itemKey).Fields? && AllFree(Kids(roots, itemKey, k))
  {
    var p :| 0 <= p < |roots| && roots[p].Some?;
    assert FreeOfArrays(roots[p]) && roots[p] in roots;
    forall i | 0 <= i < |roots| ensures FreeOfArrays(Kids(roots, itemKey, k)[i]) {
      assert FreeOfArrays(roots[i]);
    }
  }

  /** A merge of objects is one of every field, also where a side has no object at all. */
  lemma MergeOfFields(b: Option<Json>, o: Option<Json>, t: Option<Json>, m: Json, k: string)
    requires (b.Some? ==> b.value.Obj?) && (o.Some? ==> o.value.Obj?) && (t.Some? ==> t.value.Obj?)
    requires ThreeWay(b, o, t) == Holds(Some(m))
    ensures m.Obj? && ThreeWay(ChildOf(b, k), ChildOf(o, k), ChildOf(t, k)) == Holds(Child(m, k))
  {
    if IsObject(b) && IsObject(o) && IsObject(t) {
      ThreeWayHolds(b.value, o.value, t.value, k);
    } else if o == b {
      NoChange(ChildOf(b, k), ChildOf(t, k));
    } else if t == b {
      NoChange(ChildOf(b, k), ChildOf(o, k));
      Symmetric(ChildOf(b, k), ChildOf(o, k), ChildOf(t, k));
    } else {
      SameChange(ChildOf(b, k), ChildOf(o, k));
    }
  }

  lemma {:induction false} RestoresNothing(value: Json, at: Path, arrays: map<Path, KeyedArray>)
    requires forall q | q in arrays :: !(at <= q) && |arrays[q].lists| == 3
    ensures Restored(value, at, arrays) == value
  {
    if value.Obj? {
      forall k | k in value.fields ensures Restored(value.fields[k], at + [k], arrays) == value.fields[k] {
        RestoresNothing(value.fields[k], at + [k], arrays);
      }
      assert Entries(value, at, arrays) == value.fields;
      assert at <= at;
    }
  }

  // The merged array: its items by key, and its order.

  function Picked(entries: map<string, Json>, order: seq<string>): seq<Json>
    requires forall k | k in order :: k in entries
  {
    seq(|order|, i requires 0 <= i < |order| => entries[order[i]])
  }

  function Among(entries: map<string, Json>, order: seq<string>): map<string, Json> {
    map k | k in entries && k in order :: entries[k]
  }

  ghost predicate Identified(entries: map<string, Json>, itemKey: ItemKey) {
    forall k | k in entries :: itemKey(entries[k]).Some? && Prefixed(itemKey(entries[k]).value) == k
  }

  lemma {:induction false} PickedByKey(entries: map<string, Json>, order: seq<string>, itemKey: ItemKey)
    requires Identified(entries, itemKey) && Distinct(order) && forall k | k in order :: k in entries
    ensures ItemsByKey(Picked(entries, order), itemKey) == Some(KeyedItems(order, Among(entries, order)))
  {
    if order != [] {
      var (front, last) := (order[..|order| - 1], order[|order| - 1]);
      assert order == front + [last];
      DistinctFront(order);
      PickedByKey(entries, front, itemKey);
      PickedSnoc(entries, front, last);
      SnocByKey(Picked(entries, front), entries[last], itemKey);
    }
  }

  lemma PickedSnoc(entries: map<string, Json>, front: seq<string>, last: string)
    requires last in entries && forall k | k in front :: k in entries
    ensures Picked(entries, front + [last]) == Picked(entries, front) + [entries[last]]
    ensures Among(entries, front + [last]) == Among(entries, front)[last := entries[last]]
  {
  }

  lemma ArrangedByKey(entries: map<string, Json>, keyed: KeyedArray, itemKey: ItemKey)
    requires |keyed.lists| == 3 && Identified(entries, itemKey)
    requires Listing(ArrangedKeys(entries.Keys, keyed.lists, keyed.kept), entries.Keys)
    ensures ItemsByKey(Arranged(entries, keyed), itemKey)
         == Some(KeyedItems(ArrangedKeys(entries.Keys, keyed.lists, keyed.kept), entries))
  {
    var order := ArrangedKeys(entries.Keys, keyed.lists, keyed.kept);
    PickedByKey(entries, order, itemKey);
    assert Arranged(entries, keyed) == Picked(entries, order);
    assert Among(entries, order) == entries;
  }

  /** A replay on the merged order keeps it. */
  lemma RemergedOrder(lists: KeyLists, present: set<string>)
    requires Lists(lists) && KeptOrder(lists).Some?
    requires lists[0].Some? ==> lists[1].Some? && lists[2].Some?
    requires forall k :: KeepsKey(lists, present, k)
    ensures var order := ArrangedKeys(present, lists, KeptOrder(lists).value);
            Listing(order, present) && Members(order) == present && Stable([lists[0], lists[1], Some(order)])
  {
    var order := ArrangedKeys(present, lists, KeptOrder(lists).value);
    var again: KeyLists := [lists[0], lists[1], Some(order)];
    assert forall k | k in present :: KeepsKey(lists, present, k);
    PlacesEveryKeyOnce(lists, KeptOrder(lists).value, present);
    assert Members(order) == present;
    if lists[0].Some? {
      assert forall k | k in Shared(lists) :: KeepsKey(lists, present, k);
      SharedOrder(lists, present);
      assert Shared(again) == Shared(lists);
    }
    assert KeptOrder(again) == Some(order);
    KeepsKeptOrder(again, order);
  }

  lemma MergeHasId(b: Option<Json>, o: Option<Json>, t: Option<Json>, m: Json, field: string, id: string)
    requires (b.Some? ==> HasId(b.value, field, id)) && (o.Some? ==> HasId(o.value, field, id))
             && (t.Some? ==> HasId(t.value, field, id))
    requires ThreeWay(b, o, t) == Holds(Some(m))
    ensures HasId(m, field, id)
  {
    MergeOfFields(b, o, t, m, field);
  }

  // The merge again, on what it made.

  ghost predicate Merges(roots: Roots, itemKey: ItemKey, m: Option<Json>) {
    |roots| == 3
      && ThreeWay(FullOf(roots[0], itemKey), FullOf(roots[1], itemKey), FullOf(roots[2], itemKey)) == Holds(m)
  }

  lemma KidMerges(roots: Roots, itemKey: ItemKey, m: Json, k: string)
    requires Merges(roots, itemKey, Some(m)) && !LevelOf(roots, itemKey).Whole?
    ensures m.Obj? && Merges(Kids(roots, itemKey, k), itemKey, Child(m, k))
  {
    FullKid(roots, itemKey, 0, k);
    FullKid(roots, itemKey, 1, k);
    FullKid(roots, itemKey, 2, k);
    MergeOfFields(FullOf(roots[0], itemKey), FullOf(roots[1], itemKey), FullOf(roots[2], itemKey), m, k);
  }

  function Back(m: Option<Json>, at: Path, arrays: map<Path, KeyedArray>): Option<Json>
    requires forall q | q in arrays :: |arrays[q].lists| == 3
  {
    if m.Some? then Some(Restored(m.value, at, arrays)) else None
  }

  /** The roots of the replay of the same edit on what it made. */
  function Remade(roots: Roots, m: Option<Json>, at: Path, arrays: map<Path, KeyedArray>): Roots
    requires |roots| == 3 && forall q | q in arrays :: |arrays[q].lists| == 3
  {
    [roots[0], roots[1], Back(m, at, arrays)]
  }

  lemma {:induction false} AloneIsKeyed(roots: Roots, itemKey: ItemKey)
    requires |roots| == 3 && AllKeyed(roots, itemKey, false)
    ensures AllKeyed([roots[0], None, None], itemKey, true)
    decreases Tallest(roots)
  {
    var alone: Roots := [roots[0], None, None];
    if roots[0].None? || LevelOf(roots, itemKey).Whole? {
      assert roots[0].Some? ==> FreeOfArrays(roots[0]);
      FreeIsKeyed(alone, itemKey);
    } else {
      AloneLevel(roots, itemKey);
      forall k | k in NameSet(LevelOf(alone, itemKey).children)
        ensures AllKeyed(Kids(alone, itemKey, k), itemKey, true)
      {
        assert Kids(alone, itemKey, k) == [Kids(roots, itemKey, k)[0], None, None];
        KeyedKid(roots, itemKey, false, 0, k);
        AloneIsKeyed(Kids(roots, itemKey, k), itemKey);
      }
    }
  }

  lemma AloneLevel(roots: Roots, itemKey: ItemKey)
    requires |roots| == 3 && roots[0].Some? && !LevelOf(roots, itemKey).Whole?
    ensures var level := LevelOf([roots[0], None, None], itemKey);
            && !level.Whole? && level.children == [LevelOf(roots, itemKey).children[0], None, None]
            && (level.Items? ==> Stable(level.lists))
  {
    var alone: Roots := [roots[0], None, None];
    assert roots[0] in roots && alone[0] in alone;
    if LevelOf(roots, itemKey).Items? {
      ItemsHeld(roots, itemKey, 0);
      AloneItems(roots[0], itemKey);
      AloneStable(roots[0], itemKey);
    } else {
      assert AllObjects(alone);
    }
  }

  lemma AloneItems(root: Option<Json>, itemKey: ItemKey)
    requires root.Some? && root.value.Arr? && Keyed(root, itemKey).Some?
    ensures LevelOf([root, None, None], itemKey)
         == Items([ItemMap(root, itemKey), None, None], [ItemList(root, itemKey), None, None])
  {
    var alone: Roots := [root, None, None];
    assert alone[0] in alone;
    forall r | r in alone && r.Some? ensures r == root {
    }
    assert AllArrays(alone);
  }

  lemma AloneStable(root: Option<Json>, itemKey: ItemKey)
    requires LevelOf([root, None, None], itemKey).Items?
    ensures Stable(LevelOf([root, None, None], itemKey).lists)
  {
    LevelLists([root, None, None], itemKey);
    assert LevelOf([root, None, None], itemKey).lists == [ItemList(root, itemKey), None, None];
  }

  /** What a replay by key knows of its arrays at `at`: their keys, none of whose orders clash. */
  ghost predicate Replayable(roots: Roots, at: Path, keyed: map<Path, KeyLists>, itemKey: ItemKey) {
    && Walked(roots, at, keyed, itemKey) && AllKeyed(roots, itemKey, false)
    && AllLists(keyed) && !OrderClash(keyed)
  }

  lemma ReplayableKid(roots: Roots, at: Path, keyed: map<Path, KeyLists>, itemKey: ItemKey, i: nat, k: string)
    requires Replayable(roots, at, keyed, itemKey) && !LevelOf(roots, itemKey).Whole? && i < 3
             && Kids(roots, itemKey, k)[i].Some?
    ensures Replayable(Kids(roots, itemKey, k), at + [k], keyed, itemKey)
    ensures Tallest(Kids(roots, itemKey, k)) < Tallest(roots)
  {
    KidWalked(roots, at, keyed, itemKey, i, k);
    KeyedKid(roots, itemKey, false, i, k);
  }

  lemma {:induction false} AbsentIsKeyed(roots: Roots, at: Path, keyed: map<Path, KeyLists>, itemKey: ItemKey)
    requires Replayable(roots, at, keyed, itemKey) && roots[2].None?
    ensures AllKeyed(roots, itemKey, true)
    decreases Tallest(roots), 1
  {
    if !LevelOf(roots, itemKey).Whole? {
      AbsentStable(roots, at, keyed, itemKey);
      forall k | k in NameSet(LevelOf(roots, itemKey).children)
        ensures AllKeyed(Kids(roots, itemKey, k), itemKey, true)
      {
        AbsentBelow(roots, at, keyed, itemKey, k);
      }
    }
  }

  lemma AbsentStable(roots: Roots, at: Path, keyed: map<Path, KeyLists>, itemKey: ItemKey)
    requires Replayable(roots, at, keyed, itemKey) && roots[2].None?
    ensures LevelOf(roots, itemKey).Items? ==> Stable(LevelOf(roots, itemKey).lists)
  {
    WalkedHere(roots, at, keyed, itemKey);
    if LevelOf(roots, itemKey).Items? {
      LevelKeys(roots, itemKey, 2);
      assert Lists(keyed[at]);
    }
  }

  lemma {:induction false} AbsentBelow(roots: Roots, at: Path, keyed: map<Path, KeyLists>, itemKey: ItemKey, k: string)
    requires Replayable(roots, at, keyed, itemKey) && roots[2].None?
    requires !LevelOf(roots, itemKey).Whole? && k in NameSet(LevelOf(roots, itemKey).children)
    ensures AllKeyed(Kids(roots, itemKey, k), itemKey, true)
    decreases Tallest(roots), 0
  {
    var n := SomeKid(roots, itemKey, k);
    ReplayableKid(roots, at, keyed, itemKey, n, k);
    KidForm(roots, at, keyed, itemKey, 2, k);
    AbsentIsKeyed(Kids(roots, itemKey, k), at + [k], keyed, itemKey);
  }

  lemma ListedKid(roots: Roots, itemKey: ItemKey, i: nat, k: string)
    requires LevelOf(roots, itemKey).Items? && i < |roots|
    ensures k in ListOr(LevelOf(roots, itemKey).lists[i]) <==> Kids(roots, itemKey, k)[i].Some?
  {
    var level := LevelOf(roots, itemKey);
    LevelKeys(roots, itemKey, i);
    if roots[i].Some? {
      assert k in Members(level.lists[i].value) <==> k in level.children[i].value;
    }
  }

  /** Where a merge can hold something, given which of its three sides do. */
  lemma MergePresence(b: Option<Json>, o: Option<Json>, t: Option<Json>)
    requires ThreeWay(b, o, t).Holds?
    ensures ThreeWay(b, o, t).value.Some? ==> (o.Some? || t.Some?) && (b.Some? ==> o.Some? && t.Some?)
    ensures o.Some? && t.Some? ==> ThreeWay(b, o, t).value.Some?
  {
  }

  /** The keys that an array's merge keeps: of those the base holds, the ones both sides do. */
  ghost predicate KeepsKey(lists: KeyLists, keys: set<string>, k: string)
    requires |lists| == 3
  {
    && (k in keys ==> k in ListOr(lists[1]) || k in ListOr(lists[2]))
    && (k in keys && k in ListOr(lists[0]) ==> k in ListOr(lists[1]) && k in ListOr(lists[2]))
    && (k in ListOr(lists[0]) && k in ListOr(lists[1]) && k in ListOr(lists[2]) ==> k in keys)
  }

  lemma MergeKeepsKey(roots: Roots, itemKey: ItemKey, m: Json, k: string)
    requires LevelOf(roots, itemKey).Items? && Merges(roots, itemKey, Some(m))
    ensures m.Obj? && |LevelOf(roots, itemKey).lists| == 3 && KeepsKey(LevelOf(roots, itemKey).lists, m.fields.Keys, k)
  {
    KidMerges(roots, itemKey, m, k);
    var kids := Kids(roots, itemKey, k);
    MergePresence(FullOf(kids[0], itemKey), FullOf(kids[1], itemKey), FullOf(kids[2], itemKey));
    ListedKid(roots, itemKey, 0, k);
    ListedKid(roots, itemKey, 1, k);
    ListedKid(roots, itemKey, 2, k);
  }

  lemma MergeKeepsLists(roots: Roots, itemKey: ItemKey, m: Json)
    requires LevelOf(roots, itemKey).Items? && Merges(roots, itemKey, Some(m))
    ensures var lists := LevelOf(roots, itemKey).lists;
            |lists| == 3 && (lists[0].Some? ==> lists[1].Some? && lists[2].Some?)
  {
    MergePresence(FullOf(roots[0], itemKey), FullOf(roots[1], itemKey), FullOf(roots[2], itemKey));
    LevelKeys(roots, itemKey, 0);
    LevelKeys(roots, itemKey, 1);
    LevelKeys(roots, itemKey, 2);
  }

  lemma KidHasId(roots: Roots, field: string, i: nat, k: string)
    requires LevelOf(roots, ByField(field)).Items? && i < |roots| && Kids(roots, ByField(field), k)[i].Some?
    ensures k != [] && HasId(Kids(roots, ByField(field), k)[i].value, field, k[1..])
    ensures HasId(FullForm(Kids(roots, ByField(field), k)[i].value, ByField(field)), field, k[1..])
  {
    var (itemKey, item) := (ByField(field), Kids(roots, ByField(field), k)[i].value);
    assert LevelOf(roots, itemKey).children[i] == ItemMap(roots[i], itemKey);
    ItemsCarryKeys(roots[i].value.items, itemKey);
    assert itemKey(item).Some? && Prefixed(itemKey(item).value) == k;
    ChildIsLower(item, itemKey, field);
    assert FullForm(item.fields[field], itemKey) == item.fields[field];
  }

  lemma MergedHasId(roots: Roots, field: string, m: Json, k: string)
    requires LevelOf(roots, ByField(field)).Items? && Merges(roots, ByField(field), Some(m)) && m.Obj? && k in m.fields
    ensures k != [] && HasId(m.fields[k], field, k[1..]) && Prefixed(k[1..]) == k
    ensures exists i ::
            0 <= i < 3 && Kids(roots, ByField(field), k)[i].Some? && Kids(roots, ByField(field), k)[i].value.Obj?
  {
    var kids := Kids(roots, ByField(field), k);
    KidMerges(roots, ByField(field), m, k);
    MergePresence(FullOf(kids[0], ByField(field)), FullOf(kids[1], ByField(field)), FullOf(kids[2], ByField(field)));
    forall i | 0 <= i < 3 && kids[i].Some?
      ensures k != [] && HasId(kids[i].value, field, k[1..])
              && HasId(FullForm(kids[i].value, ByField(field)), field, k[1..])
    {
      KidHasId(roots, field, i, k);
    }
    var n := if kids[1].Some? then 1 else 2;
    assert kids[n].Some?;
    MergedKeyed(roots, field, m, k, n);
    MergeHasId(FullOf(kids[0], ByField(field)), FullOf(kids[1], ByField(field)), FullOf(kids[2], ByField(field)),
      m.fields[k], field, k[1..]);
  }

  lemma MergedKeyed(roots: Roots, field: string, m: Json, k: string, i: nat)
    requires LevelOf(roots, ByField(field)).Items? && i < |roots| && Kids(roots, ByField(field), k)[i].Some?
    ensures k != [] && Prefixed(k[1..]) == k
  {
    var (itemKey, item) := (ByField(field), Kids(roots, ByField(field), k)[i].value);
    assert LevelOf(roots, itemKey).children[i] == ItemMap(roots[i], itemKey);
    ItemsCarryKeys(roots[i].value.items, itemKey);
    assert Prefixed(itemKey(item).value) == k;
  }

  lemma ObjectNotKeyed(roots: Roots, at: Path, keyed: map<Path, KeyLists>, itemKey: ItemKey, i: nat, k: string)
    requires Walked(roots, at, keyed, itemKey) && !LevelOf(roots, itemKey).Whole?
    requires i < 3 && Kids(roots, itemKey, k)[i].Some? && Kids(roots, itemKey, k)[i].value.Obj?
    ensures at + [k] !in keyed
  {
    var kids := Kids(roots, itemKey, k);
    KidWalked(roots, at, keyed, itemKey, i, k);
    WalkedHere(kids, at + [k], keyed, itemKey);
    assert kids[i] in kids;
  }

  lemma RestoredHasId(value: Json, at: Path, arrays: map<Path, KeyedArray>, field: string, id: string)
    requires (forall q | q in arrays :: |arrays[q].lists| == 3) && at !in arrays && HasId(value, field, id)
    ensures HasId(Restored(value, at, arrays), field, id)
  {
    assert Entries(value, at, arrays)[field] == Restored(Str(id), at + [field], arrays);
  }

  lemma IdIsKey(item: Json, field: string, id: string)
    requires HasId(item, field, id)
    ensures ByField(field)(item) == Some(id)
  {
  }

  lemma EntriesIdentified(roots: Roots, at: Path, keyed: map<Path, KeyLists>, field: string, m: Json,
          arrays: map<Path, KeyedArray>)
    requires Walked(roots, at, keyed, ByField(field)) && arrays.Keys == keyed.Keys
             && forall q | q in arrays :: |arrays[q].lists| == 3
    requires LevelOf(roots, ByField(field)).Items? && Merges(roots, ByField(field), Some(m)) && m.Obj?
    ensures Identified(Entries(m, at, arrays), ByField(field))
  {
    var entries := Entries(m, at, arrays);
    forall k | k in entries
      ensures ByField(field)(entries[k]).Some? && Prefixed(ByField(field)(entries[k]).value) == k
    {
      EntryHasId(roots, at, keyed, field, m, arrays, k);
      IdIsKey(entries[k], field, k[1..]);
    }
  }

  lemma EntryHasId(roots: Roots, at: Path, keyed: map<Path, KeyLists>, field: string, m: Json,
          arrays: map<Path, KeyedArray>, k: string)
    requires Walked(roots, at, keyed, ByField(field)) && arrays.Keys == keyed.Keys
             && forall q | q in arrays :: |arrays[q].lists| == 3
    requires LevelOf(roots, ByField(field)).Items? && Merges(roots, ByField(field), Some(m)) && m.Obj? && k in m.fields
    ensures k != [] && Prefixed(k[1..]) == k && HasId(Restored(m.fields[k], at + [k], arrays), field, k[1..])
  {
    MergedHasId(roots, field, m, k);
    var i :| 0 <= i < 3 && Kids(roots, ByField(field), k)[i].Some? && Kids(roots, ByField(field), k)[i].value.Obj?;
    ObjectNotKeyed(roots, at, keyed, ByField(field), i, k);
    RestoredHasId(m.fields[k], at + [k], arrays, field, k[1..]);
  }

  lemma RestoredItems(roots: Roots, at: Path, keyed: map<Path, KeyLists>, itemKey: ItemKey, m: Json)
    requires Replayable(roots, at, keyed, itemKey) && LevelOf(roots, itemKey).Items? && m.Obj?
    ensures var (lists, arrays) := (LevelOf(roots, itemKey).lists, KeptArrays(keyed));
            && Lists(lists) && KeptOrder(lists).Some?
            && Restored(m, at, arrays)
              == Arr(Arranged(Entries(m, at, arrays), KeyedArray(lists, KeptOrder(lists).value)))
  {
    WalkedHere(roots, at, keyed, itemKey);
    assert Lists(keyed[at]);
  }

  lemma MergedOrder(roots: Roots, itemKey: ItemKey, m: Json)
    requires LevelOf(roots, itemKey).Items? && Merges(roots, itemKey, Some(m)) && m.Obj?
    requires Lists(LevelOf(roots, itemKey).lists) && KeptOrder(LevelOf(roots, itemKey).lists).Some?
    ensures var lists := LevelOf(roots, itemKey).lists;
            var order := ArrangedKeys(m.fields.Keys, lists, KeptOrder(lists).value);
            Listing(order, m.fields.Keys) && Stable([lists[0], lists[1], Some(order)])
  {
    var lists := LevelOf(roots, itemKey).lists;
    forall k ensures KeepsKey(lists, m.fields.Keys, k) {
      MergeKeepsKey(roots, itemKey, m, k);
    }
    MergeKeepsLists(roots, itemKey, m);
    RemergedOrder(lists, m.fields.Keys);
  }

  lemma RemadeItems(roots: Roots, at: Path, keyed: map<Path, KeyLists>, field: string, m: Json)
    requires Replayable(roots, at, keyed, ByField(field))
    requires LevelOf(roots, ByField(field)).Items? && Merges(roots, ByField(field), Some(m)) && m.Obj?
    ensures var (was, level) := (LevelOf(roots, ByField(field)),
            LevelOf(Remade(roots, Some(m), at, KeptArrays(keyed)), ByField(field)));
            && level.Items? && Stable(level.lists)
            && level.children == [was.children[0], was.children[1], Some(Entries(m, at, KeptArrays(keyed)))]
            && |was.lists| == 3 && KeptOrder(was.lists).Some?
            && level.lists
              == [was.lists[0], was.lists[1], Some(ArrangedKeys(m.fields.Keys, was.lists, KeptOrder(was.lists).value))]
  {
    var (itemKey, was, arrays) := (ByField(field), LevelOf(roots, ByField(field)), KeptArrays(keyed));
    var entries := Entries(m, at, arrays);
    assert entries.Keys == m.fields.Keys;
    RestoredItems(roots, at, keyed, itemKey, m);
    EntriesIdentified(roots, at, keyed, field, m, arrays);
    MergedOrder(roots, itemKey, m);
    ArrangedByKey(entries, KeyedArray(was.lists, KeptOrder(was.lists).value), itemKey);
    RemadeItemLevel(roots, itemKey, Arr(Arranged(entries, KeyedArray(was.lists, KeptOrder(was.lists).value))));
  }

  /** The level of the roots once an array keyed throughout stands third. */
  lemma RemadeItemLevel(roots: Roots, itemKey: ItemKey, made: Json)
    requires |roots| == 3 && LevelOf(roots, itemKey).Items? && made.Arr? && ItemsByKey(made.items, itemKey).Some?
    ensures var (was, level, items) := (LevelOf(roots, itemKey), LevelOf([roots[0], roots[1], Some(made)], itemKey),
            ItemsByKey(made.items, itemKey).value);
            level == Items([was.children[0], was.children[1], Some(items.items)],
              [was.lists[0], was.lists[1], Some(items.keys)])
  {
    ItemsHeld(roots, itemKey, 0);
    ItemsHeld(roots, itemKey, 1);
    ThreeItems(roots[0], roots[1], Some(made), itemKey);
  }

  lemma ThreeMaps(a: Option<Json>, b: Option<Json>, c: Option<Json>, itemKey: ItemKey)
    ensures ItemMaps([a, b, c], itemKey) == [ItemMap(a, itemKey), ItemMap(b, itemKey), ItemMap(c, itemKey)]
    ensures ItemLists([a, b, c], itemKey) == [ItemList(a, itemKey), ItemList(b, itemKey), ItemList(c, itemKey)]
  {
  }

  lemma ThreeItems(a: Option<Json>, b: Option<Json>, c: Option<Json>, itemKey: ItemKey)
    requires a.Some? ==> a.value.Arr? && Keyed(a, itemKey).Some?
    requires b.Some? ==> b.value.Arr? && Keyed(b, itemKey).Some?
    requires c.Some? && c.value.Arr? && Keyed(c, itemKey).Some?
    ensures LevelOf([a, b, c], itemKey)
         == Items([ItemMap(a, itemKey), ItemMap(b, itemKey), ItemMap(c, itemKey)],
                  [ItemList(a, itemKey), ItemList(b, itemKey), ItemList(c, itemKey)])
  {
    var roots: Roots := [a, b, c];
    assert roots[2] in roots;
    forall root | root in roots && root.Some? ensures root.value.Arr? && Keyed(root, itemKey).Some? {
      assert root == a || root == b || root == c;
    }
    assert AllArrays(roots);
    ThreeMaps(a, b, c, itemKey);
  }

  lemma RemadeFieldLevel(roots: Roots, itemKey: ItemKey, made: Json)
    requires |roots| == 3 && LevelOf(roots, itemKey).Fields? && made.Obj?
    ensures var (was, level) := (LevelOf(roots, itemKey), LevelOf([roots[0], roots[1], Some(made)], itemKey));
            level == Fields([was.children[0], was.children[1], Some(made.fields)])
  {
    var again: Roots := [roots[0], roots[1], Some(made)];
    assert again[2] in again && roots[0] in roots && roots[1] in roots;
    assert AllObjects(again);
    assert again[2].value.Obj? && !AllArrays(again);
  }

  lemma RemadeFields(roots: Roots, at: Path, keyed: map<Path, KeyLists>, itemKey: ItemKey, m: Json)
    requires Replayable(roots, at, keyed, itemKey) && LevelOf(roots, itemKey).Fields? && m.Obj?
    ensures var (was, level) := (LevelOf(roots, itemKey),
            LevelOf(Remade(roots, Some(m), at, KeptArrays(keyed)), itemKey));
            level == Fields([was.children[0], was.children[1], Some(Entries(m, at, KeptArrays(keyed)))])
  {
    WalkedHere(roots, at, keyed, itemKey);
    assert Restored(m, at, KeptArrays(keyed)) == Obj(Entries(m, at, KeptArrays(keyed)));
    RemadeFieldLevel(roots, itemKey, Restored(m, at, KeptArrays(keyed)));
  }

  /** The made root is keyed with the others, in settled orders, and its object form is the merge. */
  ghost predicate Remerges(roots: Roots, at: Path, keyed: map<Path, KeyLists>, itemKey: ItemKey, m: Option<Json>)
    requires |roots| == 3 && AllLists(keyed) && !OrderClash(keyed)
  {
    var again := Remade(roots, m, at, KeptArrays(keyed));
    AllKeyed(again, itemKey, true) && FullOf(again[2], itemKey) == m
  }

  lemma RemergeWhole(roots: Roots, at: Path, keyed: map<Path, KeyLists>, itemKey: ItemKey, m: Option<Json>)
    requires Replayable(roots, at, keyed, itemKey) && Merges(roots, itemKey, m) && LevelOf(roots, itemKey).Whole?
    ensures Remerges(roots, at, keyed, itemKey, m)
  {
    forall i | 0 <= i < 3 ensures FreeOfArrays(roots[i]) && FullOf(roots[i], itemKey) == roots[i] {
      if roots[i].Some? {
        FullOfArrayFree(roots[i].value, itemKey);
      }
    }
    MergeArrayFree(roots[0], roots[1], roots[2]);
    if m.Some? {
      RestoresNothing(m.value, at, KeptArrays(keyed));
      FullOfArrayFree(m.value, itemKey);
    }
    FreeIsKeyed(Remade(roots, m, at, KeptArrays(keyed)), itemKey);
  }

  lemma RemergeGone(roots: Roots, at: Path, keyed: map<Path, KeyLists>, itemKey: ItemKey)
    requires Replayable(roots, at, keyed, itemKey) && Merges(roots, itemKey, None)
    ensures Remerges(roots, at, keyed, itemKey, None)
  {
    var again := Remade(roots, None, at, KeptArrays(keyed));
    if roots[2].None? {
      AbsentIsKeyed(roots, at, keyed, itemKey);
      assert again == roots;
    } else {
      GoneHere(roots, itemKey);
      AloneIsKeyed(roots, itemKey);
      assert again == [roots[0], None, None];
    }
  }

  lemma GoneHere(roots: Roots, itemKey: ItemKey)
    requires Merges(roots, itemKey, None) && roots[2].Some?
    ensures roots[1].None?
  {
    MergePresence(FullOf(roots[0], itemKey), FullOf(roots[1], itemKey), FullOf(roots[2], itemKey));
  }

  lemma RemadeLevel(roots: Roots, at: Path, keyed: map<Path, KeyLists>, field: string, m: Json)
    requires Replayable(roots, at, keyed, ByField(field)) && Merges(roots, ByField(field), Some(m))
             && !LevelOf(roots, ByField(field)).Whole?
    ensures m.Obj?
    ensures var (was, level) := (LevelOf(roots, ByField(field)),
            LevelOf(Remade(roots, Some(m), at, KeptArrays(keyed)), ByField(field)));
            && !level.Whole? && (level.Items? ==> Stable(level.lists))
            && level.children == [was.children[0], was.children[1], Some(Entries(m, at, KeptArrays(keyed)))]
  {
    KidMerges(roots, ByField(field), m, "");
    if LevelOf(roots, ByField(field)).Items? {
      RemadeItems(roots, at, keyed, field, m);
    } else {
      RemadeFields(roots, at, keyed, ByField(field), m);
    }
  }

  lemma RemadeKid(roots: Roots, at: Path, keyed: map<Path, KeyLists>, field: string, m: Json, k: string)
    requires Replayable(roots, at, keyed, ByField(field)) && Merges(roots, ByField(field), Some(m))
             && !LevelOf(roots, ByField(field)).Whole?
    ensures m.Obj?
    ensures var again := Remade(roots, Some(m), at, KeptArrays(keyed));
            && !LevelOf(again, ByField(field)).Whole?
            && Kids(again, ByField(field), k)
              == Remade(Kids(roots, ByField(field), k), Child(m, k), at + [k], KeptArrays(keyed))
  {
    RemadeLevel(roots, at, keyed, field, m);
    BelowMade(LevelOf(roots, ByField(field)).children, Entries(m, at, KeptArrays(keyed)), k);
    EntryBack(m, at, KeptArrays(keyed), k);
  }

  lemma BelowMade(children: seq<Option<map<string, Json>>>, entries: map<string, Json>, k: string)
    requires |children| == 3
    ensures Below([children[0], children[1], Some(entries)], k)
         == [Below(children, k)[0], Below(children, k)[1], if k in entries then Some(entries[k]) else None]
  {
  }

  lemma EntryBack(m: Json, at: Path, arrays: map<Path, KeyedArray>, k: string)
    requires m.Obj? && forall q | q in arrays :: |arrays[q].lists| == 3
    ensures Back(Child(m, k), at + [k], arrays)
         == if k in Entries(m, at, arrays) then Some(Entries(m, at, arrays)[k]) else None
  {
  }

  lemma {:induction false} Remerge(roots: Roots, at: Path, keyed: map<Path, KeyLists>, field: string, m: Option<Json>)
    requires Replayable(roots, at, keyed, ByField(field)) && Merges(roots, ByField(field), m)
    ensures Remerges(roots, at, keyed, ByField(field), m)
    decreases Tallest(roots), 2
  {
    if LevelOf(roots, ByField(field)).Whole? {
      RemergeWhole(roots, at, keyed, ByField(field), m);
    } else if m.None? {
      RemergeGone(roots, at, keyed, ByField(field));
    } else {
      RemergeBelow(roots, at, keyed, field, m.value);
    }
  }

  lemma {:induction false} RemergeBelow(roots: Roots, at: Path, keyed: map<Path, KeyLists>, field: string, m: Json)
    requires Replayable(roots, at, keyed, ByField(field)) && Merges(roots, ByField(field), Some(m))
             && !LevelOf(roots, ByField(field)).Whole?
    ensures Remerges(roots, at, keyed, ByField(field), Some(m))
    decreases Tallest(roots), 1
  {
    var (itemKey, again) := (ByField(field), Remade(roots, Some(m), at, KeptArrays(keyed)));
    RemadeLevel(roots, at, keyed, field, m);
    forall k
      ensures AllKeyed(Kids(again, itemKey, k), itemKey, true)
      ensures FullOf(Kids(again, itemKey, k)[2], itemKey) == Child(m, k)
    {
      RemergeKid(roots, at, keyed, field, m, k);
    }
    MadeForm(again, itemKey, m);
    KeyedBelow(again, itemKey);
  }

  lemma KeyedBelow(roots: Roots, itemKey: ItemKey)
    requires !LevelOf(roots, itemKey).Whole?
             && (LevelOf(roots, itemKey).Items? ==> Stable(LevelOf(roots, itemKey).lists))
    requires forall k :: AllKeyed(Kids(roots, itemKey, k), itemKey, true)
    ensures AllKeyed(roots, itemKey, true)
  {
    forall k | k in NameSet(LevelOf(roots, itemKey).children)
      ensures AllKeyed(Below(LevelOf(roots, itemKey).children, k), itemKey, true)
    {
      assert AllKeyed(Kids(roots, itemKey, k), itemKey, true);
    }
  }

  lemma MadeForm(roots: Roots, itemKey: ItemKey, m: Json)
    requires |roots| == 3 && !LevelOf(roots, itemKey).Whole? && roots[2].Some? && m.Obj?
    requires forall k :: FullOf(Kids(roots, itemKey, k)[2], itemKey) == Child(m, k)
    ensures FullForm(roots[2].value, itemKey) == m
  {
    FullKid(roots, itemKey, 2, "");
    forall k ensures Child(FullForm(roots[2].value, itemKey), k) == Child(m, k) {
      FullKid(roots, itemKey, 2, k);
    }
    EqualByFields(FullForm(roots[2].value, itemKey), m);
  }

  lemma {:induction false} RemergeKid(roots: Roots, at: Path, keyed: map<Path, KeyLists>, field: string, m: Json,
          k: string)
    requires Replayable(roots, at, keyed, ByField(field)) && Merges(roots, ByField(field), Some(m))
             && !LevelOf(roots, ByField(field)).Whole?
    ensures m.Obj?
    ensures var again := Remade(roots, Some(m), at, KeptArrays(keyed));
            && !LevelOf(again, ByField(field)).Whole?
            && AllKeyed(Kids(again, ByField(field), k), ByField(field), true)
            && FullOf(Kids(again, ByField(field), k)[2], ByField(field)) == Child(m, k)
    decreases Tallest(roots), 0
  {
    var kids := Kids(roots, ByField(field), k);
    RemadeKid(roots, at, keyed, field, m, k);
    KidMerges(roots, ByField(field), m, k);
    if kids[0].Some? || kids[1].Some? || kids[2].Some? {
      var n := if kids[0].Some? then 0 else if kids[1].Some? then 1 else 2;
      ReplayableKid(roots, at, keyed, ByField(field), n, k);
      Remerge(kids, at + [k], keyed, field, Child(m, k));
    } else {
      RemergeNothing(kids, at + [k], keyed, ByField(field), Child(m, k));
    }
  }

  lemma RemergeNothing(roots: Roots, at: Path, keyed: map<Path, KeyLists>, itemKey: ItemKey, m: Option<Json>)
    requires |roots| == 3 && roots[0].None? && roots[1].None? && roots[2].None? && Merges(roots, itemKey, m)
    requires AllLists(keyed) && !OrderClash(keyed)
    ensures Remerges(roots, at, keyed, itemKey, m)
  {
    FreeIsKeyed(Remade(roots, m, at, KeptArrays(keyed)), itemKey);
  }

  lemma {:induction false} KeyedFound(roots: Roots, at: Path, itemKey: ItemKey, q: Path)
    requires AllKeyed(roots, itemKey, true) && q in KeyedArraysOf(roots, at, itemKey)
    ensures Stable(KeyedArraysOf(roots, at, itemKey)[q])
    decreases Tallest(roots)
  {
    if q == at {
      FoundHere(roots, at, itemKey);
    } else {
      var k := q[|at|];
      FoundAt(roots, at, itemKey, q);
      BelowIsLower(roots, itemKey, k);
      KeyedFound(Below(LevelOf(roots, itemKey).children, k), at + [k], itemKey, q);
      assert KeyedArraysOf(roots, at, itemKey)[q]
          == KeyedArraysOf(Below(LevelOf(roots, itemKey).children, k), at + [k], itemKey)[q];
    }
  }

  // Edits replayed twice.

  /** Every array of the three documents is matched by its items' text in `field`. */
  ghost predicate KeyedThroughout(field: string, base: Json, ours: Json, theirs: Json) {
    FormsFree(ThreeRoots(base, ours, theirs), [], KeyedIn(base, ours, theirs, ByField(field)), ByField(field))
  }

  lemma ThreeForms(base: Json, ours: Json, theirs: Json, itemKey: ItemKey, steady: bool)
    requires AllKeyed(ThreeRoots(base, ours, theirs), itemKey, steady)
    ensures var keyed := KeyedIn(base, ours, theirs, itemKey);
            && Walked(ThreeRoots(base, ours, theirs), [], keyed, itemKey)
            && Form(base, [], keyed, itemKey) == FullForm(base, itemKey)
            && Form(ours, [], keyed, itemKey) == FullForm(ours, itemKey)
            && Form(theirs, [], keyed, itemKey) == FullForm(theirs, itemKey)
  {
    var (roots, keyed) := (ThreeRoots(base, ours, theirs), KeyedIn(base, ours, theirs, itemKey));
    FormIsFull(roots, [], keyed, itemKey, steady, 0);
    FormIsFull(roots, [], keyed, itemKey, steady, 1);
    FormIsFull(roots, [], keyed, itemKey, steady, 2);
  }

  lemma FullFormsFree(base: Json, ours: Json, theirs: Json, field: string)
    requires KeyedThroughout(field, base, ours, theirs)
    ensures var (itemKey, keyed) := (ByField(field), KeyedIn(base, ours, theirs, ByField(field)));
            && AllKeyed(ThreeRoots(base, ours, theirs), itemKey, false)
            && Form(base, [], keyed, itemKey) == FullForm(base, itemKey) && ArrayFree(FullForm(base, itemKey))
            && Form(ours, [], keyed, itemKey) == FullForm(ours, itemKey) && ArrayFree(FullForm(ours, itemKey))
            && Form(theirs, [], keyed, itemKey) == FullForm(theirs, itemKey) && ArrayFree(FullForm(theirs, itemKey))
  {
    var (itemKey, roots) := (ByField(field), ThreeRoots(base, ours, theirs));
    var keyed := KeyedIn(base, ours, theirs, itemKey);
    FormsKeyed(roots, [], keyed, itemKey);
    ThreeForms(base, ours, theirs, itemKey, false);
    assert FreeOfArrays(FormOf(roots[0], [], keyed, itemKey)) && FreeOfArrays(FormOf(roots[1], [], keyed, itemKey));
    assert FreeOfArrays(FormOf(roots[2], [], keyed, itemKey));
  }

  /** The replay made its root from the merge of the object forms. */
  lemma MadeFrom(ord: KeyOrder, before: Json, after: Json, root: Json, field: string) returns (m: Json)
    requires before.Obj? && after.Obj? && root.Obj? && KeyedThroughout(field, before, after, root)
    requires ReplayByKey(ord, before, after, root, ByField(field)).Merged?
    ensures var (itemKey, roots) := (ByField(field), ThreeRoots(before, after, root));
            var keyed := KeyedIn(before, after, root, itemKey);
            && Replayable(roots, [], keyed, itemKey) && Merges(roots, itemKey, Some(m))
            && Remade(roots, Some(m), [], KeptArrays(keyed))
              == ThreeRoots(before, after, ReplayByKey(ord, before, after, root, itemKey).merged)
  {
    var (itemKey, roots) := (ByField(field), ThreeRoots(before, after, root));
    var keyed := KeyedIn(before, after, root, itemKey);
    FullFormsFree(before, after, root, field);
    var (b, o, t) := (FullForm(before, itemKey), FullForm(after, itemKey), FullForm(root, itemKey));
    ReplayByKeyIsThreeWay(ord, before, after, root, itemKey);
    m := ThreeWayObject(b, o, t).value.value;
    assert ThreeWay(Some(b), Some(o), Some(t)) == Holds(Some(m));
  }

  /**
   * What the replay made of documents keyed throughout is a root to replay on again, and its object form is the merge.
   */
  lemma ReplayMakesMerge(ord: KeyOrder, base: Json, ours: Json, theirs: Json, field: string)
    requires base.Obj? && ours.Obj? && theirs.Obj? && KeyedThroughout(field, base, ours, theirs)
    requires ReplayByKey(ord, base, ours, theirs, ByField(field)).Merged?
    ensures var made := ReplayByKey(ord, base, ours, theirs, ByField(field)).merged;
            && made.Obj?
            && AllKeyed(ThreeRoots(base, ours, made), ByField(field), true)
            && ThreeWayObject(FullForm(base, ByField(field)), FullForm(ours, ByField(field)),
              FullForm(theirs, ByField(field)))
               == Holds(Some(FullForm(made, ByField(field))))
            && ArrayFree(FullForm(base, ByField(field))) && ArrayFree(FullForm(ours, ByField(field)))
            && ArrayFree(FullForm(made, ByField(field)))
  {
    var (itemKey, roots) := (ByField(field), ThreeRoots(base, ours, theirs));
    var keyed := KeyedIn(base, ours, theirs, itemKey);
    var m := MadeFrom(ord, base, ours, theirs, field);
    FullFormsFree(base, ours, theirs, field);
    MergeArrayFree(FullOf(roots[0], itemKey), FullOf(roots[1], itemKey), FullOf(roots[2], itemKey));
    Remerge(roots, [], keyed, field, Some(m));
    ObjectRestored(roots, keyed, itemKey, m);
  }

  lemma ObjectRestored(roots: Roots, keyed: map<Path, KeyLists>, itemKey: ItemKey, m: Json)
    requires Walked(roots, [], keyed, itemKey) && AllLists(keyed) && !OrderClash(keyed)
    requires roots[0].Some? && roots[0].value.Obj? && m.Obj?
    ensures Restored(m, [], KeptArrays(keyed)).Obj?
  {
    RootNotKeyed(roots, keyed, itemKey);
  }

  lemma RootNotKeyed(roots: Roots, keyed: map<Path, KeyLists>, itemKey: ItemKey)
    requires Walked(roots, [], keyed, itemKey) && roots[0].Some? && roots[0].value.Obj?
    ensures [] !in keyed
  {
    WalkedHere(roots, [], keyed, itemKey);
    assert roots[0] in roots;
  }

  /** Replayed on what it made, an edit of documents keyed throughout finds nothing left to write. */
  lemma ReplayByIdOnce(ord: KeyOrder, base: Json, ours: Json, theirs: Json, field: string)
    requires base.Obj? && ours.Obj? && theirs.Obj? && KeyedThroughout(field, base, ours, theirs)
    requires ReplayByKey(ord, base, ours, theirs, ByField(field)).Merged?
    ensures var made := ReplayByKey(ord, base, ours, theirs, ByField(field)).merged;
            ReplayByKey(ord, base, ours, made, ByField(field)) == AlreadyApplied(made)
  {
    ReplayMakesMerge(ord, base, ours, theirs, field);
    var (itemKey, made) := (ByField(field), ReplayByKey(ord, base, ours, theirs, ByField(field)).merged);
    var (b, o, t, m) := (FullForm(base, itemKey), FullForm(ours, itemKey), FullForm(theirs, itemKey),
      FullForm(made, itemKey));
    assert ThreeWay(Some(b), Some(o), Some(t)) == Holds(Some(m));
    Idempotent(Some(b), Some(o), Some(t));
    assert ThreeWayObject(b, o, m) == Holds(Some(m));
    ReplayOnSettled(ord, base, ours, made, itemKey);
  }

  lemma ReplayOnSettled(ord: KeyOrder, base: Json, ours: Json, made: Json, itemKey: ItemKey)
    requires base.Obj? && ours.Obj? && made.Obj? && AllKeyed(ThreeRoots(base, ours, made), itemKey, true)
    requires var (b, o, m) := (FullForm(base, itemKey), FullForm(ours, itemKey), FullForm(made, itemKey));
             b.Obj? && o.Obj? && m.Obj? && ArrayFree(b) && ArrayFree(o) && ArrayFree(m)
               && ThreeWayObject(b, o, m) == Holds(Some(m))
    ensures ReplayByKey(ord, base, ours, made, itemKey) == AlreadyApplied(made)
  {
    ThreeForms(base, ours, made, itemKey, true);
    SettledRestores(base, ours, made, itemKey);
    ReplayByKeyIsThreeWay(ord, base, ours, made, itemKey);
  }

  lemma SettledRestores(base: Json, ours: Json, made: Json, itemKey: ItemKey)
    requires AllKeyed(ThreeRoots(base, ours, made), itemKey, true)
    ensures var keyed := KeyedIn(base, ours, made, itemKey);
            !OrderClash(keyed) && Restored(Form(made, [], keyed, itemKey), [], KeptArrays(keyed)) == made
  {
    var (roots, keyed) := (ThreeRoots(base, ours, made), KeyedIn(base, ours, made, itemKey));
    forall q: Path | q in keyed ensures Stable(keyed[q]) {
      KeyedFound(roots, [], itemKey, q);
    }
    RootRestored(roots, itemKey, 2, KeptArrays(keyed));
  }

  /** With every array keyed by one id field, replaying an edit again changes nothing. */
  lemma EditRootOnceById(ord: KeyOrder, before: Json, after: Json, root: Json, field: string)
    requires before.Obj? && after.Obj? && root.Obj? && KeyedThroughout(field, before, after, root)
    ensures var once := EditRoot(ord, Some(ByField(field)), before, after, root);
            EditRoot(ord, Some(ByField(field)), before, after, once) == once
  {
    if before != after && ReplayByKey(ord, before, after, root, ByField(field)).Merged? {
      ReplayByIdOnce(ord, before, after, root, field);
    }
  }
}
